/** The task view set's `high_priority` action (LQ_Tasks/views.py). */
module Views {
  import opened Wrappers
  import opened Tasks

  /** `priority__gte=7`: rank "S" and above. */
  const HighPriorityThreshold: int := 7

  /** `s` is `t` with some elements left out, the rest in their order. */
  predicate IsSubsequence(s: seq<Task>, t: seq<Task>)
    decreases |t|
  {
    if s == [] then true
    else if t == [] then false
    else if s[0] == t[0] then IsSubsequence(s[1..], t[1..])
    else IsSubsequence(s, t[1..])
  }

  /** `Task.objects.all().filter(priority__gte=7)`, in the queryset's order.
      The queryset is every task of every user: the action does not look at
      who is asking. */
  function HighPriority(queryset: seq<Task>): (r: seq<Task>)
    ensures forall t :: t in r ==> t.priority >= HighPriorityThreshold
    ensures forall t :: t in queryset && t.priority >= HighPriorityThreshold ==> t in r
    ensures forall t :: t in r ==> t in queryset
    ensures IsSubsequence(r, queryset)
    ensures forall t: Task :: t.priority >= HighPriorityThreshold ==> multiset(r)[t] == multiset(queryset)[t]
  {
    if queryset == [] then []
    else
      var head, rest := queryset[0], HighPriority(queryset[1..]);
      assert queryset == [head] + queryset[1..];
      assert multiset(queryset) == multiset{head} + multiset(queryset[1..]);
      if head.priority >= HighPriorityThreshold then
        assert ([head] + rest)[1..] == rest;
        [head] + rest
      else
        rest
  }

  /** The tasks of `queryset` whose `user` is `owner`, in order: what a
      queryset scoped to the caller would hold. */
  function OwnedBy(queryset: seq<Task>, owner: UserId): (r: seq<Task>)
    ensures forall t :: t in r <==> t in queryset && t.owner == Some(owner)
  {
    if queryset == [] then []
    else if queryset[0].owner == Some(owner) then [queryset[0]] + OwnedBy(queryset[1..], owner)
    else OwnedBy(queryset[1..], owner)
  }

  /** No scoping by owner: as soon as some other user owns a high-priority
      task, the action's answer differs from the answer over the caller's
      own tasks, and contains that task. */
  lemma HighPriorityNotScoped(queryset: seq<Task>, t: Task, caller: UserId)
    requires t in queryset && t.priority >= HighPriorityThreshold
    requires t.owner != Some(caller)
    ensures t in HighPriority(queryset)
    ensures t !in HighPriority(OwnedBy(queryset, caller))
    ensures HighPriority(queryset) != HighPriority(OwnedBy(queryset, caller))
  {
  }

  /** A priority-8 task is listed and a priority-5 task is not, whoever owns them. */
  lemma HighPriorityExample(low: Task, high: Task)
    requires low.priority == 5 && high.priority == 8
    ensures HighPriority([low, high]) == [high]
  {
  }
}
