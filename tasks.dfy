/** The `Task` model: its priority and status choice lists and the
    constraints its field declarations put on a row (LQ_Tasks/models.py). */
module Tasks {
  import opened Wrappers

  /** Primary key of a user row; the task's `user` foreign key holds one. */
  type UserId = nat
  type TaskId = nat

  /** `title = CharField(max_length=255)` */
  const MaxTitleLength: nat := 255
  /** `status = CharField(max_length=20, ...)` */
  const MaxStatusLength: nat := 20

  type Title = s: string | |s| <= MaxTitleLength

  // ---------------------------------------------------------------------
  // Priority

  /** `PRIORITY_CHOICES`: stored value and its game-rank label. */
  const PriorityChoices: seq<(int, string)> :=
    [(1, "F"), (2, "E"), (3, "D"), (4, "C"), (5, "B"),
     (6, "A"), (7, "S"), (8, "SS"), (9, "SSS"), (10, "EX")]

  /** A value the `choices` of the priority field admits. */
  predicate IsPriorityChoice(p: int) {
    exists i :: 0 <= i < |PriorityChoices| && PriorityChoices[i].0 == p
  }

  type Priority = p: int | 1 <= p <= 10 witness 1

  /** The choice list admits exactly the ten integers 1..10. */
  lemma PriorityChoicesAreOneToTen(p: int)
    ensures IsPriorityChoice(p) <==> 1 <= p <= 10
  {
    if 1 <= p <= 10 {
      assert PriorityChoices[p - 1].0 == p;
    }
  }

  /** Label of a stored priority, looked up in `PRIORITY_CHOICES`. */
  function PriorityLabel(p: Priority): (rank: string)
    ensures 1 <= |rank| <= 3
    ensures (p as int, rank) in PriorityChoices
  {
    PriorityChoices[p - 1].1
  }

  /** The reverse lookup: the priority a label stands for, if any. */
  function PriorityOfLabel(rank: string): (r: Option<Priority>)
    ensures r.Some? ==> PriorityLabel(r.value) == rank
  {
    if rank == "F" then Some(1)
    else if rank == "E" then Some(2)
    else if rank == "D" then Some(3)
    else if rank == "C" then Some(4)
    else if rank == "B" then Some(5)
    else if rank == "A" then Some(6)
    else if rank == "S" then Some(7)
    else if rank == "SS" then Some(8)
    else if rank == "SSS" then Some(9)
    else if rank == "EX" then Some(10)
    else None
  }

  /** Every priority's label leads back to that priority. */
  lemma PriorityLabelRoundTrip(p: Priority)
    ensures PriorityOfLabel(PriorityLabel(p)) == Some(p)
  {
  }

  /** No two priorities share a label, and 7 is the rank "S". */
  lemma PriorityLabelInjective(p: Priority, q: Priority)
    ensures PriorityLabel(p) == PriorityLabel(q) ==> p == q
    ensures PriorityLabel(7) == "S"
  {
  }

  // ---------------------------------------------------------------------
  // Status

  /** `STATUS_CHOICES`: stored code and display name. */
  const StatusChoices: seq<(string, string)> :=
    [("CREATED", "Created"), ("SCHEDULED", "Scheduled"),
     ("IN_PROGRESS", "In Progress"), ("PROCESSING", "Processing"),
     ("ON_HOLD", "On Hold"), ("DEFERRED", "Deferred"),
     ("UNDER_REVIEW", "Under Review"), ("COMPLETED", "Completed"),
     ("FAILED", "Failed")]

  datatype Status =
    | Created | Scheduled | InProgress | Processing | OnHold
    | Deferred | UnderReview | Completed | Failed
  {
    /** Position of this status in `STATUS_CHOICES`. */
    function Index(): (i: nat)
      ensures i < |StatusChoices|
    {
      match this
      case Created => 0
      case Scheduled => 1
      case InProgress => 2
      case Processing => 3
      case OnHold => 4
      case Deferred => 5
      case UnderReview => 6
      case Completed => 7
      case Failed => 8
    }

    /** The code stored in the `status` column. */
    function Code(): (code: string)
      ensures 0 < |code| <= MaxStatusLength
    {
      StatusChoices[Index()].0
    }
  }

  /** `default='CREATED'` */
  const DefaultStatus: Status := Created

  /** A code the `choices` of the status field admits. */
  predicate IsStatusChoice(code: string) {
    exists i :: 0 <= i < |StatusChoices| && StatusChoices[i].0 == code
  }

  /** Reads a stored status code back. */
  function ParseStatus(code: string): (r: Option<Status>)
    ensures r.Some? ==> r.value.Code() == code
    ensures r.None? ==> !IsStatusChoice(code)
  {
    if code == "CREATED" then Some(Created)
    else if code == "SCHEDULED" then Some(Scheduled)
    else if code == "IN_PROGRESS" then Some(InProgress)
    else if code == "PROCESSING" then Some(Processing)
    else if code == "ON_HOLD" then Some(OnHold)
    else if code == "DEFERRED" then Some(Deferred)
    else if code == "UNDER_REVIEW" then Some(UnderReview)
    else if code == "COMPLETED" then Some(Completed)
    else if code == "FAILED" then Some(Failed)
    else None
  }

  /** The nine codes are distinct, each is a choice, and each parses back. */
  lemma StatusCodeRoundTrip(s: Status, t: Status)
    ensures ParseStatus(s.Code()) == Some(s)
    ensures IsStatusChoice(s.Code())
    ensures s.Code() == t.Code() ==> s == t
  {
  }

  /** The default status is stored as the code "CREATED". */
  lemma DefaultStatusIsCreated()
    ensures DefaultStatus.Code() == "CREATED"
  {
  }

  // ---------------------------------------------------------------------
  // The Task row

  /** `deadline = DateTimeField(...)`: an opaque timestamp. */
  datatype Deadline = Deadline(isoText: string)

  /** A stored task. `description` and `deadline` are nullable; `owner` is
      the `user` foreign key, which the serializers set from the request. */
  datatype Task = Task(
    id: TaskId,
    title: Title,
    description: Option<string>,
    priority: Priority,
    status: Status,
    deadline: Option<Deadline>,
    owner: Option<UserId>)

  /** The fields a client may send for a task (the serializer's field list:
      title, description, priority, status), before validation. */
  datatype TaskInput = TaskInput(
    title: Option<string>,
    description: Option<string>,
    priority: Option<int>,
    status: Option<string>)

  /** Validated task fields; `user` is the key the serializer adds. */
  datatype TaskData = TaskData(
    title: Title,
    description: Option<string>,
    priority: Priority,
    status: Option<Status>,
    user: Option<UserId>)

  /** The characters Python's `str.strip()` removes (those for which
      `str.isspace()` holds). */
  predicate IsSpace(c: char) {
    || '\U{9}' <= c <= '\U{d}'
    || '\U{1c}' <= c <= '\U{20}'
    || c == '\U{85}' || c == '\U{a0}' || c == '\U{1680}'
    || '\U{2000}' <= c <= '\U{200a}'
    || c == '\U{2028}' || c == '\U{2029}' || c == '\U{202f}' || c == '\U{205f}' || c == '\U{3000}'
  }

  /** Holds when `s` contains U+0000, which the serializer's text fields
      refuse ("Null characters are not allowed."). Stripping never removes
      it, so testing before or after stripping is the same. */
  predicate HasNull(s: string) {
    '\U{0}' in s
  }

  /** `s` with its leading whitespace removed. */
  function TrimStart(s: string): (r: string)
    ensures |r| <= |s| && r == s[|s| - |r|..]
    ensures r != [] ==> !IsSpace(r[0])
    ensures forall i :: 0 <= i < |s| - |r| ==> IsSpace(s[i])
  {
    if s != [] && IsSpace(s[0]) then TrimStart(s[1..]) else s
  }

  /** `s` with its trailing whitespace removed. */
  function TrimEnd(s: string): (r: string)
    ensures |r| <= |s| && r == s[..|r|]
    ensures r != [] ==> !IsSpace(r[|r| - 1])
    ensures forall i :: |r| <= i < |s| ==> IsSpace(s[i])
  {
    if s != [] && IsSpace(s[|s| - 1]) then TrimEnd(s[..|s| - 1]) else s
  }

  /** `str.strip()`, which the serializer's `CharField` applies to text
      input (`trim_whitespace` is on by default). */
  function Strip(s: string): string {
    TrimEnd(TrimStart(s))
  }

  /** Where `Strip` cuts `s`: it keeps `s[a..b]`. */
  lemma StripBounds(s: string) returns (a: nat, b: nat)
    ensures a <= b <= |s| && Strip(s) == s[a..b]
    ensures forall i :: 0 <= i < a ==> IsSpace(s[i])
    ensures forall i :: b <= i < |s| ==> IsSpace(s[i])
  {
    var t := TrimStart(s);
    a := |s| - |t|;
    var r := TrimEnd(t);
    b := a + |r|;
    PrefixOfSuffix(s, a, |r|);
    forall i | b <= i < |s|
      ensures IsSpace(s[i])
    {
      assert s[i] == t[i - a];
    }
  }

  /** Taking `k` characters after dropping `a` is slicing `s[a..a + k]`. */
  lemma PrefixOfSuffix(s: string, a: nat, k: nat)
    requires a + k <= |s|
    ensures s[a..][..k] == s[a..a + k]
  {
  }

  /** `Strip` gives a contiguous part of its input that neither starts nor
      ends with whitespace, and drops only whitespace around it. */
  lemma {:induction false} StripSlice(s: string)
    ensures exists a, b ::
      && 0 <= a <= b <= |s| && Strip(s) == s[a..b]
      && (forall i :: 0 <= i < a ==> IsSpace(s[i]))
      && (forall i :: b <= i < |s| ==> IsSpace(s[i]))
    ensures Strip(s) != [] ==> !IsSpace(Strip(s)[0]) && !IsSpace(Strip(s)[|Strip(s)| - 1])
  {
    var a, b := StripBounds(s);
    var t := TrimStart(s);
    if Strip(s) != [] {
      assert Strip(s)[0] == t[0];
    }
  }

  /** Stripping twice is stripping once, and the result is empty exactly
      when the input is all whitespace. */
  lemma {:induction false} StripIdempotent(s: string)
    ensures Strip(Strip(s)) == Strip(s)
    ensures Strip(s) == [] <==> forall i :: 0 <= i < |s| ==> IsSpace(s[i])
  {
    var r := Strip(s);
    StripSlice(s);
    if r != [] {
      assert TrimStart(r) == r;
      assert TrimEnd(r) == r;
    }
  }

  /** Text that strips to nothing is all whitespace, so holds no null. */
  lemma BlankHasNoNull(s: string)
    ensures Strip(s) == [] ==> !HasNull(s)
  {
    if HasNull(s) {
      var i :| 0 <= i < |s| && s[i] == '\U{0}';
      assert !IsSpace(s[i]);
      StripIdempotent(s);
    }
  }

  datatype FieldError =
    | TitleRequired | TitleBlank | TitleTooLong | TitleHasNull
    | DescriptionHasNull
    | PriorityRequired | PriorityNotAChoice
    | StatusNotAChoice

  function TitleErrors(title: Option<string>): set<FieldError> {
    match title
    case None => {TitleRequired}
    case Some(t) =>
      if Strip(t) == [] then {TitleBlank}
      else
        (if |Strip(t)| > MaxTitleLength then {TitleTooLong} else {})
        + (if HasNull(t) then {TitleHasNull} else {})
  }

  /** A blank description is allowed; otherwise only null characters fail. */
  function DescriptionErrors(description: Option<string>): set<FieldError> {
    match description
    case None => {}
    case Some(d) => if HasNull(d) then {DescriptionHasNull} else {}
  }

  function PriorityErrors(priority: Option<int>): set<FieldError> {
    match priority
    case None => {PriorityRequired}
    case Some(p) => if 1 <= p <= 10 then {} else {PriorityNotAChoice}
  }

  function StatusErrors(status: Option<string>): set<FieldError> {
    match status
    case None => {}
    case Some(code) => if ParseStatus(code).Some? then {} else {StatusNotAChoice}
  }

  /** Which title errors are reported, one check at a time. */
  lemma TitleErrorsFacts(title: Option<string>)
    ensures TitleErrors(title) == {} <==>
      title.Some? && 0 < |Strip(title.value)| <= MaxTitleLength && !HasNull(title.value)
    ensures TitleRequired in TitleErrors(title) <==> title.None?
    ensures TitleBlank in TitleErrors(title) <==> title.Some? && Strip(title.value) == []
    ensures TitleTooLong in TitleErrors(title) <==> title.Some? && |Strip(title.value)| > MaxTitleLength
    ensures TitleHasNull in TitleErrors(title) <==> title.Some? && HasNull(title.value)
    ensures TitleErrors(title) <= {TitleRequired, TitleBlank, TitleTooLong, TitleHasNull}
  {
    if title.Some? {
      BlankHasNoNull(title.value);
    }
  }

  /** Which description, priority and status errors are reported. */
  lemma OtherErrorsFacts(input: TaskInput)
    ensures DescriptionErrors(input.description) <= {DescriptionHasNull}
    ensures DescriptionHasNull in DescriptionErrors(input.description) <==>
      input.description.Some? && HasNull(input.description.value)
    ensures PriorityErrors(input.priority) <= {PriorityRequired, PriorityNotAChoice}
    ensures PriorityRequired in PriorityErrors(input.priority) <==> input.priority.None?
    ensures PriorityNotAChoice in PriorityErrors(input.priority) <==>
      input.priority.Some? && !IsPriorityChoice(input.priority.value)
    ensures StatusErrors(input.status) <= {StatusNotAChoice}
    ensures DescriptionErrors(input.description) == {} <==>
      (input.description.Some? ==> !HasNull(input.description.value))
    ensures PriorityErrors(input.priority) == {} <==>
      input.priority.Some? && IsPriorityChoice(input.priority.value)
    ensures StatusErrors(input.status) == {} <==> (input.status.Some? ==> IsStatusChoice(input.status.value))
    ensures StatusNotAChoice in StatusErrors(input.status) <==>
      input.status.Some? && !IsStatusChoice(input.status.value)
  {
    ValidateTaskInputFacts(input);
  }

  /** Errors of different fields never coincide, so an error is in the
      collected set exactly when its own field reported it. */
  lemma CollectedErrors(t: set<FieldError>, d: set<FieldError>, p: set<FieldError>, s: set<FieldError>)
    requires t <= {TitleRequired, TitleBlank, TitleTooLong, TitleHasNull}
    requires d <= {DescriptionHasNull}
    requires p <= {PriorityRequired, PriorityNotAChoice}
    requires s <= {StatusNotAChoice}
    ensures t + d + p + s == {} <==> t == {} && d == {} && p == {} && s == {}
    ensures TitleRequired in t + d + p + s <==> TitleRequired in t
    ensures TitleBlank in t + d + p + s <==> TitleBlank in t
    ensures TitleTooLong in t + d + p + s <==> TitleTooLong in t
    ensures TitleHasNull in t + d + p + s <==> TitleHasNull in t
    ensures DescriptionHasNull in t + d + p + s <==> DescriptionHasNull in d
    ensures PriorityRequired in t + d + p + s <==> PriorityRequired in p
    ensures PriorityNotAChoice in t + d + p + s <==> PriorityNotAChoice in p
    ensures StatusNotAChoice in t + d + p + s <==> StatusNotAChoice in s
  {
    if t + d + p + s == {} {
      assert t <= t + d + p + s && d <= t + d + p + s && p <= t + d + p + s;
    }
  }

  /** Every error the field checks report for `input`. */
  function InputErrors(input: TaskInput): set<FieldError> {
    TitleErrors(input.title) + DescriptionErrors(input.description)
      + PriorityErrors(input.priority) + StatusErrors(input.status)
  }

  /** Each error is reported exactly when its own check fails. */
  lemma InputErrorsFacts(input: TaskInput)
    ensures InputErrors(input) == {} <==>
      && input.title.Some? && 0 < |Strip(input.title.value)| <= MaxTitleLength
      && !HasNull(input.title.value)
      && (input.description.Some? ==> !HasNull(input.description.value))
      && input.priority.Some? && IsPriorityChoice(input.priority.value)
      && (input.status.Some? ==> IsStatusChoice(input.status.value))
    ensures TitleRequired in InputErrors(input) <==> input.title.None?
    ensures TitleBlank in InputErrors(input) <==> input.title.Some? && Strip(input.title.value) == []
    ensures TitleTooLong in InputErrors(input) <==>
      input.title.Some? && |Strip(input.title.value)| > MaxTitleLength
    ensures TitleHasNull in InputErrors(input) <==> input.title.Some? && HasNull(input.title.value)
    ensures DescriptionHasNull in InputErrors(input) <==>
      input.description.Some? && HasNull(input.description.value)
    ensures PriorityRequired in InputErrors(input) <==> input.priority.None?
    ensures PriorityNotAChoice in InputErrors(input) <==>
      input.priority.Some? && !IsPriorityChoice(input.priority.value)
    ensures StatusNotAChoice in InputErrors(input) <==>
      input.status.Some? && !IsStatusChoice(input.status.value)
  {
    TitleErrorsFacts(input.title);
    OtherErrorsFacts(input);
    CollectedErrors(TitleErrors(input.title), DescriptionErrors(input.description),
      PriorityErrors(input.priority), StatusErrors(input.status));
  }

  /** What the per-field checks mean in terms of the choice lists. */
  lemma ValidateTaskInputFacts(input: TaskInput)
    ensures input.priority.Some? ==> (PriorityErrors(input.priority) == {} <==> IsPriorityChoice(input.priority.value))
    ensures input.status.Some? ==> (StatusErrors(input.status) == {} <==> IsStatusChoice(input.status.value))
    ensures input.status.Some? && ParseStatus(input.status.value).Some? ==>
      ParseStatus(input.status.value).value.Code() == input.status.value
  {
    if input.priority.Some? {
      PriorityChoicesAreOneToTen(input.priority.value);
    }
    if input.status.Some? && ParseStatus(input.status.value).Some? {
      StatusCodeRoundTrip(ParseStatus(input.status.value).value, Created);
    }
  }

  /** The checks the field declarations imply, as the model serializer runs
      them: the title is required and is stripped of surrounding whitespace,
      then must be non-empty and at most 255 characters and hold no null
      character; the priority is required and one of the choices; the status
      is optional and one of the choices; the description is optional, is
      stripped too and must hold no null character. Every failing check is
      reported together. */
  function ValidateTaskInput(input: TaskInput): (r: Result<TaskData, set<FieldError>>)
    ensures r.Ok? <==>
      && input.title.Some? && 0 < |Strip(input.title.value)| <= MaxTitleLength
      && !HasNull(input.title.value)
      && (input.description.Some? ==> !HasNull(input.description.value))
      && input.priority.Some? && IsPriorityChoice(input.priority.value)
      && (input.status.Some? ==> IsStatusChoice(input.status.value))
    ensures r.Ok? ==>
      && r.value.title == Strip(input.title.value)
      && r.value.priority == input.priority.value
      && (input.description.Some? ==> r.value.description == Some(Strip(input.description.value)))
      && (input.description.None? ==> r.value.description.None?)
      && (input.status.Some? ==> r.value.status.Some? && r.value.status.value.Code() == input.status.value)
      && (input.status.None? ==> r.value.status.None?)
      && r.value.user.None?
    ensures r.Err? ==> r.error != {}
    ensures r.Err? ==> (TitleRequired in r.error <==> input.title.None?)
    ensures r.Err? ==> (TitleBlank in r.error <==> input.title.Some? && Strip(input.title.value) == [])
    ensures r.Err? ==>
      (TitleTooLong in r.error <==> input.title.Some? && |Strip(input.title.value)| > MaxTitleLength)
    ensures r.Err? ==> (TitleHasNull in r.error <==> input.title.Some? && HasNull(input.title.value))
    ensures r.Err? ==>
      (DescriptionHasNull in r.error <==> input.description.Some? && HasNull(input.description.value))
    ensures r.Err? ==> (PriorityRequired in r.error <==> input.priority.None?)
    ensures r.Err? ==>
      (PriorityNotAChoice in r.error <==> input.priority.Some? && !IsPriorityChoice(input.priority.value))
    ensures r.Err? ==>
      (StatusNotAChoice in r.error <==> input.status.Some? && !IsStatusChoice(input.status.value))
  {
    var errors := InputErrors(input);
    InputErrorsFacts(input);
    ValidateTaskInputFacts(input);
    if errors == {} then
      Ok(TaskData(
        Strip(input.title.value),
        if input.description.Some? then Some(Strip(input.description.value)) else None,
        input.priority.value,
        if input.status.Some? then ParseStatus(input.status.value) else None,
        None))
    else
      Err(errors)
  }

  /** A title of spaces only is blank. */
  lemma StripSpaces()
    ensures Strip("   ") == []
  {
    assert IsSpace(' ');
    assert "   "[1..] == "  " && "  "[1..] == " " && " "[1..] == "";
    assert TrimStart("   ") == TrimStart("  ") == TrimStart(" ") == TrimStart("") == "";
  }

  lemma BlankTitleRejected()
    ensures ValidateTaskInput(TaskInput(Some("   "), None, Some(5), None)) == Err({TitleBlank})
  {
    StripSpaces();
    assert TitleErrors(Some("   ")) == {TitleBlank};
    assert PriorityErrors(Some(5)) == {};
  }

  lemma StripPaddedX()
    ensures Strip(" x ") == "x"
  {
    assert !IsSpace('x');
    assert TrimStart("x ") == "x ";
    assert TrimStart(" x ") == "x ";
    assert TrimEnd("x") == "x";
    assert "x "[..1] == "x";
  }

  /** An input with only a title and a priority is accepted exactly when
      the stripped title fits and holds no null and the priority is a
      choice; the stripped title is what is stored. */
  lemma TitleAndPriorityOnly(title: string, priority: int)
    ensures ValidateTaskInput(TaskInput(Some(title), None, Some(priority), None)).Ok? <==>
      0 < |Strip(title)| <= MaxTitleLength && !HasNull(title) && 1 <= priority <= 10
    ensures ValidateTaskInput(TaskInput(Some(title), None, Some(priority), None)).Ok? ==>
      ValidateTaskInput(TaskInput(Some(title), None, Some(priority), None)).value ==
      TaskData(Strip(title), None, priority, None, None)
  {
    PriorityChoicesAreOneToTen(priority);
  }

  lemma PaddedXHasNoNull()
    ensures !HasNull(" x ")
  {
    var title := " x ";
    assert title == [' ', 'x', ' '];
  }

  /** Surrounding spaces are dropped before the title is stored. */
  lemma PaddedTitleStripped()
    ensures ValidateTaskInput(TaskInput(Some(" x "), None, Some(5), None)).Ok?
    ensures ValidateTaskInput(TaskInput(Some(" x "), None, Some(5), None)).value.title == "x"
  {
    StripPaddedX();
    PaddedXHasNoNull();
    TitleAndPriorityOnly(" x ", 5);
  }

  /** A trailing space adds no null character. */
  lemma NullNotInSpace(s: string)
    ensures HasNull(s + " ") <==> HasNull(s)
  {
    var t := s + " ";
    assert t[|s|] == ' ';
    assert forall i :: 0 <= i < |s| ==> t[i] == s[i];
  }

  lemma StripTrailingSpace(long: string)
    requires long != [] && !IsSpace(long[0]) && !IsSpace(long[|long| - 1])
    ensures Strip(long + " ") == long
  {
    assert TrimStart(long + " ") == long + " ";
    assert (long + " ")[..|long|] == long;
    assert TrimEnd(long) == long;
  }

  /** The length limit applies to the stripped title: 255 characters and a
      trailing space are accepted, unless a null character is among them. */
  lemma LengthCheckedAfterStrip(long: string)
    requires |long| == MaxTitleLength && long[0] == 'x' && long[|long| - 1] == 'x'
    ensures ValidateTaskInput(TaskInput(Some(long + " "), None, Some(5), None)).Ok? <==> !HasNull(long)
  {
    StripTrailingSpace(long);
    NullNotInSpace(long);
    TitleAndPriorityOnly(long + " ", 5);
  }

  /** `Task.objects.create(**validated_data)`: the row the model writes, with
      the primary key the database assigns. */
  function NewTask(id: TaskId, data: TaskData): (t: Task)
    ensures t.id == id && t.owner == data.user
    ensures t.title == data.title && t.priority == data.priority
    ensures t.description == data.description && t.deadline.None?
    ensures data.status.None? ==> t.status == Created
    ensures data.status.Some? ==> t.status == data.status.value
  {
    Task(id, data.title, data.description, data.priority,
         data.status.GetOr(DefaultStatus), None, data.user)
  }
}
