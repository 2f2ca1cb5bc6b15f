/** The `pre_save` hook on `CustomUser` (accounts/signals.py) and what
    repeated saves do to a user's standing. */
module Signals {
  import opened Accounts

  /** `check_points`: at save time, a user with at least 100 points gets one
      `increase_level`; otherwise the row is saved as it is. */
  function OnSave(s: Standing): (r: Standing)
    ensures Progress(r) == Progress(s)
    ensures s.points >= 0 ==> 0 <= r.points
    ensures s.points >= PointsPerLevel ==> r == Standing(s.points - PointsPerLevel, s.level + 1)
    ensures s.points < PointsPerLevel ==> r == s
  {
    if s.points >= PointsPerLevel then LevelUp(s) else s
  }

  /** The hook as it runs on the instance about to be saved. */
  method CheckPoints(instance: CustomUser)
    modifies instance`level, instance`points
    ensures instance.GetStanding() == OnSave(old(instance.GetStanding()))
    ensures instance.role == old(instance.role) && instance.username == old(instance.username)
  {
    if instance.points >= PointsPerLevel {
      instance.IncreaseLevel();
    }
  }

  /** A save leaves the standing alone exactly when points are below 100. */
  lemma OnSaveFixpoint(s: Standing)
    ensures OnSave(s) == s <==> s.points < PointsPerLevel
  {
  }

  /** One save grants at most one level: 250 points become 150, not 50. */
  lemma OneLevelPerSave(level: int)
    ensures OnSave(Standing(250, level)) == Standing(150, level + 1)
    ensures OnSave(OnSave(Standing(250, level))) == Standing(50, level + 2)
  {
  }

  /** The standing after `n` consecutive saves. */
  function Saves(s: Standing, n: nat): Standing
    decreases n
  {
    if n == 0 then s else Saves(OnSave(s), n - 1)
  }

  /** Saving `n` times takes off 100 points per save while at least 100*n
      points are there. */
  lemma {:induction false} SavesWhileFunded(s: Standing, n: nat)
    requires s.points >= PointsPerLevel * n
    ensures Saves(s, n) == Standing(s.points - PointsPerLevel * n, s.level + n)
    decreases n
  {
    if n > 0 {
      SavesWhileFunded(OnSave(s), n - 1);
    }
  }

  /** Starting from non-negative points, `points / 100` saves convert every
      full hundred into a level and leave `points % 100`; any later save
      changes nothing. */
  lemma {:induction false} SavesSettle(s: Standing, extra: nat)
    requires s.points >= 0
    ensures Saves(s, s.points / PointsPerLevel) ==
            Standing(s.points % PointsPerLevel, s.level + s.points / PointsPerLevel)
    ensures Saves(s, s.points / PointsPerLevel + extra) == Saves(s, s.points / PointsPerLevel)
  {
    var n := s.points / PointsPerLevel;
    SavesWhileFunded(s, n);
    var settled := Saves(s, n);
    assert settled.points < PointsPerLevel;
    SavesAfterSettled(s, n, extra);
  }

  lemma {:induction false} SavesAfterSettled(s: Standing, n: nat, extra: nat)
    requires Saves(s, n).points < PointsPerLevel
    ensures Saves(s, n + extra) == Saves(s, n)
    decreases n
  {
    if n == 0 {
      SavesOfFixpoint(s, extra);
    } else {
      SavesAfterSettled(OnSave(s), n - 1, extra);
    }
  }

  lemma {:induction false} SavesOfFixpoint(s: Standing, extra: nat)
    requires s.points < PointsPerLevel
    ensures Saves(s, extra) == s
    decreases extra
  {
    if extra > 0 {
      SavesOfFixpoint(OnSave(s), extra - 1);
    }
  }
}
