/** The `CustomUser` model: role, progression (points and level) and the
    task-management permission (accounts/models.py). */
module Accounts {
  import opened Wrappers
  import opened Tasks

  /** `ROLE_CHOICES`; the stored codes are "admin", "coach" and "user". */
  datatype Role = Admin | Coach | RegularUser {
    function Code(): (code: string)
      ensures 0 < |code| <= 10
    {
      match this
      case Admin => "admin"
      case Coach => "coach"
      case RegularUser => "user"
    }
  }

  /** Reads a stored role code back. */
  function ParseRole(code: string): (r: Option<Role>)
    ensures r.Some? ==> r.value.Code() == code
  {
    if code == "admin" then Some(Admin)
    else if code == "coach" then Some(Coach)
    else if code == "user" then Some(RegularUser)
    else None
  }

  /** The three codes are distinct and each parses back to its role. */
  lemma RoleCodeRoundTrip(r: Role, s: Role)
    ensures ParseRole(r.Code()) == Some(r)
    ensures r.Code() == s.Code() ==> r == s
  {
  }

  /** Points needed for one level-up. */
  const PointsPerLevel: int := 100

  /** The two progression fields of a user. */
  datatype Standing = Standing(points: int, level: int)

  /** Total progress: points plus the points that the levels above 0 stand for. */
  function Progress(s: Standing): int {
    s.points + PointsPerLevel * s.level
  }

  /** `increase_level`: one level up, paid for with 100 points when the user
      has them; with fewer, the level is granted and the points kept. */
  function LevelUp(s: Standing): (r: Standing)
    ensures r.level == s.level + 1
    ensures s.points >= PointsPerLevel ==> r.points == s.points - PointsPerLevel
    ensures s.points < PointsPerLevel ==> r.points == s.points
  {
    Standing(if s.points >= PointsPerLevel then s.points - PointsPerLevel else s.points, s.level + 1)
  }

  /** `increase_level` never makes points negative, and when it is paid for
      it keeps the total progress. */
  lemma LevelUpKeepsPointsNonNegative(s: Standing)
    ensures s.points >= 0 ==> LevelUp(s).points >= 0
    ensures s.points >= PointsPerLevel ==> Progress(LevelUp(s)) == Progress(s)
    ensures s.points < PointsPerLevel ==> Progress(LevelUp(s)) == Progress(s) + PointsPerLevel
  {
  }

  /** A user row. `id` is the primary key; the other profile fields
      (gender, birth date, avatar, bio, ...) take no part in the logic. */
  class CustomUser {
    const id: UserId
    var username: string
    var role: Role
    var points: int
    var level: int

    /** A new user: `role='user'`, `points=0`, `level=1`. */
    constructor (id: UserId, username: string)
      ensures this.id == id && this.username == username
      ensures role == RegularUser && points == 0 && level == 1
    {
      this.id := id;
      this.username := username;
      role := RegularUser;
      points := 0;
      level := 1;
    }

    function GetStanding(): Standing
      reads this
    {
      Standing(points, level)
    }

    /** `increase_level`: changes `level` and `points` only. */
    method IncreaseLevel()
      modifies this`level, this`points
      ensures GetStanding() == LevelUp(old(GetStanding()))
      ensures role == old(role) && username == old(username)
    {
      level := level + 1;
      if points >= PointsPerLevel {
        points := points - PointsPerLevel;
      }
    }

    /** `can_manage_task`: admins manage every task, anyone else only the
        tasks whose `user` is this user (an unset owner is nobody's). */
    function CanManageTask(task: Task): (ok: bool)
      reads this
      ensures role == Admin ==> ok
      ensures role != Admin ==> (ok <==> task.owner == Some(id))
    {
      role == Admin || task.owner == Some(id)
    }
  }

  /** Among any tasks, an admin may manage all, and any other user exactly
      the ones it owns. */
  lemma ManageableTasks(u: CustomUser, tasks: set<Task>)
    ensures u.role == Admin ==> (set t | t in tasks && u.CanManageTask(t)) == tasks
    ensures u.role != Admin ==> (set t | t in tasks && u.CanManageTask(t)) == (set t | t in tasks && t.owner == Some(u.id))
  {
  }

  /** A task without an owner can be managed by admins only. */
  lemma OwnerlessTaskAdminOnly(u: CustomUser, task: Task)
    requires task.owner.None?
    ensures u.CanManageTask(task) <==> u.role == Admin
  {
  }
}
