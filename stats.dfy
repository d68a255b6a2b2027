/** User statistics (api/user/stats/index.js, app/api/user/stats/route.ts): login streak,
    last login date, drill count and the date of the latest drill. */
module Stats {
  import opened Wrappers
  import opened DrillStore
  import opened UserStore

  const MillisPerDay := 86400000

  /** `lastDrillDate` is a calendar date; it is modelled by its day number since the epoch. */
  datatype StatsResponse =
    | UserStats(loginStreak: int, lastLoginDate: string, drillsParticipated: nat, lastDrillDay: Option<int>)
    | StatsError(status: int, message: string)

  /** The day (UTC) an instant falls on; Dafny's division floors for a positive divisor, as the date conversion does. */
  function Day(t: int): int {
    t / MillisPerDay
  }

  /** The latest timestamp of a non-empty list. */
  function Latest(records: seq<DrillRecord>): (r: int)
    requires records != []
    ensures forall i :: 0 <= i < |records| ==> records[i].timestamp <= r
    ensures exists i :: 0 <= i < |records| && records[i].timestamp == r
  {
    if |records| == 1 then records[0].timestamp
    else
      var rest := Latest(records[1..]);
      assert forall i :: 1 <= i < |records| ==> records[i] == records[1..][i - 1];
      if records[0].timestamp >= rest then records[0].timestamp else rest
  }

  /** The handler on an already-read user list and drill log; an absent or empty `id` is None. */
  function GetUserStats(users: seq<User>, drills: seq<DrillRecord>, id: Option<string>): (r: StatsResponse)
    ensures id.None? || id.value == "" ==> r == StatsError(400, "User ID is required")
    ensures id.Some? && id.value != "" && FindById(users, id.value).None? ==> r == StatsError(404, "User not found")
    ensures id.Some? && id.value != "" && FindById(users, id.value).Some? ==> r.UserStats?
    ensures r.UserStats? ==>
      var mine := ParticipationOf(drills, id.value);
      var u := FindById(users, id.value).value;
      r.loginStreak == StreakOrZero(u.loginStreak) &&
      r.lastLoginDate == u.lastLoginDate.GetOr("") &&
      r.drillsParticipated == TotalDrills(drills, id.value) &&
      (r.lastDrillDay.Some? <==> r.drillsParticipated > 0) &&
      (r.lastDrillDay.Some? ==>
        (forall p :: p in mine ==> Day(p.timestamp) <= r.lastDrillDay.value) &&
        (exists p :: p in mine && Day(p.timestamp) == r.lastDrillDay.value))
  {
    if id.None? || id.value == "" then StatsError(400, "User ID is required")
    else match FindById(users, id.value)
      case None => StatsError(404, "User not found")
      case Some(u) =>
        var mine := ParticipationOf(drills, id.value);
        var lastDrillDay := if |mine| > 0 then Some(Day(Latest(mine))) else None;
        assert lastDrillDay.Some? ==> forall p :: p in mine ==> Day(p.timestamp) <= lastDrillDay.value by {
          if lastDrillDay.Some? {
            forall p | p in mine ensures Day(p.timestamp) <= lastDrillDay.value {
              DayMonotone(p.timestamp, Latest(mine));
            }
          }
        }
        UserStats(StreakOrZero(u.loginStreak), u.lastLoginDate.GetOr(""), |mine|, lastDrillDay)
  }

  lemma DayMonotone(a: int, b: int)
    requires a <= b
    ensures Day(a) <= Day(b)
  {
  }
}
