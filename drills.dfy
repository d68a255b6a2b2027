/** Drill scenarios and the drill endpoints: the region filter and drill start in server.js,
    the user-badges endpoint, the in-memory participation list, and the Next.js drills route
    (app/api/drills/route.ts). The scenario file is an input list. */
module Drills {
  import opened Wrappers
  import opened ProgressStore
  import opened DrillStore
  import opened UserStore
  import opened Catalogue
  import opened Badges

  /** A drill scenario; everything but its identifier and region is carried as opaque text. */
  datatype Drill = Drill(id: string, region: string, details: string)

  predicate Falsy(v: Option<string>) {
    v.None? || v.value == ""
  }

  /** The scenarios of the region and those marked `all`, in file order. */
  function RegionFilter(drills: seq<Drill>, region: string): (r: seq<Drill>)
    ensures |r| <= |drills|
    ensures forall d :: d in r <==> d in drills && (d.region == region || d.region == "all")
  {
    if drills == [] then []
    else
      var init := drills[..|drills| - 1];
      var last := drills[|drills| - 1];
      assert drills == init + [last];
      RegionFilter(init, region) + (if last.region == region || last.region == "all" then [last] else [])
  }

  /** The filter keeps file order: filtering a concatenation filters each part. */
  lemma {:induction false} RegionFilterAppend(a: seq<Drill>, b: seq<Drill>, region: string)
    ensures RegionFilter(a + b, region) == RegionFilter(a, region) + RegionFilter(b, region)
    decreases |b|
  {
    if b == [] {
      assert a + b == a;
    } else {
      var init := b[..|b| - 1];
      assert (a + b)[..|a + b| - 1] == a + init;
      assert (a + b)[|a + b| - 1] == b[|b| - 1];
      RegionFilterAppend(a, init, region);
    }
  }

  /** `GET /api/drills`: with a (truthy) region the filter, otherwise every scenario. */
  function DrillsForRegion(drills: seq<Drill>, region: Option<string>): (r: seq<Drill>)
    ensures Falsy(region) ==> r == drills
    ensures !Falsy(region) ==> r == RegionFilter(drills, region.value)
  {
    if Falsy(region) then drills else RegionFilter(drills, region.value)
  }

  /** The first scenario with the identifier. */
  function FindDrill(drills: seq<Drill>, id: string): (r: Option<Drill>)
    ensures r.None? <==> forall i :: 0 <= i < |drills| ==> drills[i].id != id
    ensures r.Some? ==> r.value in drills && r.value.id == id
    ensures forall i :: 0 <= i < |drills| && drills[i].id == id && (forall j :: 0 <= j < i ==> drills[j].id != id)
              ==> r == Some(drills[i])
  {
    if drills == [] then None
    else if drills[0].id == id then Some(drills[0])
    else
      assert forall i :: 1 <= i < |drills| ==> drills[i] == drills[1..][i - 1];
      FindDrill(drills[1..], id)
  }

  datatype StartResponse =
    | Started(drillId: string, newBadges: Option<seq<string>>, message: Option<string>)
    | StartError(status: int, error: string)

  /** The user identifier from the body, or `anonymous` when it is missing or empty. */
  function StartingUser(bodyUserId: Option<string>): string {
    if Falsy(bodyUserId) then "anonymous" else bodyUserId.value
  }

  /** `POST /api/drills/:id/start`: unknown drill 404; anonymous start records nothing; a known
      user gets one participation record and a badge evaluation; an unknown user 404. */
  method StartDrill(scenarios: seq<Drill>, catalogue: seq<Module>, users: UserFile, drillLog: DrillLog,
                    progress: ProgressLog, drillId: string, bodyUserId: Option<string>, recordId: string, now: int)
    returns (resp: StartResponse)
    modifies users, drillLog
    ensures FindDrill(scenarios, drillId).None? ==>
      resp == StartError(404, "Drill not found") && unchanged(users) && unchanged(drillLog)
    ensures FindDrill(scenarios, drillId).Some? && StartingUser(bodyUserId) == "anonymous" ==>
      resp == Started(drillId, None, None) && unchanged(users) && unchanged(drillLog)
    ensures (FindDrill(scenarios, drillId).Some? && StartingUser(bodyUserId) != "anonymous" &&
             old(users.GetUserById(StartingUser(bodyUserId))).None?) ==>
      resp == StartError(404, "User not found") && unchanged(users) && unchanged(drillLog)
    ensures (FindDrill(scenarios, drillId).Some? && StartingUser(bodyUserId) != "anonymous" &&
             old(users.GetUserById(StartingUser(bodyUserId))).Some?) ==>
        var userId := StartingUser(bodyUserId);
        var u := old(users.GetUserById(userId)).value;
        var earned := NewBadges(catalogue, u, progress.attempts, drillLog.records);
        drillLog.records == old(drillLog.records) + [DrillRecord(recordId, userId, drillId, now)] &&
        users.records == (if earned == [] then old(users.records)
                          else Upsert(old(users.Users()), u.(badges := Listed(HeldBadges(u.badges) + earned)))) &&
        resp == Started(drillId, Some(earned), None)
  {
    var drill := FindDrill(scenarios, drillId);
    if drill.None? {
      return StartError(404, "Drill not found");
    }
    var userId := StartingUser(bodyUserId);
    if userId != "anonymous" {
      var user := users.GetUserById(userId);
      if user.Some? {
        var k := IndexOfId(users.Users(), userId).value;
        assert user.value == users.Users()[k];
        drillLog.SaveDrillParticipationRecord(userId, drill.value.id, recordId, now);
        var newBadges, updated := CheckAndAwardBadges(catalogue, user.value, progress.attempts, drillLog.records);
        if |newBadges| > 0 {
          users.SaveUser(updated);
        }
        resp := Started(drill.value.id, Some(newBadges), None);
      } else {
        resp := StartError(404, "User not found");
      }
    } else {
      resp := Started(drill.value.id, None, None);
    }
  }

  datatype BadgesResponse = BadgeList(badges: seq<string>) | BadgesError(status: int, error: string)

  /** `GET /api/user/:userId/badges`: 404 for an unknown user, else the badges held (none when the field is unset). */
  function UserBadges(users: seq<User>, userId: string): (r: BadgesResponse)
    ensures r.BadgesError? <==> FindById(users, userId).None?
    ensures r.BadgesError? ==> r == BadgesError(404, "User not found")
    ensures r.BadgeList? ==> r.badges == HeldBadges(FindById(users, userId).value.badges)
  {
    match FindById(users, userId)
    case None => BadgesError(404, "User not found")
    case Some(u) => BadgeList(HeldBadges(u.badges))
  }

  /** The server's module-level participation list, separate from the drill log file. */
  class ParticipationMemory {
    var drillParticipation: seq<DrillRecord>

    constructor ()
      ensures drillParticipation == []
    {
      drillParticipation := [];
    }

    /** `recordDrillParticipation`: one record appended; the identifier and clock are inputs. */
    method RecordDrillParticipation(userId: string, drillId: string, id: string, now: int)
      modifies this
      ensures drillParticipation == old(drillParticipation) + [DrillRecord(id, userId, drillId, now)]
    {
      drillParticipation := drillParticipation + [DrillRecord(id, userId, drillId, now)];
    }
  }

  datatype DrillsGetResponse = OneDrill(drill: Drill) | DrillList(drills: seq<Drill>) | DrillsError(status: int, error: string)

  /** `GET` in app/api/drills/route.ts: a (truthy) `id` wins over `region`. */
  function DrillsGet(scenarios: seq<Drill>, region: Option<string>, id: Option<string>): (r: DrillsGetResponse)
    ensures !Falsy(id) ==> (r.OneDrill? || r == DrillsError(404, "Drill not found"))
    ensures !Falsy(id) ==> (r.OneDrill? <==> FindDrill(scenarios, id.value).Some?)
    ensures r.OneDrill? ==> !Falsy(id) && r.drill.id == id.value && r.drill in scenarios
    ensures !Falsy(id) ==>
      forall i :: (0 <= i < |scenarios| && scenarios[i].id == id.value &&
                   (forall j :: 0 <= j < i ==> scenarios[j].id != id.value)) ==> r == OneDrill(scenarios[i])
    ensures Falsy(id) ==> r == DrillList(DrillsForRegion(scenarios, region))
  {
    if !Falsy(id) then
      match FindDrill(scenarios, id.value)
      case None => DrillsError(404, "Drill not found")
      case Some(d) => OneDrill(d)
    else DrillList(DrillsForRegion(scenarios, region))
  }

  /** `POST` in app/api/drills/route.ts: only an existence check; nothing is recorded. */
  function DrillsPost(scenarios: seq<Drill>, body: Option<Option<string>>): (r: StartResponse)
    ensures body.None? ==> r == StartError(500, "Internal server error")
    ensures body.Some? && (body.value.None? || FindDrill(scenarios, body.value.value).None?) ==>
      r == StartError(404, "Drill not found")
    ensures r.Started? ==>
      (body.Some? && body.value.Some? && FindDrill(scenarios, body.value.value).Some? &&
       r == Started(body.value.value, None, Some("Drill started successfully")))
    ensures body.Some? && body.value.Some? && FindDrill(scenarios, body.value.value).Some? ==>
      r == Started(body.value.value, None, Some("Drill started successfully"))
  {
    if body.None? then StartError(500, "Internal server error")
    else if body.value.None? then StartError(404, "Drill not found")
    else match FindDrill(scenarios, body.value.value)
      case None => StartError(404, "Drill not found")
      case Some(d) => Started(d.id, None, Some("Drill started successfully"))
  }
}
