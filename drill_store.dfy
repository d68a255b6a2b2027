/** The drill-participation log (lib/drillStore.js): an append-only list of records,
    one per drill a known user started. */
module DrillStore {
  /** One record; the identifier is a fresh UUID and the timestamp the start time in milliseconds. */
  datatype DrillRecord = DrillRecord(id: string, userId: string, drillId: string, timestamp: int)

  /** The user's records, in log order. */
  function ParticipationOf(log: seq<DrillRecord>, userId: string): (r: seq<DrillRecord>)
    ensures |r| <= |log|
    ensures forall p :: p in r ==> p in log && p.userId == userId
  {
    if log == [] then []
    else ParticipationOf(log[..|log| - 1], userId) + (if log[|log| - 1].userId == userId then [log[|log| - 1]] else [])
  }

  /** `getTotalDrillsByUserId`: how many records the user has. */
  function TotalDrills(log: seq<DrillRecord>, userId: string): nat {
    |ParticipationOf(log, userId)|
  }

  /** The listing keeps every record of the user, and only those. */
  lemma {:induction false} ParticipationOfMembers(log: seq<DrillRecord>, userId: string, p: DrillRecord)
    ensures p in ParticipationOf(log, userId) <==> p in log && p.userId == userId
  {
    if log != [] {
      ParticipationOfMembers(log[..|log| - 1], userId, p);
      assert log == log[..|log| - 1] + [log[|log| - 1]];
    }
  }

  /** The count is the number of positions in the log that belong to the user. */
  lemma {:induction false} TotalDrillsCountsPositions(log: seq<DrillRecord>, userId: string)
    ensures TotalDrills(log, userId) == |set i | 0 <= i < |log| && log[i].userId == userId|
  {
    if log != [] {
      var init := log[..|log| - 1];
      TotalDrillsCountsPositions(init, userId);
      var before := set i | 0 <= i < |init| && init[i].userId == userId;
      var after := set i | 0 <= i < |log| && log[i].userId == userId;
      if log[|log| - 1].userId == userId {
        assert after == before + {|log| - 1};
      } else {
        assert after == before;
      }
    }
  }

  /** Appending a record raises its user's count by one and leaves every other count alone. */
  lemma TotalDrillsAfterAppend(log: seq<DrillRecord>, p: DrillRecord, userId: string)
    ensures TotalDrills(log + [p], userId) == TotalDrills(log, userId) + (if p.userId == userId then 1 else 0)
  {
    assert (log + [p])[..|log|] == log;
  }

  class DrillLog {
    var records: seq<DrillRecord>

    constructor ()
      ensures records == []
    {
      records := [];
    }

    /** `saveDrillParticipationRecord`; the UUID and the clock are supplied by the caller. */
    method SaveDrillParticipationRecord(userId: string, drillId: string, id: string, now: int)
      modifies this
      ensures records == old(records) + [DrillRecord(id, userId, drillId, now)]
      ensures forall u :: TotalDrills(records, u) == TotalDrills(old(records), u) + (if u == userId then 1 else 0)
    {
      var record := DrillRecord(id, userId, drillId, now);
      forall u ensures TotalDrills(records + [record], u) == TotalDrills(records, u) + (if u == userId then 1 else 0) {
        TotalDrillsAfterAppend(records, record, u);
      }
      records := records + [record];
    }

    function GetParticipationByUserId(userId: string): seq<DrillRecord>
      reads this
    {
      ParticipationOf(records, userId)
    }

    function GetTotalDrillsByUserId(userId: string): nat
      reads this
    {
      TotalDrills(records, userId)
    }
  }
}
