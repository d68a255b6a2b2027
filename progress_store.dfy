/** The quiz-attempt log (lib/userProgressStore.js): an append-only list of attempts,
    with the per-user listing and the per-user total score derived from it. */
module ProgressStore {
  import opened Text

  /** One recorded attempt; the score is the number of correct answers, so never negative. */
  datatype Attempt = Attempt(id: string, userId: string, moduleId: string, score: nat, timestamp: int)

  /** The attempt identifier: user, module and time joined by dashes. */
  function AttemptId(userId: string, moduleId: string, now: nat): (r: string)
    ensures |r| > |userId| + |moduleId| + 2
    ensures r[..|userId|] == userId && r[|userId|] == '-'
    ensures r[|userId| + 1..|userId| + 1 + |moduleId|] == moduleId
    ensures r[|userId| + 1 + |moduleId|] == '-' && r[|userId| + 2 + |moduleId|..] == NatToString(now)
  {
    userId + "-" + moduleId + "-" + NatToString(now)
  }

  /** Two attempts by the same user on the same module at different instants get different identifiers. */
  lemma AttemptIdsDiffer(userId: string, moduleId: string, a: nat, b: nat)
    requires a != b
    ensures AttemptId(userId, moduleId, a) != AttemptId(userId, moduleId, b)
  {
    if AttemptId(userId, moduleId, a) == AttemptId(userId, moduleId, b) {
      NatToStringInjective(a, b);
    }
  }

  /** The user's attempts, in log order. */
  function ProgressOf(log: seq<Attempt>, userId: string): (r: seq<Attempt>)
    ensures |r| <= |log|
    ensures forall a :: a in r ==> a in log && a.userId == userId
  {
    if log == [] then []
    else ProgressOf(log[..|log| - 1], userId) + (if log[|log| - 1].userId == userId then [log[|log| - 1]] else [])
  }

  function SumScores(attempts: seq<Attempt>): nat {
    if attempts == [] then 0 else SumScores(attempts[..|attempts| - 1]) + attempts[|attempts| - 1].score
  }

  /** `getTotalScoreByUserId`: the scores of all of the user's attempts, repeats included. */
  function TotalScore(log: seq<Attempt>, userId: string): nat {
    SumScores(ProgressOf(log, userId))
  }

  /** The listing keeps every record of the user, in log order, and only those. */
  lemma {:induction false} ProgressOfMembers(log: seq<Attempt>, userId: string, a: Attempt)
    ensures a in ProgressOf(log, userId) <==> a in log && a.userId == userId
  {
    if log != [] {
      ProgressOfMembers(log[..|log| - 1], userId, a);
      assert log == log[..|log| - 1] + [log[|log| - 1]];
    }
  }

  lemma ProgressOfAppend(log: seq<Attempt>, a: Attempt, userId: string)
    ensures ProgressOf(log + [a], userId) == ProgressOf(log, userId) + (if a.userId == userId then [a] else [])
  {
    assert (log + [a])[..|log|] == log;
  }

  lemma SumScoresAppend(xs: seq<Attempt>, ys: seq<Attempt>)
    ensures SumScores(xs + ys) == SumScores(xs) + SumScores(ys)
    decreases |ys|
  {
    if ys != [] {
      assert (xs + ys)[..|xs + ys| - 1] == xs + ys[..|ys| - 1];
      assert (xs + ys)[|xs + ys| - 1] == ys[|ys| - 1];
      SumScoresAppend(xs, ys[..|ys| - 1]);
      assert SumScores(xs + ys) == SumScores(xs + ys[..|ys| - 1]) + ys[|ys| - 1].score;
    } else {
      assert xs + ys == xs;
    }
  }

  /** A user with no recorded attempt has total 0. */
  lemma {:induction false} TotalScoreWithoutAttempts(log: seq<Attempt>, userId: string)
    requires forall i :: 0 <= i < |log| ==> log[i].userId != userId
    ensures TotalScore(log, userId) == 0
  {
    if log != [] {
      TotalScoreWithoutAttempts(log[..|log| - 1], userId);
    }
  }

  /** Appending an attempt raises its user's total by its score and leaves every other total alone. */
  lemma TotalScoreAfterAppend(log: seq<Attempt>, a: Attempt, userId: string)
    ensures TotalScore(log + [a], userId) == TotalScore(log, userId) + (if a.userId == userId then a.score else 0)
  {
    ProgressOfAppend(log, a, userId);
    SumScoresAppend(ProgressOf(log, userId), if a.userId == userId then [a] else []);
    assert SumScores([a]) == a.score by { assert [a][..0] == []; }
  }

  /** The log file as an in-memory list; it starts empty, as the file is created holding `[]`. */
  class ProgressLog {
    var attempts: seq<Attempt>

    constructor ()
      ensures attempts == []
    {
      attempts := [];
    }

    /** `saveQuizAttempt`: one new record at the end, everything before it untouched. */
    method SaveQuizAttempt(userId: string, moduleId: string, score: nat, now: nat)
      modifies this
      ensures attempts == old(attempts) + [Attempt(AttemptId(userId, moduleId, now), userId, moduleId, score, now)]
      ensures forall u :: TotalScore(attempts, u) == TotalScore(old(attempts), u) + (if u == userId then score else 0)
    {
      var attempt := Attempt(AttemptId(userId, moduleId, now), userId, moduleId, score, now);
      forall u ensures TotalScore(attempts + [attempt], u) == TotalScore(attempts, u) + (if u == userId then score else 0) {
        TotalScoreAfterAppend(attempts, attempt, u);
      }
      attempts := attempts + [attempt];
    }

    function GetProgressByUserId(userId: string): seq<Attempt>
      reads this
    {
      ProgressOf(attempts, userId)
    }

    function GetTotalScoreByUserId(userId: string): nat
      reads this
    {
      TotalScore(attempts, userId)
    }
  }
}
