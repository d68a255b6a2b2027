/** The leaderboard (api/leaderboard.js, app/api/leaderboard/route.ts): one entry per stored
    user with the user's running total, ordered by total, highest first. */
module Leaderboard {
  import opened ProgressStore
  import opened UserStore
  import opened StableSort

  datatype Entry = Entry(userId: string, name: string, score: nat)

  function EntryScore(e: Entry): int {
    e.score
  }

  /** One entry per user, in file order, with the user's total score. */
  function Entries(users: seq<User>, log: seq<Attempt>): (r: seq<Entry>)
    ensures |r| == |users|
    ensures forall i :: 0 <= i < |users| ==> r[i] == Entry(users[i].id, users[i].name, TotalScore(log, users[i].id))
  {
    if users == [] then []
    else [Entry(users[0].id, users[0].name, TotalScore(log, users[0].id))] + Entries(users[1..], log)
  }

  /** The entries sorted by descending score, stably. */
  function Board(users: seq<User>, log: seq<Attempt>): seq<Entry> {
    SortDesc(Entries(users, log), EntryScore)
  }

  /** The board holds exactly the users' entries (as a multiset), highest total first, every
      score is that user's total, and users with equal totals keep their store order. */
  lemma BoardMeaning(users: seq<User>, log: seq<Attempt>)
    ensures var b := Board(users, log);
      |b| == |users| &&
      multiset(b) == multiset(Entries(users, log)) &&
      (forall i, j :: 0 <= i < j < |b| ==> b[i].score >= b[j].score) &&
      (forall e :: e in b ==> e.score == TotalScore(log, e.userId) && exists u :: u in users && u.id == e.userId && u.name == e.name)
  {
    var es := Entries(users, log);
    var b := Board(users, log);
    SortDescSortedPermutation(es, EntryScore);
    forall e | e in b ensures e.score == TotalScore(log, e.userId) && exists u :: u in users && u.id == e.userId && u.name == e.name {
      assert e in multiset(b);
      assert e in es;
      var i :| 0 <= i < |es| && es[i] == e;
      assert users[i] in users;
    }
    forall i, j | 0 <= i < j < |b| ensures b[i].score >= b[j].score {
      assert EntryScore(b[i]) >= EntryScore(b[j]);
    }
  }

  /** Ties keep store order: for every total, the entries with that total appear in the same
      order as in the store. */
  lemma BoardStable(users: seq<User>, log: seq<Attempt>, score: int)
    ensures WithKey(Board(users, log), EntryScore, score) == WithKey(Entries(users, log), EntryScore, score)
  {
    SortDescStable(Entries(users, log), EntryScore, score);
  }
}
