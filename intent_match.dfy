/** The chat page's local intent matcher: every intent is scored by how many of its
    patterns occur in the message, and the first intent with the highest positive score wins. */
module IntentMatch {
  import opened Wrappers
  import opened Text

  datatype Intent = Intent(tag: string, patterns: seq<string>, responses: seq<string>)

  /** The number of patterns whose lower-case form occurs in `msg` (already lower-cased);
      a pattern listed twice counts twice. */
  function Score(patterns: seq<string>, msg: string): nat
  {
    if patterns == [] then 0
    else
      Score(patterns[..|patterns| - 1], msg)
      + (if Contains(msg, Lower(patterns[|patterns| - 1])) then 1 else 0)
  }

  function IntentScore(intent: Intent, msg: string): nat {
    Score(intent.patterns, msg)
  }

  /** The score is at most the number of patterns, zero exactly when no pattern occurs,
      and equal to the number of patterns exactly when every one occurs. */
  lemma {:induction false} ScoreBounds(patterns: seq<string>, msg: string)
    ensures Score(patterns, msg) <= |patterns|
    ensures Score(patterns, msg) == 0 <==>
              forall i :: 0 <= i < |patterns| ==> !Contains(msg, Lower(patterns[i]))
    ensures Score(patterns, msg) == |patterns| <==>
              forall i :: 0 <= i < |patterns| ==> Contains(msg, Lower(patterns[i]))
  {
    if patterns != [] {
      var init := patterns[..|patterns| - 1];
      ScoreBounds(init, msg);
      assert forall i :: 0 <= i < |init| ==> init[i] == patterns[i];
    }
  }

  /** Scores add up over concatenated pattern lists, so duplicate patterns are each counted. */
  lemma {:induction false} ScoreAppend(ps: seq<string>, qs: seq<string>, msg: string)
    ensures Score(ps + qs, msg) == Score(ps, msg) + Score(qs, msg)
  {
    if qs != [] {
      var init := qs[..|qs| - 1];
      ScoreAppend(ps, init, msg);
      assert (ps + qs)[..|ps + qs| - 1] == ps + init;
    } else {
      assert ps + qs == ps;
    }
  }

  lemma DuplicatesCountTwice(ps: seq<string>, msg: string)
    ensures Score(ps + ps, msg) == 2 * Score(ps, msg)
  {
    ScoreAppend(ps, ps, msg);
  }

  /** The score of the intent at index `r`, or 0 when there is none. */
  function ScoreAt(intents: seq<Intent>, r: Option<nat>, msg: string): nat {
    if r.Some? && r.value < |intents| then IntentScore(intents[r.value], msg) else 0
  }

  /** The index that the scan keeps: a later intent replaces the kept one only with a
      strictly greater score, starting from score 0. */
  function Best(intents: seq<Intent>, msg: string): (r: Option<nat>)
    ensures r.Some? ==> r.value < |intents|
  {
    if intents == [] then None
    else
      var prev := Best(intents[..|intents| - 1], msg);
      if IntentScore(intents[|intents| - 1], msg) > ScoreAt(intents, prev, msg)
      then Some(|intents| - 1)
      else prev
  }

  /** No intent is chosen exactly when every intent scores 0 (in particular when there are
      none); otherwise the chosen intent has a positive score, no intent scores more, and
      every earlier intent scores strictly less, so ties go to the earliest. */
  lemma {:induction false} BestIsEarliestMaximum(intents: seq<Intent>, msg: string)
    ensures Best(intents, msg).None? <==>
              forall i :: 0 <= i < |intents| ==> IntentScore(intents[i], msg) == 0
    ensures Best(intents, msg).Some? ==>
              var k := Best(intents, msg).value;
              && IntentScore(intents[k], msg) > 0
              && (forall i :: 0 <= i < |intents| ==>
                    IntentScore(intents[i], msg) <= IntentScore(intents[k], msg))
              && (forall i :: 0 <= i < k ==>
                    IntentScore(intents[i], msg) < IntentScore(intents[k], msg))
  {
    if intents != [] {
      var init := intents[..|intents| - 1];
      BestIsEarliestMaximum(init, msg);
      assert forall i :: 0 <= i < |init| ==> init[i] == intents[i];
    }
  }

  lemma ScoreStep(patterns: seq<string>, j: nat, msg: string)
    requires j < |patterns|
    ensures Score(patterns[..j + 1], msg)
            == Score(patterns[..j], msg) + (if Contains(msg, Lower(patterns[j])) then 1 else 0)
  {
    assert patterns[..j + 1][..j] == patterns[..j];
  }

  lemma BestStep(intents: seq<Intent>, i: nat, msg: string)
    requires i < |intents|
    ensures var prev := Best(intents[..i], msg);
            Best(intents[..i + 1], msg)
            == if IntentScore(intents[i], msg) > ScoreAt(intents, prev, msg) then Some(i) else prev
  {
    var p := intents[..i + 1];
    assert p[..i] == intents[..i];
    var prev := Best(intents[..i], msg);
    assert ScoreAt(p, prev, msg) == ScoreAt(intents, prev, msg);
  }

  function Chosen(intents: seq<Intent>, r: Option<nat>): Option<Intent> {
    if r.Some? && r.value < |intents| then Some(intents[r.value]) else None
  }

  /** The intent for `userMessage`: the message and each pattern are lower-cased, each
      intent's matching patterns are counted, and an intent is kept when its count beats
      the best so far. */
  method FindBestIntent(intents: seq<Intent>, userMessage: string) returns (best: Option<Intent>)
    ensures best == Chosen(intents, Best(intents, Lower(userMessage)))
  {
    var lowerMessage := Lower(userMessage);
    best := None;
    var bestScore := 0;
    ghost var bestIndex: Option<nat> := None;
    var i := 0;
    while i < |intents|
      invariant 0 <= i <= |intents|
      invariant bestIndex == Best(intents[..i], lowerMessage)
      invariant bestScore == ScoreAt(intents, bestIndex, lowerMessage)
      invariant best == Chosen(intents, bestIndex)
    {
      var intent := intents[i];
      var score := 0;
      var j := 0;
      while j < |intent.patterns|
        invariant 0 <= j <= |intent.patterns|
        invariant score == Score(intent.patterns[..j], lowerMessage)
      {
        ScoreStep(intent.patterns, j, lowerMessage);
        if Contains(lowerMessage, Lower(intent.patterns[j])) {
          score := score + 1;
        }
        j := j + 1;
      }
      assert intent.patterns[..j] == intent.patterns;
      BestStep(intents, i, lowerMessage);
      if score > bestScore {
        bestScore := score;
        best := Some(intent);
        bestIndex := Some(i);
      }
      i := i + 1;
    }
    assert intents[..i] == intents;
  }
}
