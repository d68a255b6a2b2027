/** The badge rule evaluator (lib/badges.js): from one user, the quiz-attempt log and the
    drill log it decides which badges the user newly earns, and extends the user's list. */
module Badges {
  import opened Wrappers
  import opened Seqs
  import opened ProgressStore
  import opened DrillStore
  import opened UserStore
  import opened Catalogue

  /** The criteria table; only the module, drill, streak and average rules are ever evaluated. */
  datatype Criterion =
    | ModulesRule(count: nat, passed: bool)
    | DrillsRule(count: nat)
    | StreakRule(count: nat)
    | AverageRule(threshold: real)
    | ChatbotRule(count: nat)
    | TopicsRule(topics: seq<string>)

  const BadgeCriteria: map<string, Criterion> := map[
    "module-master-all" := ModulesRule(6, true),
    "drill-champion-5" := DrillsRule(5),
    "drill-champion-10" := DrillsRule(10),
    "drill-champion-25" := DrillsRule(25),
    "streak-star-5" := StreakRule(5),
    "streak-star-10" := StreakRule(10),
    "streak-star-30" := StreakRule(30),
    "top-scorer" := AverageRule(0.9),
    "chatbot-helper-5" := ChatbotRule(5),
    "chatbot-helper-10" := ChatbotRule(10),
    "chatbot-helper-25" := ChatbotRule(25),
    "chatbot-expert-50" := ChatbotRule(50),
    "safety-explorer" := TopicsRule(["earthquake", "flood", "fire", "preparedness"]),
    "punjab-safety-expert" := TopicsRule(["punjab_earthquake", "punjab_flood", "punjab_fire"])
  ]

  const ModuleMaster := "module-master-all"
  const TopScorer := "top-scorer"
  const DrillTiers: seq<string> := ["drill-champion-5", "drill-champion-10", "drill-champion-25"]
  const StreakTiers: seq<string> := ["streak-star-5", "streak-star-10", "streak-star-30"]

  /** The count thresholds of the tier badges, as listed in `BadgeCriteria`. */
  const TierCounts: map<string, nat> := map[
    "drill-champion-5" := 5,
    "drill-champion-10" := 10,
    "drill-champion-25" := 25,
    "streak-star-5" := 5,
    "streak-star-10" := 10,
    "streak-star-30" := 30
  ]

  /** A badge awarded by reaching a count. */
  predicate IsTier(b: string) {
    b in TierCounts
  }

  /** The count a tier badge's criterion asks for. */
  function Threshold(b: string): nat
    requires IsTier(b)
  {
    TierCounts[b]
  }

  /** The tier thresholds are those of the criteria table, drill tiers counting drills and
      streak tiers counting login days. */
  lemma CriteriaAgree()
    ensures forall b :: b in TierCounts ==> b in BadgeCriteria && BadgeCriteria[b].count == TierCounts[b]
  {
    DrillCriteria();
    StreakCriteria();
    forall b | b in TierCounts
      ensures b in BadgeCriteria && BadgeCriteria[b].count == TierCounts[b]
    {
      assert b in DrillTiers || b in StreakTiers;
    }
  }

  lemma DrillCriteria()
    ensures forall b :: b in DrillTiers ==> b in BadgeCriteria && b in TierCounts && BadgeCriteria[b] == DrillsRule(TierCounts[b])
  {
    assert BadgeCriteria["drill-champion-5"] == DrillsRule(5);
    assert BadgeCriteria["drill-champion-10"] == DrillsRule(10);
    assert BadgeCriteria["drill-champion-25"] == DrillsRule(25);
  }

  lemma StreakCriteria()
    ensures forall b :: b in StreakTiers ==> b in BadgeCriteria && b in TierCounts && BadgeCriteria[b] == StreakRule(TierCounts[b])
  {
    assert BadgeCriteria["streak-star-5"] == StreakRule(5);
    assert BadgeCriteria["streak-star-10"] == StreakRule(10);
    assert BadgeCriteria["streak-star-30"] == StreakRule(30);
  }

  lemma TierThresholds()
    ensures forall b :: b in DrillTiers ==> IsTier(b)
    ensures forall b :: b in StreakTiers ==> IsTier(b)
    ensures Threshold("drill-champion-5") == 5 && Threshold("drill-champion-10") == 10 && Threshold("drill-champion-25") == 25
    ensures Threshold("streak-star-5") == 5 && Threshold("streak-star-10") == 10 && Threshold("streak-star-30") == 30
  {
  }

  predicate NoDuplicates(s: seq<string>) {
    forall i, j :: 0 <= i < j < |s| ==> s[i] != s[j]
  }

  // ---------------------------------------------------------------- best scores

  /** One entry of the `scores` object: a module and the user's best score on it. */
  datatype Best = Best(moduleId: string, score: nat)

  function ModuleKey(a: Attempt): string {
    a.moduleId
  }

  function ModuleIds(d: seq<Attempt>): (r: seq<string>)
    ensures |r| == |d|
    ensures forall i :: 0 <= i < |d| ==> r[i] == d[i].moduleId
  {
    seq(|d|, i requires 0 <= i < |d| => d[i].moduleId)
  }

  /** The modules the attempts touch, each once, in the order of their first attempt. This is
      the key order of a JavaScript object filled in that order, as long as no module identifier
      is an integer-like string (those keys would come first, in ascending order). */
  function Attempted(ps: seq<Attempt>): seq<string> {
    ModuleIds(DedupBy(ps, ModuleKey))
  }

  /** The highest score among the attempts on module `m`, or 0 when there is none. */
  function MaxScore(ps: seq<Attempt>, m: string): nat {
    if ps == [] then 0
    else
      var prev := MaxScore(ps[..|ps| - 1], m);
      var last := ps[|ps| - 1];
      if last.moduleId == m && last.score > prev then last.score else prev
  }

  /** The `scores` object `getBestScoresByModule` builds, as a list in key order. */
  function BestScores(ps: seq<Attempt>): (r: seq<Best>)
    ensures |r| == |Attempted(ps)|
    ensures forall i :: 0 <= i < |r| ==> r[i] == Best(Attempted(ps)[i], MaxScore(ps, Attempted(ps)[i]))
  {
    var a := Attempted(ps);
    seq(|a|, i requires 0 <= i < |a| => Best(a[i], MaxScore(ps, a[i])))
  }

  /** `scores[m]`: the first entry for `m`, if any. */
  function IndexOfModule(scores: seq<Best>, m: string): (r: Option<nat>)
    ensures r.Some? ==> r.value < |scores| && scores[r.value].moduleId == m
    ensures r.None? ==> forall j :: 0 <= j < |scores| ==> scores[j].moduleId != m
  {
    if scores == [] then None
    else if scores[0].moduleId == m then Some(0)
    else match IndexOfModule(scores[1..], m)
      case None => None
      case Some(k) => Some(k + 1)
  }

  function Lookup(scores: seq<Best>, m: string): Option<nat> {
    match IndexOfModule(scores, m)
    case Some(k) => Some(scores[k].score)
    case None => None
  }

  /** MaxScore is the maximum: every attempt on `m` is at most it, and when it is positive some attempt reaches it. */
  lemma {:induction false} MaxScoreIsMax(ps: seq<Attempt>, m: string)
    ensures forall i :: 0 <= i < |ps| && ps[i].moduleId == m ==> ps[i].score <= MaxScore(ps, m)
    ensures MaxScore(ps, m) > 0 ==> exists i :: 0 <= i < |ps| && ps[i].moduleId == m && ps[i].score == MaxScore(ps, m)
  {
    if ps != [] {
      var init := ps[..|ps| - 1];
      MaxScoreIsMax(init, m);
      assert forall i :: 0 <= i < |init| ==> ps[i] == init[i];
      if MaxScore(ps, m) > 0 && MaxScore(ps, m) == MaxScore(init, m) {
        var i :| 0 <= i < |init| && init[i].moduleId == m && init[i].score == MaxScore(init, m);
        assert ps[i] == init[i];
      }
    }
  }

  lemma MaxScoreUnattempted(ps: seq<Attempt>, m: string)
    requires m !in KeySet(ps, ModuleKey)
    ensures MaxScore(ps, m) == 0
  {
    MaxScoreIsMax(ps, m);
  }

  lemma InModuleIds(d: seq<Attempt>, m: string)
    ensures m in ModuleIds(d) <==> m in KeySet(d, ModuleKey)
  {
    if m in KeySet(d, ModuleKey) {
      var i :| 0 <= i < |d| && ModuleKey(d[i]) == m;
      assert ModuleIds(d)[i] == m;
    }
  }

  lemma AttemptedDistinct(ps: seq<Attempt>)
    ensures NoDuplicates(Attempted(ps))
    ensures forall m :: m in Attempted(ps) <==> m in KeySet(ps, ModuleKey)
  {
    DedupByKeys(ps, ModuleKey);
    forall m ensures m in Attempted(ps) <==> m in KeySet(ps, ModuleKey) {
      InModuleIds(DedupBy(ps, ModuleKey), m);
    }
  }

  /** One more attempt either raises the entry of its module to the larger score, or,
      for a module not seen before, adds an entry at the end. */
  lemma BestScoresStep(ps: seq<Attempt>, a: Attempt)
    ensures var old_ := BestScores(ps); var new_ := BestScores(ps + [a]);
      match IndexOfModule(old_, a.moduleId)
      case Some(k) => new_ == old_[k := Best(a.moduleId, if a.score > old_[k].score then a.score else old_[k].score)]
      case None => new_ == old_ + [Best(a.moduleId, a.score)]
  {
    var s := ps + [a];
    assert s[..|s| - 1] == ps;
    var prevD := DedupBy(ps, ModuleKey);
    InModuleIds(prevD, a.moduleId);
    AttemptedDistinct(ps);
    var A := Attempted(ps);
    var old_ := BestScores(ps);
    var new_ := BestScores(s);
    forall m | m != a.moduleId ensures MaxScore(s, m) == MaxScore(ps, m) { }
    match IndexOfModule(old_, a.moduleId)
    case Some(k) =>
      assert A[k] == a.moduleId;
      assert Attempted(s) == A;
      forall j | 0 <= j < |A| && j != k ensures A[j] != a.moduleId { }
    case None =>
      assert a.moduleId !in A by {
        forall j | 0 <= j < |A| ensures A[j] != a.moduleId { assert old_[j].moduleId == A[j]; }
      }
      assert Attempted(s) == A + [a.moduleId];
      DedupByKeys(ps, ModuleKey);
      MaxScoreUnattempted(ps, a.moduleId);
  }

  /** `getBestScoresByModule`: one entry per attempted module, in first-attempt order, holding the best score. */
  method GetBestScoresByModule(progress: seq<Attempt>, userId: string) returns (scores: seq<Best>)
    ensures scores == BestScores(ProgressOf(progress, userId))
  {
    var mine := ProgressOf(progress, userId);
    scores := [];
    var i := 0;
    while i < |mine|
      invariant 0 <= i <= |mine|
      invariant scores == BestScores(mine[..i])
    {
      var p := mine[i];
      BestScoresStep(mine[..i], p);
      assert mine[..i + 1] == mine[..i] + [p];
      var k := IndexOfModule(scores, p.moduleId);
      if k.None? {
        scores := scores + [Best(p.moduleId, p.score)];
      } else if scores[k.value].score == 0 || p.score > scores[k.value].score {
        scores := scores[k.value := Best(p.moduleId, p.score)];
      }
      i := i + 1;
    }
    assert mine[..i] == mine;
  }

  /** Each entry is a distinct attempted module with its best score; unattempted modules read as 0. */
  lemma BestScoresMeaning(ps: seq<Attempt>, m: string)
    ensures forall i, j :: 0 <= i < j < |BestScores(ps)| ==> BestScores(ps)[i].moduleId != BestScores(ps)[j].moduleId
    ensures (exists i :: 0 <= i < |ps| && ps[i].moduleId == m) <==> Lookup(BestScores(ps), m).Some?
    ensures Lookup(BestScores(ps), m).GetOr(0) == MaxScore(ps, m)
  {
    AttemptedDistinct(ps);
    var b := BestScores(ps);
    if exists i :: 0 <= i < |ps| && ps[i].moduleId == m {
      var i :| 0 <= i < |ps| && ps[i].moduleId == m;
      assert ModuleKey(ps[i]) in KeySet(ps, ModuleKey);
      var j :| 0 <= j < |Attempted(ps)| && Attempted(ps)[j] == m;
      assert b[j].moduleId == m;
    } else {
      assert m !in KeySet(ps, ModuleKey);
      MaxScoreUnattempted(ps, m);
    }
  }

  function SumBest(b: seq<Best>): nat {
    if b == [] then 0 else SumBest(b[..|b| - 1]) + b[|b| - 1].score
  }

  // ---------------------------------------------------------------- the rules

  /** Half of `n`, rounded up. */
  function CeilHalf(n: nat): nat {
    (n + 1) / 2
  }

  lemma CeilHalfIsCeiling(n: nat)
    ensures 2 * CeilHalf(n) >= n
    ensures CeilHalf(n) == 0 || 2 * (CeilHalf(n) - 1) < n
  {
  }

  /** The question count of the first catalogue module with that identifier. */
  function QuizLength(catalogue: seq<Module>, id: string): nat
    requires FindModule(catalogue, id).Some?
  {
    |FindModule(catalogue, id).value.quiz|
  }

  predicate ModulePassed(catalogue: seq<Module>, best: seq<Best>, i: nat)
    requires i < |catalogue|
  {
    Lookup(best, catalogue[i].id).GetOr(0) >= CeilHalf(QuizLength(catalogue, catalogue[i].id))
  }

  /** Every catalogue module is passed; an empty catalogue passes. */
  predicate AllPassed(catalogue: seq<Module>, best: seq<Best>) {
    forall i :: 0 <= i < |catalogue| ==> ModulePassed(catalogue, best, i)
  }

  /** The average of the best scores, compared with 0.9 exactly. */
  predicate TopScorerQualifies(best: seq<Best>) {
    |best| > 0 && (SumBest(best) as real) / (|best| as real) >= 0.9
  }

  /** The tiers whose count is reached and that the user does not already hold, in table order. */
  function TierAwards(tiers: seq<string>, value: int, held: seq<string>): seq<string>
    requires forall t :: t in tiers ==> IsTier(t)
  {
    if tiers == [] then []
    else
      var last := tiers[|tiers| - 1];
      TierAwards(tiers[..|tiers| - 1], value, held) + (if value >= Threshold(last) && last !in held then [last] else [])
  }

  /** The module rule's contribution. */
  function MasterAward(catalogue: seq<Module>, best: seq<Best>, held: seq<string>): seq<string> {
    if AllPassed(catalogue, best) && ModuleMaster !in held then [ModuleMaster] else []
  }

  /** The average rule's contribution. */
  function TopAward(best: seq<Best>, held: seq<string>): seq<string> {
    if TopScorerQualifies(best) && TopScorer !in held then [TopScorer] else []
  }

  /** The badges `checkAndAwardBadges` returns, rule by rule in evaluation order. */
  function NewBadges(catalogue: seq<Module>, user: User, progress: seq<Attempt>, drills: seq<DrillRecord>): seq<string> {
    TierThresholds();
    var held := HeldBadges(user.badges);
    var best := BestScores(ProgressOf(progress, user.id));
    MasterAward(catalogue, best, held)
    + TierAwards(DrillTiers, TotalDrills(drills, user.id), held)
    + TierAwards(StreakTiers, StreakOrZero(user.loginStreak), held)
    + TopAward(best, held)
  }

  /** The module rule read through the best-score table: each module's best score, 0 when unattempted. */
  lemma AllPassedMeaning(catalogue: seq<Module>, ps: seq<Attempt>)
    ensures AllPassed(catalogue, BestScores(ps)) <==>
      forall i :: 0 <= i < |catalogue| ==> MaxScore(ps, catalogue[i].id) >= CeilHalf(QuizLength(catalogue, catalogue[i].id))
  {
    forall i | 0 <= i < |catalogue|
      ensures ModulePassed(catalogue, BestScores(ps), i) <==> MaxScore(ps, catalogue[i].id) >= CeilHalf(QuizLength(catalogue, catalogue[i].id))
    {
      BestScoresMeaning(ps, catalogue[i].id);
    }
  }

  /** The every-module test; it stops at the first module not passed. */
  method EvaluateAllPassed(catalogue: seq<Module>, bestScores: seq<Best>) returns (allPassed: bool)
    ensures allPassed == AllPassed(catalogue, bestScores)
  {
    allPassed := true;
    var i := 0;
    while i < |catalogue| && allPassed
      invariant 0 <= i <= |catalogue|
      invariant allPassed == forall j :: 0 <= j < i ==> ModulePassed(catalogue, bestScores, j)
    {
      var score := Lookup(bestScores, catalogue[i].id).GetOr(0);
      var quizLength := |FindModule(catalogue, catalogue[i].id).value.quiz|;
      allPassed := score >= (quizLength + 1) / 2;
      assert allPassed == ModulePassed(catalogue, bestScores, i);
      i := i + 1;
    }
  }

  /** One pass over a tier list, awarding each reached tier not yet held. */
  method AwardTiers(tiers: seq<string>, value: int, currentBadges: seq<string>) returns (awarded: seq<string>)
    requires forall t :: t in tiers ==> IsTier(t)
    ensures awarded == TierAwards(tiers, value, currentBadges)
  {
    CriteriaAgree();
    awarded := [];
    var i := 0;
    while i < |tiers|
      invariant 0 <= i <= |tiers|
      invariant awarded == TierAwards(tiers[..i], value, currentBadges)
    {
      var badge := tiers[i];
      assert badge in tiers;
      assert tiers[..i + 1][..i] == tiers[..i];
      if value >= BadgeCriteria[badge].count && badge !in currentBadges {
        awarded := awarded + [badge];
      }
      i := i + 1;
    }
    assert tiers[..i] == tiers;
  }

  /** The sum of the per-module best scores. */
  method SumBestScores(bestScores: seq<Best>) returns (sum: nat)
    ensures sum == SumBest(bestScores)
  {
    sum := 0;
    var i := 0;
    while i < |bestScores|
      invariant 0 <= i <= |bestScores|
      invariant sum == SumBest(bestScores[..i])
    {
      assert bestScores[..i + 1][..i] == bestScores[..i];
      sum := sum + bestScores[i].score;
      i := i + 1;
    }
    assert bestScores[..i] == bestScores;
  }

  /** `checkAndAwardBadges`: returns the new badges and the user with them appended to the held list. */
  method CheckAndAwardBadges(catalogue: seq<Module>, user: User, progress: seq<Attempt>, drills: seq<DrillRecord>)
    returns (newBadges: seq<string>, updated: User)
    requires !user.badges.Encoded?
    ensures newBadges == NewBadges(catalogue, user, progress, drills)
    ensures updated == user.(badges := Listed(HeldBadges(user.badges) + newBadges))
  {
    TierThresholds();
    var currentBadges := HeldBadges(user.badges);

    var bestScores := GetBestScoresByModule(progress, user.id);
    var allPassed := EvaluateAllPassed(catalogue, bestScores);
    var master := [];
    if allPassed && ModuleMaster !in currentBadges {
      master := [ModuleMaster];
    }

    var drillCount := TotalDrills(drills, user.id);
    var drillBadges := AwardTiers(DrillTiers, drillCount, currentBadges);

    var streak := StreakOrZero(user.loginStreak);
    var streakBadges := AwardTiers(StreakTiers, streak, currentBadges);

    var top := [];
    var totalAttempts := |bestScores|;
    if totalAttempts > 0 {
      var sum := SumBestScores(bestScores);
      var average := (sum as real) / (totalAttempts as real);
      if average >= 0.9 && TopScorer !in currentBadges {
        top := [TopScorer];
      }
    }

    newBadges := master + drillBadges + streakBadges + top;
    updated := user.(badges := Listed(currentBadges + newBadges));
  }
}
