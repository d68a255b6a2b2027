/** What the badge rules guarantee: which badges come back and why, that they are fresh and
    distinct, and that evaluating again right after awarding them awards nothing. */
module BadgeLaws {
  import opened Wrappers
  import opened ProgressStore
  import opened DrillStore
  import opened UserStore
  import opened Catalogue
  import opened Badges

  lemma {:induction false} TierAwardsMembers(tiers: seq<string>, value: int, held: seq<string>, b: string)
    requires forall t :: t in tiers ==> IsTier(t)
    ensures b in TierAwards(tiers, value, held) <==> b in tiers && value >= Threshold(b) && b !in held
  {
    if tiers != [] {
      var init := tiers[..|tiers| - 1];
      assert tiers == init + [tiers[|tiers| - 1]];
      TierAwardsMembers(init, value, held, b);
    }
  }

  lemma {:induction false} TierAwardsDistinct(tiers: seq<string>, value: int, held: seq<string>)
    requires forall t :: t in tiers ==> IsTier(t)
    requires NoDuplicates(tiers)
    ensures NoDuplicates(TierAwards(tiers, value, held))
  {
    if tiers != [] {
      var init := tiers[..|tiers| - 1];
      var last := tiers[|tiers| - 1];
      assert tiers == init + [last];
      TierAwardsDistinct(init, value, held);
      TierAwardsMembers(init, value, held, last);
      assert last !in init;
    }
  }

  lemma {:induction false} TierAwardsSubset(tiers: seq<string>, value: int, held: seq<string>)
    requires forall t :: t in tiers ==> IsTier(t)
    ensures forall x :: x in TierAwards(tiers, value, held) ==> x in tiers
  {
    if tiers != [] {
      var init := tiers[..|tiers| - 1];
      assert forall t :: t in init ==> t in tiers;
      TierAwardsSubset(init, value, held);
    }
  }

  /** A badge is returned exactly when its rule holds and the user does not hold it yet. */
  lemma NewBadgesMembers(catalogue: seq<Module>, user: User, progress: seq<Attempt>, drills: seq<DrillRecord>, b: string)
    ensures var held := HeldBadges(user.badges);
      var best := BestScores(ProgressOf(progress, user.id));
      b in NewBadges(catalogue, user, progress, drills) <==>
        b !in held &&
        ((b == ModuleMaster && AllPassed(catalogue, best)) ||
         (b in DrillTiers && TotalDrills(drills, user.id) >= Threshold(b)) ||
         (b in StreakTiers && StreakOrZero(user.loginStreak) >= Threshold(b)) ||
         (b == TopScorer && TopScorerQualifies(best)))
  {
    TierThresholds();
    var held := HeldBadges(user.badges);
    TierAwardsMembers(DrillTiers, TotalDrills(drills, user.id), held, b);
    TierAwardsMembers(StreakTiers, StreakOrZero(user.loginStreak), held, b);
  }

  /** The returned badges are not already held. */
  lemma NewBadgesFresh(catalogue: seq<Module>, user: User, progress: seq<Attempt>, drills: seq<DrillRecord>)
    ensures forall b :: b in NewBadges(catalogue, user, progress, drills) ==> b !in HeldBadges(user.badges)
  {
    forall b | b in NewBadges(catalogue, user, progress, drills) ensures b !in HeldBadges(user.badges) {
      NewBadgesMembers(catalogue, user, progress, drills, b);
    }
  }

  lemma BadgeNamesDisjoint()
    ensures NoDuplicates(DrillTiers) && NoDuplicates(StreakTiers)
    ensures forall x :: x in DrillTiers ==> x !in StreakTiers && x != ModuleMaster && x != TopScorer
    ensures forall x :: x in StreakTiers ==> x != ModuleMaster && x != TopScorer
    ensures ModuleMaster != TopScorer
  {
  }

  /** Four segments drawn from pairwise disjoint name sets, each without repeats, concatenate without repeats. */
  lemma DistinctSegments(m: seq<string>, d: seq<string>, s: seq<string>, t: seq<string>)
    requires |m| <= 1 && |t| <= 1
    requires forall x :: x in m ==> x == ModuleMaster
    requires forall x :: x in t ==> x == TopScorer
    requires forall x :: x in d ==> x in DrillTiers
    requires forall x :: x in s ==> x in StreakTiers
    requires NoDuplicates(d) && NoDuplicates(s)
    ensures NoDuplicates(m + d + s + t)
  {
    BadgeNamesDisjoint();
    DistinctConcat(m, d);
    DistinctConcat(m + d, s);
    DistinctConcat(m + d + s, t);
  }

  /** The returned badges contain no repeats. */
  lemma NewBadgesDistinct(catalogue: seq<Module>, user: User, progress: seq<Attempt>, drills: seq<DrillRecord>)
    ensures NoDuplicates(NewBadges(catalogue, user, progress, drills))
  {
    TierThresholds();
    BadgeNamesDisjoint();
    var held := HeldBadges(user.badges);
    var best := BestScores(ProgressOf(progress, user.id));
    var drillCount := TotalDrills(drills, user.id);
    var streak := StreakOrZero(user.loginStreak);
    var d := TierAwards(DrillTiers, drillCount, held);
    var s := TierAwards(StreakTiers, streak, held);
    TierAwardsDistinct(DrillTiers, drillCount, held);
    TierAwardsDistinct(StreakTiers, streak, held);
    TierAwardsSubset(DrillTiers, drillCount, held);
    TierAwardsSubset(StreakTiers, streak, held);
    DistinctSegments(MasterAward(catalogue, best, held), d, s, TopAward(best, held));
  }

  lemma DistinctConcat(a: seq<string>, b: seq<string>)
    requires NoDuplicates(a) && NoDuplicates(b)
    requires forall x :: x in a ==> x !in b
    ensures NoDuplicates(a + b)
  {
    var c := a + b;
    forall i, j | 0 <= i < j < |c| ensures c[i] != c[j] {
      if i < |a| && j >= |a| {
        assert c[i] in a && c[j] == b[j - |a|];
      }
    }
  }

  /** Evaluating again with the updated badge list, and nothing else changed, awards nothing. */
  lemma ReevaluationAwardsNothing(catalogue: seq<Module>, user: User, progress: seq<Attempt>, drills: seq<DrillRecord>)
    ensures var updated := user.(badges := Listed(HeldBadges(user.badges) + NewBadges(catalogue, user, progress, drills)));
      NewBadges(catalogue, updated, progress, drills) == []
  {
    var nb := NewBadges(catalogue, user, progress, drills);
    var updated := user.(badges := Listed(HeldBadges(user.badges) + nb));
    var again := NewBadges(catalogue, updated, progress, drills);
    if again != [] {
      var b := again[0];
      NewBadgesMembers(catalogue, updated, progress, drills, b);
      NewBadgesMembers(catalogue, user, progress, drills, b);
    }
  }

  /** `module-master-all` comes back exactly when every catalogue module's best score reaches
      half its question count rounded up, an unattempted module counting as 0. */
  lemma ModuleMasterIff(catalogue: seq<Module>, user: User, progress: seq<Attempt>, drills: seq<DrillRecord>)
    ensures ModuleMaster in NewBadges(catalogue, user, progress, drills) <==>
      ModuleMaster !in HeldBadges(user.badges) &&
      forall i :: 0 <= i < |catalogue| ==>
        MaxScore(ProgressOf(progress, user.id), catalogue[i].id) >= CeilHalf(QuizLength(catalogue, catalogue[i].id))
  {
    AllPassedMeaning(catalogue, ProgressOf(progress, user.id));
    NewBadgesMembers(catalogue, user, progress, drills, ModuleMaster);
  }

  /** With an empty catalogue every module is passed vacuously. */
  lemma EmptyCatalogueAwardsModuleMaster(user: User, progress: seq<Attempt>, drills: seq<DrillRecord>)
    requires ModuleMaster !in HeldBadges(user.badges)
    ensures ModuleMaster in NewBadges([], user, progress, drills)
  {
    NewBadgesMembers([], user, progress, drills, ModuleMaster);
  }

  /** The 0.9 average test in whole numbers: ten times the sum reaches nine times the count. */
  lemma TopScorerIntegerForm(best: seq<Best>)
    ensures TopScorerQualifies(best) <==> |best| > 0 && 10 * SumBest(best) >= 9 * |best|
  {
    if |best| > 0 {
      var s := SumBest(best) as real;
      var n := |best| as real;
      assert (s / n) * n == s;
      if s / n >= 0.9 {
        assert s >= 0.9 * n;
      } else {
        assert s < 0.9 * n;
      }
    }
  }

  /** `top-scorer` comes back exactly when the user attempted something and the mean of their
      per-module best scores is at least 0.9 (raw scores, not fractions of the quiz length). */
  lemma TopScorerIff(catalogue: seq<Module>, user: User, progress: seq<Attempt>, drills: seq<DrillRecord>)
    ensures var best := BestScores(ProgressOf(progress, user.id));
      TopScorer in NewBadges(catalogue, user, progress, drills) <==>
        TopScorer !in HeldBadges(user.badges) && |best| > 0 && 10 * SumBest(best) >= 9 * |best|
  {
    NewBadgesMembers(catalogue, user, progress, drills, TopScorer);
    TopScorerIntegerForm(BestScores(ProgressOf(progress, user.id)));
  }

  /** A 30-day streak with no badges held earns all three streak tiers; a 4-day streak earns none. */
  lemma StreakExamples(catalogue: seq<Module>, user: User, progress: seq<Attempt>, drills: seq<DrillRecord>)
    requires user.badges == Listed([])
    ensures user.loginStreak == Some(30) ==>
      forall b :: b in StreakTiers ==> b in NewBadges(catalogue, user, progress, drills)
    ensures user.loginStreak == Some(4) ==>
      forall b :: b in StreakTiers ==> b !in NewBadges(catalogue, user, progress, drills)
  {
    TierThresholds();
    forall b | b in StreakTiers
      ensures user.loginStreak == Some(30) ==> b in NewBadges(catalogue, user, progress, drills)
      ensures user.loginStreak == Some(4) ==> b !in NewBadges(catalogue, user, progress, drills)
    {
      NewBadgesMembers(catalogue, user, progress, drills, b);
    }
  }

  lemma {:induction false} TierAwardsAppend(ts: seq<string>, us: seq<string>, value: int, held: seq<string>)
    requires forall t :: t in ts + us ==> IsTier(t)
    ensures TierAwards(ts + us, value, held) == TierAwards(ts, value, held) + TierAwards(us, value, held)
  {
    if us == [] {
      assert ts + us == ts;
    } else {
      var init := us[..|us| - 1];
      assert (ts + us)[..|ts + us| - 1] == ts + init;
      TierAwardsAppend(ts, init, value, held);
    }
  }

  /** Every tier reached and none held: all of them, in table order. */
  lemma {:induction false} TierAwardsAllReached(tiers: seq<string>, value: int, held: seq<string>)
    requires forall t :: t in tiers ==> IsTier(t) && Threshold(t) <= value && t !in held
    ensures TierAwards(tiers, value, held) == tiers
  {
    if tiers != [] {
      var init := tiers[..|tiers| - 1];
      assert forall t :: t in init ==> t in tiers;
      TierAwardsAllReached(init, value, held);
      assert tiers == init + [tiers[|tiers| - 1]];
    }
  }

  /** No tier reached: nothing. */
  lemma {:induction false} TierAwardsNoneReached(tiers: seq<string>, value: int, held: seq<string>)
    requires forall t :: t in tiers ==> IsTier(t) && value < Threshold(t)
    ensures TierAwards(tiers, value, held) == []
  {
    if tiers != [] {
      var init := tiers[..|tiers| - 1];
      assert forall t :: t in init ==> t in tiers;
      TierAwardsNoneReached(init, value, held);
    }
  }

  /** All qualifying tiers come in one call, lowest first: exactly five drills give only the
      first drill tier. */
  lemma DrillTierExample()
    ensures TierAwards(DrillTiers, 5, []) == ["drill-champion-5"]
  {
    TierThresholds();
    var first, rest := DrillTiers[..1], DrillTiers[1..];
    assert DrillTiers == first + rest;
    TierAwardsAppend(first, rest, 5, []);
    TierAwardsAllReached(first, 5, []);
    TierAwardsNoneReached(rest, 5, []);
  }

  /** A 30-day streak gives all three streak tiers, in table order. */
  lemma StreakTierExample()
    ensures TierAwards(StreakTiers, 30, []) == StreakTiers
  {
    TierThresholds();
    TierAwardsAllReached(StreakTiers, 30, []);
  }
}
