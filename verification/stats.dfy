/**
 * Completion statistics derived from a progress document and a domain's
 * externally supplied level/topic structure.
 *
 * The sums are left folds over the level list (as `reduce` computes them):
 * each function peels off the LAST element.
 */
module Stats {
  import opened Progress

  /** A level as the roadmap content describes it: an id and its ordered topic ids. */
  datatype LevelSpec = LevelSpec(id: string, topics: seq<string>)

  /** A domain descriptor handed to the global aggregation. */
  datatype DomainSpec = DomainSpec(id: string, allLevels: seq<LevelSpec>)

  datatype DomainStats = DomainStats(
    completedLevels: nat,
    totalLevels: nat,
    totalTopics: nat,
    completedTopics: nat,
    progressPercent: real)

  /** `total > 0 ? (completed / total) * 100 : 0` */
  function Percent(completed: nat, total: nat): (r: real)
    ensures total == 0 ==> r == 0.0
    ensures total > 0 ==> r * (total as real) == (completed as real) * 100.0
    ensures 0.0 <= r
    ensures completed <= total ==> r <= 100.0
  {
    if total > 0 then (completed as real / total as real) * 100.0 else 0.0
  }

  /** The set of ids in a sequence. */
  function SetOf(s: seq<string>): (r: set<string>)
    ensures forall x :: x in r <==> x in s
  {
    set x | x in s
  }

  /** `allLevels.reduce((sum, level) => sum + level.topics.length, 0)` */
  function TotalTopics(levels: seq<LevelSpec>): (n: nat)
    ensures (forall i :: 0 <= i < |levels| ==> levels[i].topics == []) ==> n == 0
  {
    if |levels| == 0 then 0
    else TotalTopics(levels[..|levels| - 1]) + |levels[|levels| - 1].topics|
  }

  /** `domainProgress[level.id]?.topics || {}` */
  function LevelTopics(dp: DomainProgress, levelId: string): (m: TopicProgress)
    ensures levelId !in dp ==> m == map[]
    ensures levelId in dp ==> m == dp[levelId].topics
  {
    LevelOf(dp, levelId).topics
  }

  /** `Object.values(levelTopics).filter(Boolean).length` */
  function CountTrue(m: TopicProgress): (n: nat)
    ensures (forall k :: k in m ==> !m[k]) ==> n == 0
  {
    assert (forall k :: k in m ==> !m[k]) ==> TrueKeys(m) == {};
    |TrueKeys(m)|
  }

  /** Sum over the listed levels of the number of stored `true` topic flags. */
  function CompletedTopics(dp: DomainProgress, levels: seq<LevelSpec>): (n: nat)
    ensures (forall i :: 0 <= i < |levels| ==> levels[i].id !in dp) ==> n == 0
  {
    if |levels| == 0 then 0
    else CompletedTopics(dp, levels[..|levels| - 1]) + CountTrue(LevelTopics(dp, levels[|levels| - 1].id))
  }

  /** `allLevels.filter(level => domainProgress[level.id]?.completed === true).length` */
  function CompletedLevels(dp: DomainProgress, levels: seq<LevelSpec>): (n: nat)
    ensures n <= |levels|
    ensures (forall i :: 0 <= i < |levels| ==> levels[i].id !in dp) ==> n == 0
  {
    if |levels| == 0 then 0
    else CompletedLevels(dp, levels[..|levels| - 1]) + (if LevelOf(dp, levels[|levels| - 1].id).completed then 1 else 0)
  }

  /** How many listed levels carry the id `levelId`. */
  function Occurrences(levels: seq<LevelSpec>, levelId: string): (n: nat)
    ensures n <= |levels|
  {
    if |levels| == 0 then 0
    else Occurrences(levels[..|levels| - 1], levelId) + (if levels[|levels| - 1].id == levelId then 1 else 0)
  }

  /** A level id has a listing exactly when some listed level carries it. */
  lemma {:induction false} OccurrencesPositive(levels: seq<LevelSpec>, levelId: string)
    ensures Occurrences(levels, levelId) > 0 <==> exists i :: 0 <= i < |levels| && levels[i].id == levelId
  {
    if |levels| > 0 {
      var init := levels[..|levels| - 1];
      OccurrencesPositive(init, levelId);
      if Occurrences(init, levelId) > 0 {
        var i :| 0 <= i < |init| && init[i].id == levelId;
        assert levels[i].id == levelId;
      }
      if exists i :: 0 <= i < |levels| && levels[i].id == levelId {
        var i :| 0 <= i < |levels| && levels[i].id == levelId;
        if i < |init| {
          assert init[i].id == levelId;
        }
      }
    }
  }

  /** The per-domain statistics. */
  function GetDomainStats(p: ProgressData, domain: string, levels: seq<LevelSpec>): (r: DomainStats)
    ensures r.totalLevels == |levels|
    ensures r.completedLevels <= r.totalLevels
    ensures r.totalTopics == 0 ==> r.progressPercent == 0.0
    ensures r.totalTopics > 0 ==> r.progressPercent * (r.totalTopics as real) == (r.completedTopics as real) * 100.0
    ensures 0.0 <= r.progressPercent
    ensures (forall i :: 0 <= i < |levels| ==> levels[i].topics == []) ==> r.totalTopics == 0 && r.progressPercent == 0.0
    ensures domain !in p ==> r.completedTopics == 0 && r.completedLevels == 0 && r.progressPercent == 0.0
  {
    var dp := DomainOf(p, domain);
    var totalTopics := TotalTopics(levels);
    var completedTopics := CompletedTopics(dp, levels);
    DomainStats(
      CompletedLevels(dp, levels),
      |levels|,
      totalTopics,
      completedTopics,
      Percent(completedTopics, totalTopics))
  }

  lemma {:induction false} SetOfBound(s: seq<string>)
    ensures |SetOf(s)| <= |s|
  {
    if |s| > 0 {
      var init := s[..|s| - 1];
      assert s == init + [s[|s| - 1]];
      assert SetOf(s) == SetOf(init) + {s[|s| - 1]};
      SetOfBound(init);
    }
  }

  lemma {:induction false} SubsetBound(a: set<string>, b: set<string>)
    requires a <= b
    ensures |a| <= |b|
  {
    if a != {} {
      var x :| x in a;
      SubsetBound(a - {x}, b - {x});
    }
  }

  /** The topic total of two level lists is the sum of their totals. */
  lemma {:induction false} TotalTopicsAppend(a: seq<LevelSpec>, b: seq<LevelSpec>)
    ensures TotalTopics(a + b) == TotalTopics(a) + TotalTopics(b)
  {
    if b == [] {
      assert a + b == a;
    } else {
      assert (a + b)[..|a + b| - 1] == a + b[..|b| - 1];
      TotalTopicsAppend(a, b[..|b| - 1]);
    }
  }

  /** The completed-topic count of two level lists is the sum of their counts. */
  lemma {:induction false} CompletedTopicsAppend(dp: DomainProgress, a: seq<LevelSpec>, b: seq<LevelSpec>)
    ensures CompletedTopics(dp, a + b) == CompletedTopics(dp, a) + CompletedTopics(dp, b)
  {
    if b == [] {
      assert a + b == a;
    } else {
      assert (a + b)[..|a + b| - 1] == a + b[..|b| - 1];
      CompletedTopicsAppend(dp, a, b[..|b| - 1]);
    }
  }

  /** The completed-level count of two level lists is the sum of their counts. */
  lemma {:induction false} CompletedLevelsAppend(dp: DomainProgress, a: seq<LevelSpec>, b: seq<LevelSpec>)
    ensures CompletedLevels(dp, a + b) == CompletedLevels(dp, a) + CompletedLevels(dp, b)
  {
    if b == [] {
      assert a + b == a;
    } else {
      assert (a + b)[..|a + b| - 1] == a + b[..|b| - 1];
      CompletedLevelsAppend(dp, a, b[..|b| - 1]);
    }
  }

  /**
   * A listed level that is absent from the stored domain contributes nothing to
   * the completed counts, wherever it stands in the list; it still adds its topics
   * to the total.
   */
  lemma MissingLevelContributesNothing(dp: DomainProgress, a: seq<LevelSpec>, level: LevelSpec, b: seq<LevelSpec>)
    requires level.id !in dp
    ensures CompletedTopics(dp, a + [level] + b) == CompletedTopics(dp, a + b)
    ensures CompletedLevels(dp, a + [level] + b) == CompletedLevels(dp, a + b)
    ensures TotalTopics(a + [level] + b) == TotalTopics(a + b) + |level.topics|
  {
    assert [level][..0] == [];
    CompletedTopicsAppend(dp, a + [level], b);
    CompletedTopicsAppend(dp, a, [level]);
    CompletedTopicsAppend(dp, a, b);
    CompletedLevelsAppend(dp, a + [level], b);
    CompletedLevelsAppend(dp, a, [level]);
    CompletedLevelsAppend(dp, a, b);
    TotalTopicsAppend(a + [level], b);
    TotalTopicsAppend(a, [level]);
    TotalTopicsAppend(a, b);
  }

  /**
   * When every stored `true` topic of a listed level is one of that level's listed
   * topics, no more topics are completed than listed.
   */
  lemma {:induction false} CompletedTopicsBounded(dp: DomainProgress, levels: seq<LevelSpec>)
    requires forall i :: 0 <= i < |levels| ==> TrueKeys(LevelTopics(dp, levels[i].id)) <= SetOf(levels[i].topics)
    ensures CompletedTopics(dp, levels) <= TotalTopics(levels)
  {
    if |levels| > 0 {
      var last := levels[|levels| - 1];
      CompletedTopicsBounded(dp, levels[..|levels| - 1]);
      SubsetBound(TrueKeys(LevelTopics(dp, last.id)), SetOf(last.topics));
      SetOfBound(last.topics);
    }
  }

  /** Under the same condition the percentage lies between 0 and 100. */
  lemma DomainPercentBounded(p: ProgressData, domain: string, levels: seq<LevelSpec>)
    requires forall i :: 0 <= i < |levels| ==> TrueKeys(LevelTopics(DomainOf(p, domain), levels[i].id)) <= SetOf(levels[i].topics)
    ensures GetDomainStats(p, domain, levels).completedTopics <= GetDomainStats(p, domain, levels).totalTopics
    ensures 0.0 <= GetDomainStats(p, domain, levels).progressPercent <= 100.0
  {
    CompletedTopicsBounded(DomainOf(p, domain), levels);
  }

  /**
   * Stored flags for topic ids that are not listed are still counted: completed
   * topics can exceed the listed total, and the percentage can exceed 100; a level
   * listing no topics still contributes its stored flags, while the percentage stays 0.
   */
  lemma UnlistedFlagsAreCounted()
    ensures var p := map["d" := map["L" := LevelProgress(map["a" := true, "x" := true], map[], false)]];
      var s := GetDomainStats(p, "d", [LevelSpec("L", ["a"])]);
      s.totalTopics == 1 && s.completedTopics == 2 && s.progressPercent == 200.0
    ensures var p := map["d" := map["L" := LevelProgress(map["a" := true, "x" := true], map[], false)]];
      var s := GetDomainStats(p, "d", [LevelSpec("L", [])]);
      s.totalTopics == 0 && s.completedTopics == 2 && s.progressPercent == 0.0
  {
    var topics := map["a" := true, "x" := true];
    assert TrueKeys(topics) == {"a", "x"};
    var p := map["d" := map["L" := LevelProgress(topics, map[], false)]];
    OneLevelCounts(DomainOf(p, "d"), LevelSpec("L", ["a"]));
    OneLevelCounts(DomainOf(p, "d"), LevelSpec("L", []));
  }

  /** Completed-topic counts depend only on the set of true flags of each level. */
  lemma {:induction false} CompletedTopicsCongruent(dp1: DomainProgress, dp2: DomainProgress, levels: seq<LevelSpec>)
    requires forall id :: TrueKeys(LevelTopics(dp1, id)) == TrueKeys(LevelTopics(dp2, id))
    ensures CompletedTopics(dp1, levels) == CompletedTopics(dp2, levels)
  {
    if |levels| > 0 {
      CompletedTopicsCongruent(dp1, dp2, levels[..|levels| - 1]);
      assert TrueKeys(LevelTopics(dp1, levels[|levels| - 1].id)) == TrueKeys(LevelTopics(dp2, levels[|levels| - 1].id));
    }
  }

  /** Completed-level counts depend only on each level's `completed` flag. */
  lemma {:induction false} CompletedLevelsCongruent(dp1: DomainProgress, dp2: DomainProgress, levels: seq<LevelSpec>)
    requires forall id :: LevelOf(dp1, id).completed == LevelOf(dp2, id).completed
    ensures CompletedLevels(dp1, levels) == CompletedLevels(dp2, levels)
  {
    if |levels| > 0 {
      CompletedLevelsCongruent(dp1, dp2, levels[..|levels| - 1]);
      assert LevelOf(dp1, levels[|levels| - 1].id).completed == LevelOf(dp2, levels[|levels| - 1].id).completed;
    }
  }

  /** Documents whose flag readings agree yield identical statistics. */
  lemma StatsRespectEquivalence(p: ProgressData, q: ProgressData, domain: string, levels: seq<LevelSpec>)
    requires Equivalent(p, q)
    ensures GetDomainStats(p, domain, levels) == GetDomainStats(q, domain, levels)
  {
    forall id ensures TrueKeys(LevelTopics(DomainOf(p, domain), id)) == TrueKeys(LevelTopics(DomainOf(q, domain), id))
                   && LevelOf(DomainOf(p, domain), id).completed == LevelOf(DomainOf(q, domain), id).completed
    {
      assert SameFlags(GetLevelProgress(p, domain, id), GetLevelProgress(q, domain, id));
    }
    CompletedTopicsCongruent(DomainOf(p, domain), DomainOf(q, domain), levels);
    CompletedLevelsCongruent(DomainOf(p, domain), DomainOf(q, domain), levels);
  }

  /** No more flags are true than are stored. */
  lemma CountTrueBound(m: TopicProgress)
    ensures CountTrue(m) <= |m|
  {
    SubsetBound(TrueKeys(m), m.Keys);
  }

  /** Flipping one flag moves the number of true flags by exactly one. */
  lemma CountTrueFlip(m: TopicProgress, k: string)
    ensures CountTrue(m[k := !Flag(m, k)]) == if Flag(m, k) then CountTrue(m) - 1 else CountTrue(m) + 1
  {
    TrueKeysUpdate(m, k, !Flag(m, k));
  }

  /** The completed-topic sum after changing one level's topic count by `delta`. */
  lemma {:induction false} CompletedTopicsShift(dp1: DomainProgress, dp2: DomainProgress, levels: seq<LevelSpec>, levelId: string, delta: int)
    requires forall id :: id != levelId ==> CountTrue(LevelTopics(dp2, id)) == CountTrue(LevelTopics(dp1, id))
    requires CountTrue(LevelTopics(dp2, levelId)) == CountTrue(LevelTopics(dp1, levelId)) + delta
    ensures CompletedTopics(dp2, levels) == CompletedTopics(dp1, levels) + Occurrences(levels, levelId) * delta
  {
    if |levels| > 0 {
      var init, last := levels[..|levels| - 1], levels[|levels| - 1];
      CompletedTopicsShift(dp1, dp2, init, levelId, delta);
      var k := Occurrences(init, levelId);
      if last.id == levelId {
        assert (k + 1) * delta == k * delta + delta;
      } else {
        assert CountTrue(LevelTopics(dp2, last.id)) == CountTrue(LevelTopics(dp1, last.id));
      }
    }
  }

  /** Completed-level count after changing one level's `completed` flag. */
  lemma {:induction false} CompletedLevelsShift(dp1: DomainProgress, dp2: DomainProgress, levels: seq<LevelSpec>, levelId: string)
    requires forall id :: id != levelId ==> LevelOf(dp2, id).completed == LevelOf(dp1, id).completed
    requires LevelOf(dp2, levelId).completed == !LevelOf(dp1, levelId).completed
    ensures CompletedLevels(dp2, levels) == CompletedLevels(dp1, levels)
      + Occurrences(levels, levelId) * (if LevelOf(dp1, levelId).completed then -1 else 1)
  {
    if |levels| > 0 {
      CompletedLevelsShift(dp1, dp2, levels[..|levels| - 1], levelId);
    }
  }

  /**
   * A topic toggle leaves every count but `completedTopics` alone, and moves that one
   * by one per listing of the toggled level, in the direction of the flip.
   */
  lemma ToggleTopicStats(p: ProgressData, d: string, l: string, t: string, domain: string, levels: seq<LevelSpec>)
    ensures var before, after := GetDomainStats(p, domain, levels), GetDomainStats(ToggleTopic(p, d, l, t), domain, levels);
      && after.totalTopics == before.totalTopics
      && after.completedLevels == before.completedLevels
      && (domain != d ==> after == before)
      && (domain == d ==>
            after.completedTopics == before.completedTopics + Occurrences(levels, l) * (if IsTopicCompleted(p, d, l, t) then -1 else 1))
  {
    var r := ToggleTopic(p, d, l, t);
    var dp1, dp2 := DomainOf(p, domain), DomainOf(r, domain);
    forall id | domain != d || id != l
      ensures LevelOf(dp2, id) == LevelOf(dp1, id)
    {
      assert GetLevelProgress(r, domain, id) == GetLevelProgress(p, domain, id);
    }
    forall id ensures LevelOf(dp2, id).completed == LevelOf(dp1, id).completed {
      assert GetLevelProgress(r, domain, id).completed == GetLevelProgress(p, domain, id).completed;
    }
    CompletedLevelsCongruent(dp1, dp2, levels);
    if domain == d {
      var before := LevelTopics(dp1, l);
      assert LevelTopics(dp2, l) == before[t := !Flag(before, t)];
      CountTrueFlip(before, t);
      CompletedTopicsShift(dp1, dp2, levels, l, if IsTopicCompleted(p, d, l, t) then -1 else 1);
    } else {
      CompletedTopicsCongruent(dp1, dp2, levels);
    }
  }

  /**
   * Completing a level never changes topic counts: `completed` is independent of
   * the topic flags. It moves `completedLevels` by one per listing of the level.
   */
  lemma CompleteLevelStats(p: ProgressData, d: string, l: string, domain: string, levels: seq<LevelSpec>)
    ensures var before, after := GetDomainStats(p, domain, levels), GetDomainStats(CompleteLevel(p, d, l), domain, levels);
      && after.totalTopics == before.totalTopics
      && after.completedTopics == before.completedTopics
      && after.progressPercent == before.progressPercent
      && (domain != d ==> after == before)
      && (domain == d ==>
            after.completedLevels == before.completedLevels + Occurrences(levels, l) * (if GetLevelProgress(p, d, l).completed then -1 else 1))
  {
    var r := CompleteLevel(p, d, l);
    var dp1, dp2 := DomainOf(p, domain), DomainOf(r, domain);
    forall id ensures LevelTopics(dp2, id) == LevelTopics(dp1, id) {
      assert GetLevelProgress(r, domain, id).topics == GetLevelProgress(p, domain, id).topics;
    }
    CompletedTopicsCongruent(dp1, dp2, levels);
    forall id | domain != d || id != l
      ensures LevelOf(dp2, id).completed == LevelOf(dp1, id).completed
    {
      assert GetLevelProgress(r, domain, id) == GetLevelProgress(p, domain, id);
    }
    if domain == d {
      CompletedLevelsShift(dp1, dp2, levels, l);
    } else {
      CompletedLevelsCongruent(dp1, dp2, levels);
    }
  }

  /** Resource flags feed no statistic. */
  lemma ToggleResourceStats(p: ProgressData, d: string, l: string, x: string, domain: string, levels: seq<LevelSpec>)
    ensures GetDomainStats(ToggleResource(p, d, l, x), domain, levels) == GetDomainStats(p, domain, levels)
  {
    var r := ToggleResource(p, d, l, x);
    var dp1, dp2 := DomainOf(p, domain), DomainOf(r, domain);
    forall id ensures LevelTopics(dp2, id) == LevelTopics(dp1, id) && LevelOf(dp2, id).completed == LevelOf(dp1, id).completed {
      assert GetLevelProgress(r, domain, id).topics == GetLevelProgress(p, domain, id).topics;
      assert GetLevelProgress(r, domain, id).completed == GetLevelProgress(p, domain, id).completed;
    }
    CompletedTopicsCongruent(dp1, dp2, levels);
    CompletedLevelsCongruent(dp1, dp2, levels);
  }

  /** Sum of `completedTopics` over the domains, in list order. */
  function SumCompleted(p: ProgressData, domains: seq<DomainSpec>): (n: nat)
    ensures (forall i :: 0 <= i < |domains| ==> domains[i].id !in p) ==> n == 0
  {
    if |domains| == 0 then 0
    else
      var last := domains[|domains| - 1];
      SumCompleted(p, domains[..|domains| - 1]) + GetDomainStats(p, last.id, last.allLevels).completedTopics
  }

  /** Sum of `totalTopics` over the domains, in list order. */
  function SumTotal(p: ProgressData, domains: seq<DomainSpec>): (n: nat)
    ensures (forall i :: 0 <= i < |domains| ==> domains[i].allLevels == []) ==> n == 0
  {
    if |domains| == 0 then 0
    else
      var last := domains[|domains| - 1];
      SumTotal(p, domains[..|domains| - 1]) + GetDomainStats(p, last.id, last.allLevels).totalTopics
  }

  /** The global sums over two domain lists are the sums of their sums. */
  lemma {:induction false} SumsAppend(p: ProgressData, a: seq<DomainSpec>, b: seq<DomainSpec>)
    ensures SumCompleted(p, a + b) == SumCompleted(p, a) + SumCompleted(p, b)
    ensures SumTotal(p, a + b) == SumTotal(p, a) + SumTotal(p, b)
  {
    if b == [] {
      assert a + b == a;
    } else {
      assert (a + b)[..|a + b| - 1] == a + b[..|b| - 1];
      SumsAppend(p, a, b[..|b| - 1]);
    }
  }

  /** The global percentage: one division of the summed counts (a weighted ratio). */
  method GetGlobalProgress(p: ProgressData, allDomains: seq<DomainSpec>) returns (percent: real)
    ensures percent == Percent(SumCompleted(p, allDomains), SumTotal(p, allDomains))
    ensures SumTotal(p, allDomains) == 0 ==> percent == 0.0
  {
    var totalCompleted: nat := 0;
    var totalCount: nat := 0;
    for i := 0 to |allDomains|
      invariant totalCompleted == SumCompleted(p, allDomains[..i])
      invariant totalCount == SumTotal(p, allDomains[..i])
    {
      assert allDomains[..i + 1][..i] == allDomains[..i];
      var stats := GetDomainStats(p, allDomains[i].id, allDomains[i].allLevels);
      totalCompleted := totalCompleted + stats.completedTopics;
      totalCount := totalCount + stats.totalTopics;
    }
    assert allDomains[..|allDomains|] == allDomains;
    percent := if totalCount > 0 then (totalCompleted as real / totalCount as real) * 100.0 else 0.0;
  }

  /** The summed totals depend only on the roadmap structure, never on the progress document. */
  lemma {:induction false} SumTotalIgnoresProgress(p: ProgressData, q: ProgressData, domains: seq<DomainSpec>)
    ensures SumTotal(p, domains) == SumTotal(q, domains)
  {
    if |domains| > 0 {
      SumTotalIgnoresProgress(p, q, domains[..|domains| - 1]);
    }
  }

  /** When every domain completes no more topics than it lists, the global figure is at most 100. */
  lemma {:induction false} GlobalBounded(p: ProgressData, domains: seq<DomainSpec>)
    requires forall i :: 0 <= i < |domains| ==>
      GetDomainStats(p, domains[i].id, domains[i].allLevels).completedTopics
        <= GetDomainStats(p, domains[i].id, domains[i].allLevels).totalTopics
    ensures SumCompleted(p, domains) <= SumTotal(p, domains)
    ensures Percent(SumCompleted(p, domains), SumTotal(p, domains)) <= 100.0
  {
    if |domains| > 0 {
      GlobalBounded(p, domains[..|domains| - 1]);
    }
  }

  /** A single domain's global figure is its own percentage. */
  lemma GlobalOfOneDomain(p: ProgressData, domain: DomainSpec)
    ensures Percent(SumCompleted(p, [domain]), SumTotal(p, [domain]))
         == GetDomainStats(p, domain.id, domain.allLevels).progressPercent
  {
    assert [domain][..0] == [];
  }

  /**
   * Two levels, [t1, t2] and [t3]: after toggling t1 and t3, two of three topics are
   * done, and no level counts as completed although the second one has all its
   * topics done, until that level is completed explicitly.
   */
  lemma TwoLevelScenario()
    ensures var levels := [LevelSpec("L1", ["t1", "t2"]), LevelSpec("L2", ["t3"])];
      var p := ToggleTopic(ToggleTopic(map[], "d", "L1", "t1"), "d", "L2", "t3");
      && GetDomainStats(p, "d", levels) == DomainStats(0, 2, 3, 2, 200.0 / 3.0)
      && GetDomainStats(CompleteLevel(p, "d", "L2"), "d", levels).completedLevels == 1
  {
    var levels := [LevelSpec("L1", ["t1", "t2"]), LevelSpec("L2", ["t3"])];
    var p := ToggleTopic(ToggleTopic(map[], "d", "L1", "t1"), "d", "L2", "t3");
    var q := CompleteLevel(p, "d", "L2");
    TwoLevelDocuments();
    TwoLevelCounts(p["d"], q["d"], levels);
  }

  /** The two documents of that scenario, written out. */
  lemma TwoLevelDocuments()
    ensures var l1 := LevelProgress(map["t1" := true], map[], false);
      var l2 := LevelProgress(map["t3" := true], map[], false);
      var p := ToggleTopic(ToggleTopic(map[], "d", "L1", "t1"), "d", "L2", "t3");
      && p == map["d" := map["L1" := l1, "L2" := l2]]
      && CompleteLevel(p, "d", "L2") == map["d" := map["L1" := l1, "L2" := l2.(completed := true)]]
  {
    var l1 := LevelProgress(map["t1" := true], map[], false);
    var l2 := LevelProgress(map["t3" := true], map[], false);
    var p1 := ToggleTopic(map[], "d", "L1", "t1");
    assert p1 == map["d" := map["L1" := l1]];
    SecondToggle(p1);
    Completion(ToggleTopic(p1, "d", "L2", "t3"));
  }

  lemma SecondToggle(p1: ProgressData)
    requires p1 == map["d" := map["L1" := LevelProgress(map["t1" := true], map[], false)]]
    ensures ToggleTopic(p1, "d", "L2", "t3")
         == map["d" := map["L1" := LevelProgress(map["t1" := true], map[], false), "L2" := LevelProgress(map["t3" := true], map[], false)]]
  {
    var l1 := LevelProgress(map["t1" := true], map[], false);
    var l2 := LevelProgress(map["t3" := true], map[], false);
    assert "L1" != "L2" by { assert "L1"[1] != "L2"[1]; }
    var p := ToggleTopic(p1, "d", "L2", "t3");
    assert p["d"]["L2"] == l2;
    assert p["d"] == map["L1" := l1, "L2" := l2];
  }

  lemma Completion(p: ProgressData)
    requires p == map["d" := map["L1" := LevelProgress(map["t1" := true], map[], false), "L2" := LevelProgress(map["t3" := true], map[], false)]]
    ensures CompleteLevel(p, "d", "L2")
         == map["d" := map["L1" := LevelProgress(map["t1" := true], map[], false), "L2" := LevelProgress(map["t3" := true], map[], true)]]
  {
    var l1 := LevelProgress(map["t1" := true], map[], false);
    var l2 := LevelProgress(map["t3" := true], map[], false);
    var q := CompleteLevel(p, "d", "L2");
    assert q["d"]["L2"] == l2.(completed := true);
    assert q["d"] == map["L1" := l1, "L2" := l2.(completed := true)];
  }

  lemma TwoLevelCounts(dp: DomainProgress, dq: DomainProgress, levels: seq<LevelSpec>)
    requires levels == [LevelSpec("L1", ["t1", "t2"]), LevelSpec("L2", ["t3"])]
    requires dp == map["L1" := LevelProgress(map["t1" := true], map[], false), "L2" := LevelProgress(map["t3" := true], map[], false)]
    requires dq == dp["L2" := LevelProgress(map["t3" := true], map[], true)]
    ensures CompletedTopics(dp, levels) == 2 && TotalTopics(levels) == 3
    ensures CompletedLevels(dp, levels) == 0 && CompletedLevels(dq, levels) == 1
  {
    assert levels[..1] == [levels[0]] && levels[..1][..0] == [];
    assert TrueKeys(map["t1" := true]) == {"t1"};
    assert TrueKeys(map["t3" := true]) == {"t3"};
    assert CompletedTopics(dp, levels[..1]) == 1;
    assert CompletedLevels(dq, levels[..1]) == 0;
  }

  /** The sums over a two-domain list are the two domains' counts added. */
  lemma SumsOfTwo(p: ProgressData, a: DomainSpec, b: DomainSpec)
    ensures SumCompleted(p, [a, b]) == GetDomainStats(p, a.id, a.allLevels).completedTopics + GetDomainStats(p, b.id, b.allLevels).completedTopics
    ensures SumTotal(p, [a, b]) == GetDomainStats(p, a.id, a.allLevels).totalTopics + GetDomainStats(p, b.id, b.allLevels).totalTopics
  {
    assert [a, b][..1] == [a] && [a][..0] == [];
    assert SumCompleted(p, [a]) == GetDomainStats(p, a.id, a.allLevels).completedTopics;
    assert SumTotal(p, [a]) == GetDomainStats(p, a.id, a.allLevels).totalTopics;
  }

  /** The counts of a domain listing a single level. */
  lemma OneLevelCounts(dp: DomainProgress, level: LevelSpec)
    ensures CompletedTopics(dp, [level]) == CountTrue(LevelTopics(dp, level.id))
    ensures TotalTopics([level]) == |level.topics|
    ensures CompletedLevels(dp, [level]) == if LevelOf(dp, level.id).completed then 1 else 0
  {
    assert [level][..0] == [];
  }

  /**
   * Domain A has 1 of 1 topic done, domain B 0 of 9: the global figure is 10, not
   * the 50 that averaging the two domain percentages would give.
   */
  lemma GlobalWeightingScenario()
    ensures var a := DomainSpec("A", [LevelSpec("a1", ["x"])]);
      var b := DomainSpec("B", [LevelSpec("b1", ["y1", "y2", "y3", "y4", "y5", "y6", "y7", "y8", "y9"])]);
      var p := ToggleTopic(map[], "A", "a1", "x");
      && GetDomainStats(p, "A", a.allLevels).progressPercent == 100.0
      && GetDomainStats(p, "B", b.allLevels).progressPercent == 0.0
      && Percent(SumCompleted(p, [a, b]), SumTotal(p, [a, b])) == 10.0
  {
    var a := DomainSpec("A", [LevelSpec("a1", ["x"])]);
    var b := DomainSpec("B", [LevelSpec("b1", ["y1", "y2", "y3", "y4", "y5", "y6", "y7", "y8", "y9"])]);
    var p := ToggleTopic(map[], "A", "a1", "x");
    assert p == map["A" := map["a1" := LevelProgress(map["x" := true], map[], false)]];
    WeightingCounts(p, a, b);
  }

  lemma WeightingCounts(p: ProgressData, a: DomainSpec, b: DomainSpec)
    requires p == map["A" := map["a1" := LevelProgress(map["x" := true], map[], false)]]
    requires a == DomainSpec("A", [LevelSpec("a1", ["x"])])
    requires b == DomainSpec("B", [LevelSpec("b1", ["y1", "y2", "y3", "y4", "y5", "y6", "y7", "y8", "y9"])])
    ensures GetDomainStats(p, a.id, a.allLevels).completedTopics == 1
    ensures GetDomainStats(p, a.id, a.allLevels).totalTopics == 1
    ensures GetDomainStats(p, b.id, b.allLevels).completedTopics == 0
    ensures GetDomainStats(p, b.id, b.allLevels).totalTopics == 9
    ensures SumCompleted(p, [a, b]) == 1 && SumTotal(p, [a, b]) == 10
  {
    assert "A" != "B" by { assert "A"[0] != "B"[0]; }
    assert TrueKeys(map["x" := true]) == {"x"};
    OneLevelCounts(DomainOf(p, "A"), a.allLevels[0]);
    OneLevelCounts(DomainOf(p, "B"), b.allLevels[0]);
    SumsOfTwo(p, a, b);
  }
}
