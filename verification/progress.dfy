/**
 * The learning-progress document and its update algebra.
 *
 * The document is a three-level nested map: domain -> level -> LevelProgress,
 * where a LevelProgress holds a topic-flag map, a resource-flag map and a manual
 * `completed` flag. Every mutation is an immutable rebuild of the path to one
 * level; a missing domain, level or flag reads as the zero value.
 */
module Progress {

  type TopicProgress = map<string, bool>
  type ResourceProgress = map<string, bool>

  datatype LevelProgress = LevelProgress(topics: TopicProgress, resources: ResourceProgress, completed: bool)

  type DomainProgress = map<string, LevelProgress>
  type ProgressData = map<string, DomainProgress>

  /** The value a missing level reads as. */
  const EmptyLevel := LevelProgress(map[], map[], false)

  /** A stored flag, with a missing key reading as false (`m[k] ?? false`). */
  function Flag(m: map<string, bool>, k: string): (b: bool)
    ensures k !in m ==> !b
    ensures k in m ==> b == m[k]
  {
    k in m && m[k]
  }

  /** The keys whose stored flag is true. */
  function TrueKeys(m: map<string, bool>): (s: set<string>)
    ensures forall k :: k in s <==> Flag(m, k)
  {
    set k | k in m && m[k]
  }

  /** `prev[domain] || {}` */
  function DomainOf(p: ProgressData, domain: string): (dp: DomainProgress)
    ensures domain !in p ==> dp == map[]
    ensures domain in p ==> dp == p[domain]
  {
    if domain in p then p[domain] else map[]
  }

  /** `domainProgress[levelId] || { topics: {}, resources: {}, completed: false }` */
  function LevelOf(dp: DomainProgress, levelId: string): (lp: LevelProgress)
    ensures levelId !in dp ==> lp == LevelProgress(map[], map[], false)
    ensures levelId in dp ==> lp == dp[levelId]
  {
    if levelId in dp then dp[levelId] else EmptyLevel
  }

  /** Read accessor: the stored level, or the zero level when any segment is absent. */
  function GetLevelProgress(p: ProgressData, domain: string, levelId: string): (r: LevelProgress)
    ensures domain in p && levelId in p[domain] ==> r == p[domain][levelId]
    ensures domain !in p || levelId !in p[domain] ==> r == EmptyLevel
  {
    LevelOf(DomainOf(p, domain), levelId)
  }

  /** Read accessor: the stored topic flag, false when any segment is absent. */
  function IsTopicCompleted(p: ProgressData, domain: string, levelId: string, topicId: string): (r: bool)
    ensures r == Flag(GetLevelProgress(p, domain, levelId).topics, topicId)
    ensures r ==> topicId in TrueKeys(GetLevelProgress(p, domain, levelId).topics)
    ensures domain !in p || levelId !in p[domain] || topicId !in p[domain][levelId].topics ==> !r
  {
    if domain !in p then false
    else if levelId !in p[domain] then false
    else
      var topics := p[domain][levelId].topics;
      if topicId in topics then topics[topicId] else false
  }

  /** Every level other than (domain, levelId) reads the same in `r` as in `p`. */
  ghost predicate SameElsewhere(p: ProgressData, r: ProgressData, domain: string, levelId: string)
  {
    forall d, l :: d != domain || l != levelId ==> GetLevelProgress(r, d, l) == GetLevelProgress(p, d, l)
  }

  /** Two levels carry the same set flags and the same `completed` flag. */
  ghost predicate SameFlags(a: LevelProgress, b: LevelProgress)
  {
    && a.completed == b.completed
    && TrueKeys(a.topics) == TrueKeys(b.topics)
    && TrueKeys(a.resources) == TrueKeys(b.resources)
  }

  /**
   * Two documents whose flag readings agree: every topic flag as `isTopicCompleted`
   * reads it, every resource flag and every `completed` flag. As values
   * they may still differ, by explicit `false` entries, stored default levels and
   * empty domains.
   */
  ghost predicate Equivalent(p: ProgressData, q: ProgressData)
  {
    forall d, l :: SameFlags(GetLevelProgress(p, d, l), GetLevelProgress(q, d, l))
  }

  /** The spread rebuild `{...prev, [domain]: {...domainProgress, [levelId]: lp}}`. */
  function PutLevel(p: ProgressData, domain: string, levelId: string, lp: LevelProgress): (r: ProgressData)
    ensures r.Keys == p.Keys + {domain}
    ensures forall d :: d in p && d != domain ==> r[d] == p[d]
    ensures r[domain].Keys == DomainOf(p, domain).Keys + {levelId}
    ensures forall l :: l in DomainOf(p, domain) && l != levelId ==> r[domain][l] == p[domain][l]
    ensures GetLevelProgress(r, domain, levelId) == lp
    ensures SameElsewhere(p, r, domain, levelId)
  {
    p[domain := DomainOf(p, domain)[levelId := lp]]
  }

  /** `{ ...levelProgress, topics: { ...levelProgress.topics, [topicId]: !topicStatus } }` */
  function FlipTopic(lp: LevelProgress, topicId: string): (r: LevelProgress)
    ensures Flag(r.topics, topicId) == !Flag(lp.topics, topicId)
    ensures r.resources == lp.resources && r.completed == lp.completed
  {
    lp.(topics := lp.topics[topicId := !Flag(lp.topics, topicId)])
  }

  /** `{ ...levelProgress, resources: { ...levelProgress.resources, [resourceId]: !resourceStatus } }` */
  function FlipResource(lp: LevelProgress, resourceId: string): (r: LevelProgress)
    ensures Flag(r.resources, resourceId) == !Flag(lp.resources, resourceId)
    ensures r.topics == lp.topics && r.completed == lp.completed
  {
    lp.(resources := lp.resources[resourceId := !Flag(lp.resources, resourceId)])
  }

  /** `{ ...levelProgress, completed: !levelProgress.completed }` */
  function FlipCompleted(lp: LevelProgress): (r: LevelProgress)
    ensures r.completed != lp.completed
    ensures r.topics == lp.topics && r.resources == lp.resources
  {
    lp.(completed := !lp.completed)
  }

  /** Flips one topic flag, creating missing segments with their defaults. */
  function ToggleTopic(p: ProgressData, domain: string, levelId: string, topicId: string): (r: ProgressData)
    ensures domain in r && levelId in r[domain] && topicId in r[domain][levelId].topics
    ensures IsTopicCompleted(r, domain, levelId, topicId) == !IsTopicCompleted(p, domain, levelId, topicId)
    ensures SameElsewhere(p, r, domain, levelId)
    ensures r.Keys == p.Keys + {domain}
    ensures var before, after := GetLevelProgress(p, domain, levelId), GetLevelProgress(r, domain, levelId);
      && after.resources == before.resources
      && after.completed == before.completed
      && after.topics.Keys == before.topics.Keys + {topicId}
      && forall t :: t in before.topics && t != topicId ==> after.topics[t] == before.topics[t]
    ensures levelId !in DomainOf(p, domain) ==>
      r[domain][levelId] == LevelProgress(map[topicId := true], map[], false)
  {
    PutLevel(p, domain, levelId, FlipTopic(LevelOf(DomainOf(p, domain), levelId), topicId))
  }

  /** Flips one resource flag, creating missing segments with their defaults. */
  function ToggleResource(p: ProgressData, domain: string, levelId: string, resourceId: string): (r: ProgressData)
    ensures domain in r && levelId in r[domain] && resourceId in r[domain][levelId].resources
    ensures Flag(GetLevelProgress(r, domain, levelId).resources, resourceId)
         == !Flag(GetLevelProgress(p, domain, levelId).resources, resourceId)
    ensures SameElsewhere(p, r, domain, levelId)
    ensures r.Keys == p.Keys + {domain}
    ensures var before, after := GetLevelProgress(p, domain, levelId), GetLevelProgress(r, domain, levelId);
      && after.topics == before.topics
      && after.completed == before.completed
      && after.resources.Keys == before.resources.Keys + {resourceId}
      && forall x :: x in before.resources && x != resourceId ==> after.resources[x] == before.resources[x]
  {
    PutLevel(p, domain, levelId, FlipResource(LevelOf(DomainOf(p, domain), levelId), resourceId))
  }

  /** Flips the manual `completed` flag of one level; topic flags play no part. */
  function CompleteLevel(p: ProgressData, domain: string, levelId: string): (r: ProgressData)
    ensures domain in r && levelId in r[domain]
    ensures r[domain][levelId].completed == !GetLevelProgress(p, domain, levelId).completed
    ensures SameElsewhere(p, r, domain, levelId)
    ensures r.Keys == p.Keys + {domain}
    ensures var before, after := GetLevelProgress(p, domain, levelId), GetLevelProgress(r, domain, levelId);
      after.topics == before.topics && after.resources == before.resources
  {
    PutLevel(p, domain, levelId, FlipCompleted(LevelOf(DomainOf(p, domain), levelId)))
  }

  /** Writing a flag adds its key to, or removes it from, the set of true keys. */
  lemma TrueKeysUpdate(m: map<string, bool>, k: string, b: bool)
    ensures TrueKeys(m[k := b]) == if b then TrueKeys(m) + {k} else TrueKeys(m) - {k}
  {
  }

  /** Toggling the same topic twice restores every reading of the document. */
  lemma ToggleTopicTwice(p: ProgressData, domain: string, levelId: string, topicId: string)
    ensures Equivalent(ToggleTopic(ToggleTopic(p, domain, levelId, topicId), domain, levelId, topicId), p)
    ensures forall d, l, t :: IsTopicCompleted(ToggleTopic(ToggleTopic(p, domain, levelId, topicId), domain, levelId, topicId), d, l, t)
                           == IsTopicCompleted(p, d, l, t)
  {
    var q := ToggleTopic(p, domain, levelId, topicId);
    var r := ToggleTopic(q, domain, levelId, topicId);
    var before, after := GetLevelProgress(p, domain, levelId), GetLevelProgress(r, domain, levelId);
    assert GetLevelProgress(q, domain, levelId).topics == before.topics[topicId := !Flag(before.topics, topicId)];
    assert after.topics == before.topics[topicId := Flag(before.topics, topicId)];
    TrueKeysUpdate(before.topics, topicId, Flag(before.topics, topicId));
    assert SameFlags(after, before);
  }

  /** Toggling the same resource twice restores every reading of the document. */
  lemma ToggleResourceTwice(p: ProgressData, domain: string, levelId: string, resourceId: string)
    ensures Equivalent(ToggleResource(ToggleResource(p, domain, levelId, resourceId), domain, levelId, resourceId), p)
  {
    var q := ToggleResource(p, domain, levelId, resourceId);
    var r := ToggleResource(q, domain, levelId, resourceId);
    var before, after := GetLevelProgress(p, domain, levelId), GetLevelProgress(r, domain, levelId);
    assert after.resources == before.resources[resourceId := Flag(before.resources, resourceId)];
    TrueKeysUpdate(before.resources, resourceId, Flag(before.resources, resourceId));
    assert SameFlags(after, before);
  }

  /** Completing the same level twice restores every reading of the document. */
  lemma CompleteLevelTwice(p: ProgressData, domain: string, levelId: string)
    ensures Equivalent(CompleteLevel(CompleteLevel(p, domain, levelId), domain, levelId), p)
  {
    var r := CompleteLevel(CompleteLevel(p, domain, levelId), domain, levelId);
    assert SameFlags(GetLevelProgress(r, domain, levelId), GetLevelProgress(p, domain, levelId));
  }

  /** When the topic's key is already stored, two toggles give back the very same document. */
  lemma ToggleTopicTwiceStored(p: ProgressData, domain: string, levelId: string, topicId: string)
    requires domain in p && levelId in p[domain] && topicId in p[domain][levelId].topics
    ensures ToggleTopic(ToggleTopic(p, domain, levelId, topicId), domain, levelId, topicId) == p
  {
    var lp := p[domain][levelId];
    var q: ProgressData := ToggleTopic(p, domain, levelId, topicId);
    assert q[domain][levelId] == lp.(topics := lp.topics[topicId := !lp.topics[topicId]]);
    var r: ProgressData := ToggleTopic(q, domain, levelId, topicId);
    assert r[domain][levelId].topics == lp.topics;
    assert r[domain][levelId] == lp;
    assert r[domain] == p[domain];
  }

  /** When any segment was missing, two toggles leave an explicit `false` behind: the document differs. */
  lemma ToggleTopicTwiceMissing(p: ProgressData, domain: string, levelId: string, topicId: string)
    requires domain !in p || levelId !in p[domain] || topicId !in p[domain][levelId].topics
    ensures var r := ToggleTopic(ToggleTopic(p, domain, levelId, topicId), domain, levelId, topicId);
      r != p && topicId in r[domain][levelId].topics && !r[domain][levelId].topics[topicId]
  {
  }

  /** Writing one level twice keeps only the second write. */
  lemma PutLevelTwice(p: ProgressData, domain: string, levelId: string, x: LevelProgress, y: LevelProgress)
    ensures PutLevel(PutLevel(p, domain, levelId, x), domain, levelId, y) == PutLevel(p, domain, levelId, y)
  {
    var a := PutLevel(PutLevel(p, domain, levelId, x), domain, levelId, y);
    var b := PutLevel(p, domain, levelId, y);
    assert a[domain] == b[domain];
  }

  /** Writes to two different levels commute. */
  lemma PutLevelSwap(p: ProgressData, d1: string, l1: string, x: LevelProgress, d2: string, l2: string, y: LevelProgress)
    requires d1 != d2 || l1 != l2
    ensures PutLevel(PutLevel(p, d1, l1, x), d2, l2, y) == PutLevel(PutLevel(p, d2, l2, y), d1, l1, x)
  {
    var q1, q2 := PutLevel(p, d1, l1, x), PutLevel(p, d2, l2, y);
    if d1 == d2 {
      var dp := DomainOf(p, d1);
      assert DomainOf(q1, d1) == dp[l1 := x];
      assert DomainOf(q2, d1) == dp[l2 := y];
      UpdatesCommute(dp, l1, x, l2, y);
    } else {
      assert DomainOf(q1, d2) == DomainOf(p, d2);
      assert DomainOf(q2, d1) == DomainOf(p, d1);
      UpdatesCommute(p, d1, DomainOf(p, d1)[l1 := x], d2, DomainOf(p, d2)[l2 := y]);
    }
  }

  /** Map updates at two different keys commute. */
  lemma UpdatesCommute<V>(m: map<string, V>, k1: string, v1: V, k2: string, v2: V)
    requires k1 != k2
    ensures m[k1 := v1][k2 := v2] == m[k2 := v2][k1 := v1]
  {
  }

  /** A toggle reads the level it rewrites through the same lookup as `GetLevelProgress`. */
  lemma ToggleTopicIsPut(p: ProgressData, domain: string, levelId: string, topicId: string)
    ensures ToggleTopic(p, domain, levelId, topicId)
         == PutLevel(p, domain, levelId, FlipTopic(GetLevelProgress(p, domain, levelId), topicId))
  {
  }

  /** Toggles of topics in two different levels commute. */
  lemma ToggleTopicCommutesAcrossLevels(p: ProgressData, d1: string, l1: string, t1: string, d2: string, l2: string, t2: string)
    requires d1 != d2 || l1 != l2
    ensures ToggleTopic(ToggleTopic(p, d1, l1, t1), d2, l2, t2) == ToggleTopic(ToggleTopic(p, d2, l2, t2), d1, l1, t1)
  {
    var x1 := FlipTopic(GetLevelProgress(p, d1, l1), t1);
    var x2 := FlipTopic(GetLevelProgress(p, d2, l2), t2);
    var q1 := ToggleTopic(p, d1, l1, t1);
    var q2 := ToggleTopic(p, d2, l2, t2);
    ToggleTopicIsPut(p, d1, l1, t1);
    ToggleTopicIsPut(p, d2, l2, t2);
    ToggleTopicIsPut(q1, d2, l2, t2);
    ToggleTopicIsPut(q2, d1, l1, t1);
    assert GetLevelProgress(q1, d2, l2) == GetLevelProgress(p, d2, l2);
    assert GetLevelProgress(q2, d1, l1) == GetLevelProgress(p, d1, l1);
    PutLevelSwap(p, d1, l1, x1, d2, l2, x2);
  }

  /** Flips of two different topics of one level commute. */
  lemma FlipTopicCommutes(lp: LevelProgress, t1: string, t2: string)
    requires t1 != t2
    ensures FlipTopic(FlipTopic(lp, t1), t2) == FlipTopic(FlipTopic(lp, t2), t1)
  {
    assert FlipTopic(FlipTopic(lp, t1), t2).topics == FlipTopic(FlipTopic(lp, t2), t1).topics;
  }

  /** Two successive toggles in one level rewrite that level once with both flips. */
  lemma ToggleTopicTwiceInLevel(p: ProgressData, domain: string, levelId: string, t1: string, t2: string)
    ensures ToggleTopic(ToggleTopic(p, domain, levelId, t1), domain, levelId, t2)
         == PutLevel(p, domain, levelId, FlipTopic(FlipTopic(GetLevelProgress(p, domain, levelId), t1), t2))
  {
    var x1 := FlipTopic(GetLevelProgress(p, domain, levelId), t1);
    var q1 := PutLevel(p, domain, levelId, x1);
    ToggleTopicIsPut(p, domain, levelId, t1);
    ToggleTopicIsPut(q1, domain, levelId, t2);
    assert GetLevelProgress(q1, domain, levelId) == x1;
    PutLevelTwice(p, domain, levelId, x1, FlipTopic(x1, t2));
  }

  /** Toggles of two different topics of the same level commute. */
  lemma ToggleTopicCommutesWithinLevel(p: ProgressData, domain: string, levelId: string, t1: string, t2: string)
    requires t1 != t2
    ensures ToggleTopic(ToggleTopic(p, domain, levelId, t1), domain, levelId, t2)
         == ToggleTopic(ToggleTopic(p, domain, levelId, t2), domain, levelId, t1)
  {
    ToggleTopicTwiceInLevel(p, domain, levelId, t1, t2);
    ToggleTopicTwiceInLevel(p, domain, levelId, t2, t1);
    FlipTopicCommutes(GetLevelProgress(p, domain, levelId), t1, t2);
  }

  /** A topic toggle, a resource toggle and a level completion never touch each other's fields. */
  lemma MutationsAreIndependent(p: ProgressData, domain: string, levelId: string, topicId: string, resourceId: string)
    ensures ToggleTopic(CompleteLevel(p, domain, levelId), domain, levelId, topicId)
         == CompleteLevel(ToggleTopic(p, domain, levelId, topicId), domain, levelId)
    ensures ToggleResource(ToggleTopic(p, domain, levelId, topicId), domain, levelId, resourceId)
         == ToggleTopic(ToggleResource(p, domain, levelId, resourceId), domain, levelId, topicId)
  {
    var lp := GetLevelProgress(p, domain, levelId);
    PutLevelTwice(p, domain, levelId, FlipCompleted(lp), FlipTopic(FlipCompleted(lp), topicId));
    PutLevelTwice(p, domain, levelId, FlipTopic(lp, topicId), FlipCompleted(FlipTopic(lp, topicId)));
    PutLevelTwice(p, domain, levelId, FlipTopic(lp, topicId), FlipResource(FlipTopic(lp, topicId), resourceId));
    PutLevelTwice(p, domain, levelId, FlipResource(lp, resourceId), FlipTopic(FlipResource(lp, resourceId), topicId));
  }
}
