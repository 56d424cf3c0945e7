/**
 * The two ways the backend turns stance records into a distribution.
 *
 * Explicit-only counting (`calculate_status_distribution`) counts every
 * record once, so `total` is the number of records. Implicit-neutral
 * counting (`calculate_status_distribution_with_neutrals`) starts every
 * entity of the jurisdiction in `neutral`, collapses the records to one
 * status per entity (the last one wins) and moves each entity whose status
 * is not neutral into its own bucket, so `total` is the number of entities.
 */
module Aggregation {
  import opened PyJson
  import opened Models

  /** The three fields of an `EntityStatusRecord` the counting reads. */
  datatype StatusRecord = StatusRecord(entityId: Value, projectId: Value, status: Value)

  function Statuses(rs: seq<StatusRecord>): (r: seq<Value>)
    ensures |r| == |rs|
    decreases |rs|
  {
    if |rs| == 0 then [] else Statuses(rs[..|rs| - 1]) + [rs[|rs| - 1].status]
  }

  /** How many of `vals` fall into bucket `b`. */
  function Occurrences(vals: seq<Value>, b: Bucket): (n: nat)
    ensures n <= |vals|
    decreases |vals|
  {
    if |vals| == 0 then 0
    else Occurrences(vals[..|vals| - 1], b) + (if Classify(vals[|vals| - 1]) == b then 1 else 0)
  }

  lemma OccurrencesSnoc(vals: seq<Value>, v: Value, b: Bucket)
    ensures Occurrences(vals + [v], b) == Occurrences(vals, b) + (if Classify(v) == b then 1 else 0)
  {
    assert (vals + [v])[..|vals|] == vals;
  }

  /** The set of entity ids the records mention. */
  function EntityIds(rs: seq<StatusRecord>): set<Value> {
    set i | 0 <= i < |rs| :: rs[i].entityId
  }

  // ---------------------------------------------------------------------
  // Explicit-only counting

  /** `calculate_status_distribution`: one increment per record, no deduplication. */
  function CountExplicit(rs: seq<StatusRecord>): (d: Dist)
    ensures d.total == |rs|
    ensures BucketSum(d) == d.total
    ensures |rs| == 0 ==> d == ZeroDist
    decreases |rs|
  {
    if |rs| == 0 then ZeroDist
    else
      var d := CountExplicit(rs[..|rs| - 1]);
      AddTo(d, Classify(rs[|rs| - 1].status), 1).(total := d.total + 1)
  }

  /**
   * Every bucket, `neutral` included, holds exactly the number of records
   * whose status falls into it; values outside the five statuses land in
   * `unknown`.
   */
  lemma {:induction false} CountExplicitCountsEachBucket(rs: seq<StatusRecord>)
    ensures forall b :: Count(CountExplicit(rs), b) == Occurrences(Statuses(rs), b)
  {
    forall b
      ensures Count(CountExplicit(rs), b) == Occurrences(Statuses(rs), b)
    {
      CountExplicitBucket(rs, b);
    }
  }

  lemma {:induction false} CountExplicitBucket(rs: seq<StatusRecord>, b: Bucket)
    ensures Count(CountExplicit(rs), b) == Occurrences(Statuses(rs), b)
    decreases |rs|
  {
    if |rs| > 0 {
      var p := rs[..|rs| - 1];
      var r := rs[|rs| - 1];
      CountExplicitBucket(p, b);
      CountExplicitStep(rs, b);
      StatusesSnoc(rs, b);
    }
  }

  lemma StatusesSnoc(rs: seq<StatusRecord>, b: Bucket)
    requires |rs| > 0
    ensures Occurrences(Statuses(rs), b)
         == Occurrences(Statuses(rs[..|rs| - 1]), b) + (if Classify(rs[|rs| - 1].status) == b then 1 else 0)
  {
    assert Statuses(rs) == Statuses(rs[..|rs| - 1]) + [rs[|rs| - 1].status];
    OccurrencesSnoc(Statuses(rs[..|rs| - 1]), rs[|rs| - 1].status, b);
  }

  lemma CountExplicitStep(rs: seq<StatusRecord>, b: Bucket)
    requires |rs| > 0
    ensures Count(CountExplicit(rs), b)
         == Count(CountExplicit(rs[..|rs| - 1]), b) + (if Classify(rs[|rs| - 1].status) == b then 1 else 0)
  {
    var d := CountExplicit(rs[..|rs| - 1]);
    var e := AddTo(d, Classify(rs[|rs| - 1].status), 1);
    AddToCount(d, Classify(rs[|rs| - 1].status), 1, b);
    assert CountExplicit(rs) == e.(total := d.total + 1);
    assert Count(e.(total := d.total + 1), b) == Count(e, b);
  }

  /** A record for an entity that already has one is counted again. */
  lemma ExplicitCountsRepeatedEntity(rs: seq<StatusRecord>, r: StatusRecord)
    requires r.entityId in EntityIds(rs)
    ensures CountExplicit(rs + [r]).total == CountExplicit(rs).total + 1
    ensures Count(CountExplicit(rs + [r]), Classify(r.status)) == Count(CountExplicit(rs), Classify(r.status)) + 1
  {
    assert (rs + [r])[..|rs|] == rs;
  }

  // ---------------------------------------------------------------------
  // Implicit-neutral counting

  /**
   * The dict `{r.entity_id: r.status for r in records}`: its keys in
   * first-insertion order and its mapping.
   */
  datatype StatusByEntity = StatusByEntity(order: seq<Value>, m: map<Value, Value>)

  predicate Distinct(s: seq<Value>) {
    forall i, j :: 0 <= i < j < |s| ==> s[i] != s[j]
  }

  ghost predicate WellFormed(p: StatusByEntity) {
    Distinct(p.order) && (forall e :: e in p.m <==> e in p.order)
  }

  function Collapse(rs: seq<StatusRecord>): (p: StatusByEntity)
    ensures WellFormed(p)
    ensures p.m.Keys == EntityIds(rs)
    decreases |rs|
  {
    if |rs| == 0 then StatusByEntity([], map[])
    else
      var q := Collapse(rs[..|rs| - 1]);
      var r := rs[|rs| - 1];
      assert EntityIds(rs) == EntityIds(rs[..|rs| - 1]) + {r.entityId} by {
        forall e | e in EntityIds(rs)
          ensures e in EntityIds(rs[..|rs| - 1]) + {r.entityId}
        {
          var i :| 0 <= i < |rs| && rs[i].entityId == e;
          if i < |rs| - 1 {
            assert rs[..|rs| - 1][i] == rs[i];
          }
        }
      }
      StatusByEntity(if r.entityId in q.m then q.order else q.order + [r.entityId], q.m[r.entityId := r.status])
  }

  /** The status an entity ends up with is that of its last record. */
  lemma {:induction false} CollapseLastRecordWins(rs: seq<StatusRecord>, i: nat)
    requires i < |rs|
    requires forall j :: i < j < |rs| ==> rs[j].entityId != rs[i].entityId
    ensures rs[i].entityId in Collapse(rs).m
    ensures Collapse(rs).m[rs[i].entityId] == rs[i].status
    decreases |rs|
  {
    if i < |rs| - 1 {
      var p := rs[..|rs| - 1];
      assert p[i] == rs[i];
      CollapseLastRecordWins(p, i);
    }
  }

  /** The dict's values in iteration order. */
  function ValuesInOrder(order: seq<Value>, m: map<Value, Value>): (r: seq<Value>)
    requires forall e :: e in order ==> e in m
    ensures |r| == |order|
    decreases |order|
  {
    if |order| == 0 then [] else ValuesInOrder(order[..|order| - 1], m) + [m[order[|order| - 1]]]
  }

  function DictValues(p: StatusByEntity): seq<Value>
    requires WellFormed(p)
  {
    ValuesInOrder(p.order, p.m)
  }

  /** One iteration of the loop over the collapsed statuses. */
  function Step(d: Dist, status: Value): (r: Dist)
    ensures r.total == d.total && BucketSum(r) == BucketSum(d)
  {
    var b := Classify(status);
    if b == BNeutral then d else AddTo(AddTo(d, BNeutral, -1), b, 1)
  }

  /** How one iteration moves the counter of bucket `c`. */
  function StepDelta(status: Value, c: Bucket): int {
    var b := Classify(status);
    if b == BNeutral then 0
    else (if c == b then 1 else 0) - (if c == BNeutral then 1 else 0)
  }

  lemma StepCount(d: Dist, status: Value, c: Bucket)
    ensures Count(Step(d, status), c) == Count(d, c) + StepDelta(status, c)
  {
    var b := Classify(status);
    if b != BNeutral {
      AddToCount(d, BNeutral, -1, c);
      AddToCount(AddTo(d, BNeutral, -1), b, 1, c);
    }
  }

  function ApplyStatuses(d: Dist, vals: seq<Value>): (r: Dist)
    ensures r.total == d.total && BucketSum(r) == BucketSum(d)
    decreases |vals|
  {
    if |vals| == 0 then d else Step(ApplyStatuses(d, vals[..|vals| - 1]), vals[|vals| - 1])
  }

  /** The starting point: every one of the `n` entities is neutral. */
  function AllNeutral(n: int): Dist {
    Dist(0, 0, n, 0, 0, 0, n)
  }

  /** `calculate_status_distribution_with_neutrals(records, n)`. */
  function WithNeutrals(rs: seq<StatusRecord>, n: int): (d: Dist)
    ensures d.total == n
    ensures BucketSum(d) == n
  {
    ApplyStatuses(AllNeutral(n), DictValues(Collapse(rs)))
  }

  /** Without records every entity stays neutral. */
  lemma WithNeutralsOfNoRecords(n: int)
    ensures WithNeutrals([], n) == AllNeutral(n)
  {
    assert Collapse([]).order == [];
  }

  /** The distinct entities whose collapsed status falls into bucket `b`. */
  function EntitiesIn(m: map<Value, Value>, b: Bucket): set<Value> {
    set e | e in m && Classify(m[e]) == b
  }

  function NonNeutralEntities(m: map<Value, Value>): set<Value> {
    set e | e in m && Classify(m[e]) != BNeutral
  }

  lemma {:induction false} ApplyStatusesCounts(d: Dist, vals: seq<Value>)
    ensures forall b :: b != BNeutral ==> Count(ApplyStatuses(d, vals), b) == Count(d, b) + Occurrences(vals, b)
    ensures Count(ApplyStatuses(d, vals), BNeutral) == Count(d, BNeutral) - (|vals| - Occurrences(vals, BNeutral))
    decreases |vals|
  {
    if |vals| > 0 {
      var p := vals[..|vals| - 1];
      var v := vals[|vals| - 1];
      assert vals == p + [v];
      ApplyStatusesCounts(d, p);
      forall b
        ensures Occurrences(vals, b) == Occurrences(p, b) + (if Classify(v) == b then 1 else 0)
        ensures Count(ApplyStatuses(d, vals), b) == Count(ApplyStatuses(d, p), b) + StepDelta(v, b)
      {
        OccurrencesSnoc(p, v, b);
        StepCount(ApplyStatuses(d, p), v, b);
      }
    }
  }

  /** The entities listed in `order` whose status in `m` falls into bucket `b`. */
  function ListedIn(order: seq<Value>, m: map<Value, Value>, b: Bucket): set<Value> {
    set e | e in order && e in m && Classify(m[e]) == b
  }

  lemma ListedInSnoc(p: seq<Value>, k: Value, m: map<Value, Value>, b: Bucket)
    requires k !in p
    requires k in m
    ensures |ListedIn(p + [k], m, b)| == |ListedIn(p, m, b)| + (if Classify(m[k]) == b then 1 else 0)
  {
    var before := ListedIn(p, m, b);
    var after := ListedIn(p + [k], m, b);
    assert k !in before;
    forall e
      ensures e in after <==> e in before || (e == k && Classify(m[k]) == b)
    {
      assert e in p + [k] <==> e in p || e == k;
    }
    if Classify(m[k]) == b {
      assert after == before + {k};
    } else {
      assert after == before;
    }
  }

  lemma ValuesInOrderSnoc(p: seq<Value>, k: Value, m: map<Value, Value>)
    requires forall e :: e in p + [k] ==> e in m
    ensures ValuesInOrder(p + [k], m) == ValuesInOrder(p, m) + [m[k]]
  {
    assert (p + [k])[..|p|] == p;
  }

  lemma {:induction false} DistinctOrderCounts(order: seq<Value>, m: map<Value, Value>, b: Bucket)
    requires Distinct(order)
    requires forall e :: e in order ==> e in m
    ensures Occurrences(ValuesInOrder(order, m), b) == |ListedIn(order, m, b)|
    decreases |order|
  {
    if |order| > 0 {
      var p := order[..|order| - 1];
      var k := order[|order| - 1];
      assert order == p + [k];
      assert Distinct(p);
      assert k !in p by {
        forall i | 0 <= i < |p|
          ensures p[i] != k
        {
          assert p[i] == order[i];
        }
      }
      DistinctOrderCounts(p, m, b);
      ValuesInOrderSnoc(p, k, m);
      OccurrencesSnoc(ValuesInOrder(p, m), m[k], b);
      ListedInSnoc(p, k, m, b);
    }
  }

  lemma {:induction false} DistinctLength(s: seq<Value>)
    requires Distinct(s)
    ensures |set e | e in s| == |s|
    decreases |s|
  {
    if |s| > 0 {
      var p := s[..|s| - 1];
      var x := s[|s| - 1];
      assert s == p + [x];
      assert Distinct(p) by {
        forall i, j | 0 <= i < j < |p|
          ensures p[i] != p[j]
        {
          assert p[i] == s[i] && p[j] == s[j];
        }
      }
      DistinctLength(p);
      var a := set e | e in p;
      assert x !in a by {
        forall i | 0 <= i < |p|
          ensures p[i] != x
        {
          assert p[i] == s[i];
        }
      }
      assert (set e | e in s) == a + {x};
    }
  }

  lemma SubsetCardinality(a: set<Value>, b: set<Value>)
    requires a <= b
    ensures |a| <= |b|
  {
    assert b == a + (b - a);
  }

  /**
   * The meaning of implicit-neutral counting: each non-neutral bucket holds
   * the number of distinct entities whose last status falls into it, and
   * `neutral` holds `n` less the number of distinct entities with a
   * non-neutral last status.
   */
  lemma WithNeutralsCounts(rs: seq<StatusRecord>, n: int)
    ensures forall b :: b != BNeutral ==> Count(WithNeutrals(rs, n), b) == |EntitiesIn(Collapse(rs).m, b)|
    ensures Count(WithNeutrals(rs, n), BNeutral) == n - |NonNeutralEntities(Collapse(rs).m)|
  {
    var p := Collapse(rs);
    ApplyStatusesCounts(AllNeutral(n), DictValues(p));
    forall b
      ensures Occurrences(DictValues(p), b) == |EntitiesIn(p.m, b)|
    {
      CollapsedOccurrences(p, b);
    }
    CollapsedNonNeutral(p);
  }

  /** Each bucket occurs among the collapsed values once per entity whose last status falls into it. */
  lemma CollapsedOccurrences(p: StatusByEntity, b: Bucket)
    requires WellFormed(p)
    ensures Occurrences(DictValues(p), b) == |EntitiesIn(p.m, b)|
  {
    DistinctOrderCounts(p.order, p.m, b);
    assert ListedIn(p.order, p.m, b) == EntitiesIn(p.m, b);
  }

  /** The collapsed values outside the neutral bucket are one per entity with a non-neutral last status. */
  lemma CollapsedNonNeutral(p: StatusByEntity)
    requires WellFormed(p)
    ensures |DictValues(p)| - Occurrences(DictValues(p), BNeutral) == |NonNeutralEntities(p.m)|
  {
    CollapsedOccurrences(p, BNeutral);
    DistinctLength(p.order);
    assert (set e | e in p.order) == p.m.Keys;
    var neutral := EntitiesIn(p.m, BNeutral);
    var other := NonNeutralEntities(p.m);
    assert p.m.Keys == neutral + other;
    assert neutral * other == {};
  }

  /** Implicit-neutral counts depend only on the last status of each entity. */
  lemma WithNeutralsDependsOnlyOnLastStatus(rs1: seq<StatusRecord>, rs2: seq<StatusRecord>, n: int)
    requires Collapse(rs1).m == Collapse(rs2).m
    ensures WithNeutrals(rs1, n) == WithNeutrals(rs2, n)
  {
    var d1 := WithNeutrals(rs1, n);
    var d2 := WithNeutrals(rs2, n);
    WithNeutralsCounts(rs1, n);
    WithNeutralsCounts(rs2, n);
    forall b
      ensures Count(d1, b) == Count(d2, b)
    {
      if b != BNeutral {
        assert Count(d1, b) == |EntitiesIn(Collapse(rs1).m, b)|;
      }
    }
    SameCountsSameDist(d1, d2);
  }

  /** Two distributions with the same total and the same count in every bucket are equal. */
  lemma SameCountsSameDist(d1: Dist, d2: Dist)
    requires d1.total == d2.total
    requires forall b :: Count(d1, b) == Count(d2, b)
    ensures d1 == d2
  {
    assert Count(d1, BSolidApproval) == Count(d2, BSolidApproval);
    assert Count(d1, BLeaningApproval) == Count(d2, BLeaningApproval);
    assert Count(d1, BNeutral) == Count(d2, BNeutral);
    assert Count(d1, BLeaningDisapproval) == Count(d2, BLeaningDisapproval);
    assert Count(d1, BSolidDisapproval) == Count(d2, BSolidDisapproval);
    assert Count(d1, BUnknown) == Count(d2, BUnknown);
  }

  /** No bucket goes negative while the records name at most `n` distinct entities. */
  lemma WithNeutralsNonNegative(rs: seq<StatusRecord>, n: int)
    requires |EntityIds(rs)| <= n
    ensures forall b :: Count(WithNeutrals(rs, n), b) >= 0
  {
    WithNeutralsCounts(rs, n);
    SubsetCardinality(NonNeutralEntities(Collapse(rs).m), Collapse(rs).m.Keys);
  }

  lemma {:induction false} ValuesInOrderFrame(order: seq<Value>, m: map<Value, Value>, k: Value, v: Value)
    requires forall e :: e in order ==> e in m
    requires k !in order
    ensures ValuesInOrder(order, m[k := v]) == ValuesInOrder(order, m)
    decreases |order|
  {
    if |order| > 0 {
      var p := order[..|order| - 1];
      assert forall e :: e in p ==> e in order;
      ValuesInOrderFrame(p, m, k, v);
    }
  }

  /** A record for an entity not seen before appends its status to the dict's values. */
  lemma CollapseSnocNewEntity(rs: seq<StatusRecord>, r: StatusRecord)
    requires r.entityId !in EntityIds(rs)
    ensures DictValues(Collapse(rs + [r])) == DictValues(Collapse(rs)) + [r.status]
  {
    var q := Collapse(rs);
    assert (rs + [r])[..|rs|] == rs;
    var p := Collapse(rs + [r]);
    assert p.order == q.order + [r.entityId];
    assert p.m == q.m[r.entityId := r.status];
    ValuesInOrderSnoc(q.order, r.entityId, p.m);
    ValuesInOrderFrame(q.order, q.m, r.entityId, r.status);
  }

  /** A first, explicitly neutral record for a new entity changes nothing. */
  lemma ExplicitNeutralIsNoOp(rs: seq<StatusRecord>, r: StatusRecord, n: int)
    requires r.entityId !in EntityIds(rs)
    requires Classify(r.status) == BNeutral
    ensures WithNeutrals(rs + [r], n) == WithNeutrals(rs, n)
  {
    CollapseSnocNewEntity(rs, r);
    var vals := DictValues(Collapse(rs));
    assert (vals + [r.status])[..|vals|] == vals;
  }

  /**
   * When no entity has two records, the two variants agree on every
   * non-neutral bucket; they differ in `neutral` and in `total`, which is
   * the number of records for one and the number of entities for the other.
   */
  lemma VariantsAgreeOnDistinctEntities(rs: seq<StatusRecord>, n: int)
    requires forall i, j :: 0 <= i < j < |rs| ==> rs[i].entityId != rs[j].entityId
    ensures forall b :: b != BNeutral ==> Count(WithNeutrals(rs, n), b) == Count(CountExplicit(rs), b)
    ensures CountExplicit(rs).total == |rs| && WithNeutrals(rs, n).total == n
  {
    CollapseOfDistinct(rs);
    forall b | b != BNeutral
      ensures Count(WithNeutrals(rs, n), b) == Count(CountExplicit(rs), b)
    {
      WithNeutralsOfStatuses(rs, n, b);
      CountExplicitBucket(rs, b);
    }
  }

  /** When the collapsed values are the records' statuses, a non-neutral bucket counts their occurrences. */
  lemma WithNeutralsOfStatuses(rs: seq<StatusRecord>, n: int, b: Bucket)
    requires DictValues(Collapse(rs)) == Statuses(rs)
    requires b != BNeutral
    ensures Count(WithNeutrals(rs, n), b) == Occurrences(Statuses(rs), b)
  {
    ApplyStatusesCounts(AllNeutral(n), Statuses(rs));
  }

  lemma {:induction false} CollapseOfDistinct(rs: seq<StatusRecord>)
    requires forall i, j :: 0 <= i < j < |rs| ==> rs[i].entityId != rs[j].entityId
    ensures DictValues(Collapse(rs)) == Statuses(rs)
    decreases |rs|
  {
    if |rs| > 0 {
      var p := rs[..|rs| - 1];
      var r := rs[|rs| - 1];
      assert rs == p + [r];
      CollapseOfDistinct(p);
      assert r.entityId !in EntityIds(p) by {
        forall i | 0 <= i < |p|
          ensures p[i].entityId != r.entityId
        {
          assert p[i] == rs[i];
        }
      }
      CollapseSnocNewEntity(p, r);
    }
  }
}
