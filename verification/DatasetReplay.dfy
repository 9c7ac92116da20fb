/** datasource/dataset_replay.py: resampling the records of a scenario, and replaying them pass after pass. */
module DatasetReplay {
  import opened Quotients
  import opened Sequences

  /** One labelled flow record; its family is upper case.  Replaying overwrites its timestamp in place. */
  class FlowRecord {
    const family: string
    var timestamp: real

    constructor (family: string, timestamp: real)
      ensures this.family == family && this.timestamp == timestamp
    {
      this.family, this.timestamp := family, timestamp;
    }
  }

  /** A scenario's weights, in the order of the dictionary, each family once. */
  datatype Weight = Weight(family: string, share: real)

  // ----- Sampling a pool -----

  /** The first `n` entries of the pool repeated over and over. */
  function Cycle<T>(pool: seq<T>, n: nat): (r: seq<T>)
    requires pool != []
    ensures |r| == n
  {
    if n == 0 then [] else Cycle(pool, n - 1) + [pool[(n - 1) % |pool|]]
  }

  /** How often pool entry `i` occurs among the first `n` positions of the cycle. */
  function Turns(size: nat, n: nat, i: nat): nat
    requires i < size
  {
    if n == 0 then 0 else Turns(size, n - 1, i) + if (n - 1) % size == i then 1 else 0
  }

  /** Sampling is even: every pool entry is used n / size times, the first n % size ones once more. */
  lemma {:induction false} TurnsAreEven(size: nat, n: nat, i: nat)
    requires i < size
    ensures Turns(size, n, i) == n / size + if i < n % size then 1 else 0
  {
    if n == 0 {
      QuotientIs(0, size, 0, 0);
    } else {
      TurnsAreEven(size, n - 1, i);
      NextQuotient(n - 1, size);
    }
  }

  lemma CycleStep<T>(pool: seq<T>, n: nat, i: nat, j: nat)
    requires n > 0 && i < |pool| && j == (n - 1) % |pool|
    ensures j < |pool| && Cycle(pool, n) == Cycle(pool, n - 1) + [pool[j]]
    ensures Turns(|pool|, n, i) == Turns(|pool|, n - 1, i) + if j == i then 1 else 0
  {
  }

  /** In a pool without repetition, an entry's multiplicity in the cycle is its number of turns. */
  lemma {:induction false} CycleMultiplicity<T>(pool: seq<T>, n: nat, i: nat)
    requires Distinct(pool) && i < |pool|
    ensures multiset(Cycle(pool, n))[pool[i]] == Turns(|pool|, n, i)
  {
    if n > 0 {
      var j := (n - 1) % |pool|;
      CycleMultiplicity(pool, n - 1, i);
      OneMoreCopy(Cycle(pool, n - 1), pool, i, j);
      CycleStep(pool, n, i, j);
    }
  }

  lemma OneMoreCopy<T>(xs: seq<T>, pool: seq<T>, i: nat, j: nat)
    requires Distinct(pool) && i < |pool| && j < |pool|
    ensures multiset(xs + [pool[j]])[pool[i]] == multiset(xs)[pool[i]] + if j == i then 1 else 0
  {
    assert multiset(xs + [pool[j]]) == multiset(xs) + multiset{pool[j]};
    assert i < j ==> pool[i] != pool[j];
    assert j < i ==> pool[j] != pool[i];
  }

  lemma {:induction false} CycleGoesOn<T>(pool: seq<T>, n: nat, i: nat)
    requires pool != [] && n % |pool| == 0 && i <= |pool|
    ensures Cycle(pool, n + i) == Cycle(pool, n) + pool[..i]
  {
    if i > 0 {
      CycleGoesOn(pool, n, i - 1);
      FromMultiple(n, |pool|, i - 1);
      assert Cycle(pool, n + i) == Cycle(pool, n + i - 1) + [pool[i - 1]];
      assert pool[..i] == pool[..i - 1] + [pool[i - 1]];
    }
  }

  lemma {:induction false} CyclePrefix<T>(pool: seq<T>, n: nat, m: nat)
    requires pool != [] && n <= m
    ensures Cycle(pool, m)[..n] == Cycle(pool, n)
  {
    if n < m {
      CyclePrefix(pool, n, m - 1);
    }
  }

  /** `sampled.extend(pool)` until the target is reached, cut off at the target. */
  method Sample<T>(pool: seq<T>, target: nat) returns (sampled: seq<T>)
    requires pool != []
    ensures sampled == Cycle(pool, target)
  {
    sampled := [];
    while |sampled| < target
      invariant sampled == Cycle(pool, |sampled|) && |sampled| % |pool| == 0
      decreases target - |sampled|
    {
      CycleGoesOn(pool, |sampled|, |pool|);
      FromMultiple(|sampled|, |pool|, |pool|);
      assert pool[..|pool|] == pool;
      sampled := sampled + pool;
    }
    CyclePrefix(pool, target, |sampled|);
    sampled := sampled[..target];
  }

  // ----- Resampling a scenario -----

  function Pool(records: seq<FlowRecord>, family: string): seq<FlowRecord> {
    if records == [] then []
    else Pool(records[..|records| - 1], family) +
         if records[|records| - 1].family == family then [records[|records| - 1]] else []
  }

  /** The families of the records, in order of first appearance. */
  function Families(records: seq<FlowRecord>): seq<string> {
    if records == [] then []
    else
      var past, f := Families(records[..|records| - 1]), records[|records| - 1].family;
      if f in past then past else past + [f]
  }

  function Listed(weights: seq<Weight>): set<string> {
    set w | w in weights :: w.family
  }

  function Portion(total: nat, share: real): real {
    total as real * share
  }

  function Target(total: nat, share: real): (n: nat)
    requires share >= 0.0
    ensures n as real <= Portion(total, share) < n as real + 1.0
  {
    assert total as real * share >= 0.0;
    Portion(total, share).Floor
  }

  /** The share of one family: its pool, cycled up to the target; nothing for an empty pool. */
  function Share(pool: seq<FlowRecord>, target: nat): seq<FlowRecord> {
    if pool == [] then [] else Cycle(pool, target)
  }

  ghost predicate WeightsOk(weights: seq<Weight>) {
    && (forall i | 0 <= i < |weights| :: weights[i].share >= 0.0)
    && (forall i, j | 0 <= i < j < |weights| :: weights[i].family != weights[j].family)
  }

  function ListedPart(records: seq<FlowRecord>, weights: seq<Weight>): seq<FlowRecord>
    requires forall i | 0 <= i < |weights| :: weights[i].share >= 0.0
  {
    if weights == [] then []
    else
      var w := weights[|weights| - 1];
      ListedPart(records, weights[..|weights| - 1]) +
        Share(Pool(records, w.family), Target(|records|, w.share))
  }

  function UnlistedPart(records: seq<FlowRecord>, families: seq<string>, per: nat): seq<FlowRecord> {
    if families == [] then []
    else
      UnlistedPart(records, families[..|families| - 1], per) +
        Share(Pool(records, families[|families| - 1]), per)
  }

  function Unlisted(families: seq<string>, weights: seq<Weight>): seq<string> {
    if families == [] then []
    else
      Unlisted(families[..|families| - 1], weights) +
        if families[|families| - 1] in Listed(weights) then [] else [families[|families| - 1]]
  }

  function PerUnlisted(total: nat, used: nat, unlisted: nat): nat
    requires unlisted > 0
  {
    (if total < used then 0 else total - used) / unlisted
  }

  /** The entries picked for a scenario, before the shuffle. */
  function Resampled(records: seq<FlowRecord>, weights: seq<Weight>): seq<FlowRecord>
    requires WeightsOk(weights)
  {
    var listed, unlisted := ListedPart(records, weights), Unlisted(Families(records), weights);
    if unlisted == [] then listed
    else listed + UnlistedPart(records, unlisted, PerUnlisted(|records|, |listed|, |unlisted|))
  }

  /** `random.shuffle`: some order of the same entries. */
  method Shuffle(entries: seq<FlowRecord>) returns (shuffled: seq<FlowRecord>)
    ensures multiset(shuffled) == multiset(entries)
  {
    shuffled := [];
    var rest := entries;
    while rest != []
      invariant multiset(shuffled) + multiset(rest) == multiset(entries)
      decreases |rest|
    {
      var i :| 0 <= i < |rest|;
      assert rest == rest[..i] + [rest[i]] + rest[i + 1..];
      shuffled := shuffled + [rest[i]];
      rest := rest[..i] + rest[i + 1..];
    }
  }

  method FilterByScenario(records: seq<FlowRecord>, weights: seq<Weight>) returns (picked: seq<FlowRecord>)
    requires WeightsOk(weights)
    ensures weights == [] ==> picked == records
    ensures weights != [] && Resampled(records, weights) != [] ==>
              multiset(picked) == multiset(Resampled(records, weights))
    ensures weights != [] && Resampled(records, weights) == [] ==> picked == records
  {
    if weights == [] {
      return records;
    }
    var result := [];
    for i := 0 to |weights|
      invariant result == ListedPart(records, weights[..i])
    {
      assert weights[..i + 1][..i] == weights[..i];
      var target := Target(|records|, weights[i].share);
      var pool := Pool(records, weights[i].family);
      if pool != [] {
        var sampled := Sample(pool, target);
        result := result + sampled;
      }
    }
    assert weights[..|weights|] == weights;
    var unlisted := Unlisted(Families(records), weights);
    if unlisted != [] {
      var per := PerUnlisted(|records|, |result|, |unlisted|);
      var more := SampleUnlisted(records, unlisted, per);
      result := result + more;
    }
    if result == [] {
      return records;
    }
    picked := Shuffle(result);
  }

  method SampleUnlisted(records: seq<FlowRecord>, families: seq<string>, per: nat) returns (result: seq<FlowRecord>)
    ensures result == UnlistedPart(records, families, per)
  {
    result := [];
    for i := 0 to |families|
      invariant result == UnlistedPart(records, families[..i], per)
    {
      assert families[..i + 1][..i] == families[..i];
      var pool := Pool(records, families[i]);
      if pool != [] {
        var sampled := Sample(pool, per);
        result := result + sampled;
      }
    }
    assert families[..|families|] == families;
  }

  // ----- What the resampled list holds -----

  function CountOf(entries: seq<FlowRecord>, family: string): nat {
    if entries == [] then 0
    else CountOf(entries[..|entries| - 1], family) + if entries[|entries| - 1].family == family then 1 else 0
  }

  lemma {:induction false} CountConcat(a: seq<FlowRecord>, b: seq<FlowRecord>, family: string)
    ensures CountOf(a + b, family) == CountOf(a, family) + CountOf(b, family)
  {
    if b == [] {
      assert a + b == a;
    } else {
      assert (a + b)[..|a + b| - 1] == a + b[..|b| - 1];
      CountConcat(a, b[..|b| - 1], family);
    }
  }

  lemma {:induction false} CountUniform(entries: seq<FlowRecord>, f: string, family: string)
    requires forall i | 0 <= i < |entries| :: entries[i].family == f
    ensures CountOf(entries, family) == if f == family then |entries| else 0
  {
    if entries != [] {
      CountUniform(entries[..|entries| - 1], f, family);
    }
  }

  lemma {:induction false} PoolFacts(records: seq<FlowRecord>, family: string)
    ensures forall i | 0 <= i < |Pool(records, family)| :: Pool(records, family)[i].family == family
    ensures Pool(records, family) != [] <==> family in Families(records)
  {
    if records != [] {
      PoolFacts(records[..|records| - 1], family);
    }
  }

  lemma {:induction false} CycleUniform(pool: seq<FlowRecord>, n: nat, f: string)
    requires pool != [] && forall i | 0 <= i < |pool| :: pool[i].family == f
    ensures forall i | 0 <= i < n :: Cycle(pool, n)[i].family == f
  {
    if n > 0 {
      CycleUniform(pool, n - 1, f);
    }
  }

  lemma ShareCount(records: seq<FlowRecord>, f: string, target: nat, family: string)
    ensures var share := Share(Pool(records, f), target);
            && |share| == (if f in Families(records) then target else 0)
            && CountOf(share, family) == if f == family && f in Families(records) then target else 0
  {
    PoolFacts(records, f);
    if Pool(records, f) != [] {
      CycleUniform(Pool(records, f), target, f);
    }
    CountUniform(Share(Pool(records, f), target), f, family);
  }

  lemma {:induction false} ListedCount(records: seq<FlowRecord>, weights: seq<Weight>, family: string)
    requires WeightsOk(weights)
    ensures family !in Listed(weights) ==> CountOf(ListedPart(records, weights), family) == 0
    ensures forall i | 0 <= i < |weights| && weights[i].family == family && family in Families(records) ::
              CountOf(ListedPart(records, weights), family) == Target(|records|, weights[i].share)
  {
    if weights != [] {
      var init, w := weights[..|weights| - 1], weights[|weights| - 1];
      assert weights == init + [w];
      ListedCount(records, init, family);
      ShareCount(records, w.family, Target(|records|, w.share), family);
      CountConcat(ListedPart(records, init), Share(Pool(records, w.family), Target(|records|, w.share)), family);
      assert w.family !in Listed(init);
    }
  }

  lemma {:induction false} UnlistedFacts(families: seq<string>, weights: seq<Weight>)
    ensures forall f :: f in Unlisted(families, weights) <==> f in families && f !in Listed(weights)
  {
    if families != [] {
      UnlistedFacts(families[..|families| - 1], weights);
      assert families == families[..|families| - 1] + [families[|families| - 1]];
    }
  }

  lemma UnlistedSnoc(records: seq<FlowRecord>, init: seq<string>, f: string, per: nat, family: string)
    requires f in Families(records)
    ensures var part, more := UnlistedPart(records, init, per), UnlistedPart(records, init + [f], per);
            && |more| == |part| + per
            && CountOf(more, family) == CountOf(part, family) + if f == family then per else 0
  {
    assert (init + [f])[..|init|] == init;
    ShareCount(records, f, per, family);
    CountConcat(UnlistedPart(records, init, per), Share(Pool(records, f), per), family);
  }

  /** `per`, taken `n` times. */
  function Repeated(n: nat, per: nat): nat {
    if n == 0 then 0 else Repeated(n - 1, per) + per
  }

  lemma {:induction false} RepeatedIsProduct(n: nat, per: nat)
    ensures Repeated(n, per) == n * per
  {
    if n > 0 {
      RepeatedIsProduct(n - 1, per);
      OneMore(n - 1, per);
    }
  }

  lemma {:induction false} UnlistedLength(records: seq<FlowRecord>, families: seq<string>, per: nat)
    requires forall i | 0 <= i < |families| :: families[i] in Families(records)
    ensures |UnlistedPart(records, families, per)| == Repeated(|families|, per)
  {
    if families != [] {
      var init, f := families[..|families| - 1], families[|families| - 1];
      assert families == init + [f];
      UnlistedLength(records, init, per);
      UnlistedSnoc(records, init, f, per, f);
    }
  }

  lemma {:induction false} UnlistedCountNone(records: seq<FlowRecord>, families: seq<string>, per: nat, family: string)
    requires forall i | 0 <= i < |families| :: families[i] in Families(records)
    requires family !in families
    ensures CountOf(UnlistedPart(records, families, per), family) == 0
  {
    if families != [] {
      var init, f := families[..|families| - 1], families[|families| - 1];
      assert families == init + [f];
      UnlistedCountNone(records, init, per, family);
      UnlistedSnoc(records, init, f, per, family);
    }
  }

  lemma {:induction false} UnlistedCountOnce(records: seq<FlowRecord>, families: seq<string>, per: nat, family: string)
    requires forall i | 0 <= i < |families| :: families[i] in Families(records)
    requires Distinct(families) && family in families
    ensures CountOf(UnlistedPart(records, families, per), family) == per
  {
    var init, f := families[..|families| - 1], families[|families| - 1];
    assert families == init + [f];
    UnlistedSnoc(records, init, f, per, family);
    if f == family {
      UnlistedCountNone(records, init, per, family);
    } else {
      UnlistedCountOnce(records, init, per, family);
    }
  }

  lemma OneMore(n: nat, per: nat)
    ensures (n + 1) * per == n * per + per
  {
  }

  lemma TargetMeaning(total: nat, share: real)
    requires share >= 0.0
    ensures IsWholePart(Target(total, share), total, share)
  {
  }

  /** Each listed family that has records contributes exactly floor(total * weight) entries. */
  lemma ListedFamilyShare(records: seq<FlowRecord>, weights: seq<Weight>, i: nat)
    requires WeightsOk(weights) && i < |weights| && weights[i].family in Families(records)
    ensures CountOf(Resampled(records, weights), weights[i].family) == Target(|records|, weights[i].share)
  {
    var f := weights[i].family;
    var listed, unlisted := ListedPart(records, weights), Unlisted(Families(records), weights);
    ListedCount(records, weights, f);
    UnlistedFacts(Families(records), weights);
    assert weights[i] in weights && f in Listed(weights);
    if unlisted != [] {
      var per := PerUnlisted(|records|, |listed|, |unlisted|);
      UnlistedCountNone(records, unlisted, per, f);
      CountConcat(listed, UnlistedPart(records, unlisted, per), f);
    }
  }

  /** `count` is the whole part of the product of `total` and `share`. */
  ghost predicate IsWholePart(count: nat, total: nat, share: real) {
    count as real <= total as real * share < count as real + 1.0
  }

  lemma ListedFamilyPortion(records: seq<FlowRecord>, weights: seq<Weight>, i: nat)
    requires WeightsOk(weights) && i < |weights| && weights[i].family in Families(records)
    ensures IsWholePart(CountOf(Resampled(records, weights), weights[i].family), |records|, weights[i].share)
  {
    ListedFamilyShare(records, weights, i);
    TargetMeaning(|records|, weights[i].share);
  }

  lemma {:induction false} FamiliesDistinct(records: seq<FlowRecord>)
    ensures Distinct(Families(records))
  {
    if records != [] {
      FamiliesDistinct(records[..|records| - 1]);
    }
  }

  lemma {:induction false} UnlistedDistinct(families: seq<string>, weights: seq<Weight>)
    requires Distinct(families)
    ensures Distinct(Unlisted(families, weights))
  {
    if families != [] {
      var init, f := families[..|families| - 1], families[|families| - 1];
      UnlistedDistinct(init, weights);
      UnlistedFacts(init, weights);
      assert f !in init;
      assert forall i | 0 <= i < |Unlisted(init, weights)| :: Unlisted(init, weights)[i] in Unlisted(init, weights);
    }
  }

  /** The entries of one family in a concatenation of the two parts, the first holding none of it. */
  lemma UnlistedOnly(records: seq<FlowRecord>, listed: seq<FlowRecord>, unlisted: seq<string>, per: nat, family: string)
    requires forall i | 0 <= i < |unlisted| :: unlisted[i] in Families(records)
    requires Distinct(unlisted) && family in unlisted && CountOf(listed, family) == 0
    ensures CountOf(listed + UnlistedPart(records, unlisted, per), family) == per
  {
    UnlistedCountOnce(records, unlisted, per, family);
    CountConcat(listed, UnlistedPart(records, unlisted, per), family);
  }

  /** The equal share is the largest that fits `u` times into what is left, and nothing when too much is used. */
  lemma EqualShare(total: nat, used: nat, u: nat)
    requires u > 0
    ensures var each := PerUnlisted(total, used, u);
            if total < used then each == 0 else u * each <= total - used < u * (each + 1)
  {
    if total >= used {
      assert total - used == u * ((total - used) / u) + (total - used) % u;
    }
  }

  /** The families without a weight share equally what the listed ones leave. */
  lemma UnlistedFamilyShare(records: seq<FlowRecord>, weights: seq<Weight>, family: string)
    requires WeightsOk(weights) && family in Families(records) && family !in Listed(weights)
    ensures var u := |Unlisted(Families(records), weights)|;
            && u > 0
            && CountOf(Resampled(records, weights), family)
               == PerUnlisted(|records|, |ListedPart(records, weights)|, u)
  {
    var listed, unlisted := ListedPart(records, weights), Unlisted(Families(records), weights);
    UnlistedFacts(Families(records), weights);
    FamiliesDistinct(records);
    UnlistedDistinct(Families(records), weights);
    ListedCount(records, weights, family);
    assert family in unlisted;
    UnlistedOnly(records, listed, unlisted, PerUnlisted(|records|, |listed|, |unlisted|), family);
  }

  // ----- How often each record is picked -----

  lemma {:induction false} PoolOf(records: seq<FlowRecord>, family: string)
    ensures forall r :: r in Pool(records, family) <==> r in records && r.family == family
    ensures Distinct(records) ==> Distinct(Pool(records, family))
  {
    if records != [] {
      var init, r := records[..|records| - 1], records[|records| - 1];
      assert records == init + [r];
      PoolOf(init, family);
      if Distinct(records) {
        assert r !in init;
        assert forall i | 0 <= i < |Pool(init, family)| :: Pool(init, family)[i] in Pool(init, family);
      }
    }
  }

  lemma {:induction false} NotOfFamily(entries: seq<FlowRecord>, r: FlowRecord)
    requires CountOf(entries, r.family) == 0
    ensures multiset(entries)[r] == 0
  {
    if entries != [] {
      NotOfFamily(entries[..|entries| - 1], r);
      assert entries == entries[..|entries| - 1] + [entries[|entries| - 1]];
    }
  }

  /** Floor of `target / size`, or one more. */
  predicate IsEvenShare(count: nat, target: nat, size: nat)
    requires size > 0
  {
    count == target / size || count == target / size + 1
  }

  lemma EvenShare(records: seq<FlowRecord>, family: string, target: nat, r: FlowRecord)
    requires Distinct(records) && r in records && r.family == family
    ensures var pool := Pool(records, family);
            pool != [] && IsEvenShare(multiset(Share(pool, target))[r], target, |pool|)
  {
    var pool := Pool(records, family);
    PoolOf(records, family);
    assert r in pool;
    var i :| 0 <= i < |pool| && pool[i] == r;
    CycleMultiplicity(pool, target, i);
    TurnsAreEven(|pool|, target, i);
  }

  lemma ConcatCount(a: seq<FlowRecord>, b: seq<FlowRecord>, r: FlowRecord)
    ensures multiset(a + b)[r] == multiset(a)[r] + multiset(b)[r]
  {
    assert multiset(a + b) == multiset(a) + multiset(b);
  }

  lemma {:induction false} ListedRecordCount(records: seq<FlowRecord>, weights: seq<Weight>, i: nat, r: FlowRecord)
    requires WeightsOk(weights) && i < |weights| && weights[i].family == r.family
    ensures multiset(ListedPart(records, weights))[r]
         == multiset(Share(Pool(records, r.family), Target(|records|, weights[i].share)))[r]
  {
    var n := |weights| - 1;
    var init, w := weights[..n], weights[n];
    var target := Target(|records|, w.share);
    ConcatCount(ListedPart(records, init), Share(Pool(records, w.family), target), r);
    if i == n {
      assert r.family !in Listed(init);
      ListedCount(records, init, r.family);
      NotOfFamily(ListedPart(records, init), r);
    } else {
      assert init[i] == weights[i];
      ListedRecordCount(records, init, i, r);
      ShareOfOther(records, w.family, target, r);
    }
  }

  lemma ShareOfOther(records: seq<FlowRecord>, family: string, target: nat, r: FlowRecord)
    requires family != r.family
    ensures multiset(Share(Pool(records, family), target))[r] == 0
  {
    ShareCount(records, family, target, r.family);
    NotOfFamily(Share(Pool(records, family), target), r);
  }

  lemma {:induction false} UnlistedRecordCount(records: seq<FlowRecord>, families: seq<string>, per: nat, r: FlowRecord)
    requires Distinct(families) && r.family in families
    ensures multiset(UnlistedPart(records, families, per))[r] == multiset(Share(Pool(records, r.family), per))[r]
  {
    var n := |families| - 1;
    var init, f := families[..n], families[n];
    var share := Share(Pool(records, f), per);
    ConcatCount(UnlistedPart(records, init, per), share, r);
    if f == r.family {
      assert f !in init;
      UnlistedWithout(records, init, per, r);
    } else {
      UnlistedRecordCount(records, init, per, r);
      ShareCount(records, f, per, r.family);
      NotOfFamily(share, r);
    }
  }

  lemma {:induction false} UnlistedWithout(records: seq<FlowRecord>, families: seq<string>, per: nat, r: FlowRecord)
    requires r.family !in families
    ensures multiset(UnlistedPart(records, families, per))[r] == 0
  {
    if families != [] {
      var n := |families| - 1;
      var share := Share(Pool(records, families[n]), per);
      UnlistedWithout(records, families[..n], per, r);
      ConcatCount(UnlistedPart(records, families[..n], per), share, r);
      ShareCount(records, families[n], per, r.family);
      NotOfFamily(share, r);
    }
  }

  /** In the picked list each of the distinct records of a listed family occurs floor(target / size) times, or once
      more, where the target is the family's floor(total * weight) and the size its number of records. */
  lemma ListedRecordShare(records: seq<FlowRecord>, weights: seq<Weight>, i: nat, r: FlowRecord,
                          picked: seq<FlowRecord>)
    requires Distinct(records) && r in records
    requires WeightsOk(weights) && i < |weights| && weights[i].family == r.family
    requires multiset(picked) == multiset(Resampled(records, weights))
    ensures var size := |Pool(records, r.family)|;
            size > 0 && IsEvenShare(multiset(picked)[r], Target(|records|, weights[i].share), size)
  {
    var listed, unlisted := ListedPart(records, weights), Unlisted(Families(records), weights);
    ListedRecordCount(records, weights, i, r);
    EvenShare(records, r.family, Target(|records|, weights[i].share), r);
    if unlisted != [] {
      var rest := UnlistedPart(records, unlisted, PerUnlisted(|records|, |listed|, |unlisted|));
      UnlistedFacts(Families(records), weights);
      assert weights[i] in weights && r.family in Listed(weights);
      UnlistedWithout(records, unlisted, PerUnlisted(|records|, |listed|, |unlisted|), r);
      ConcatCount(listed, rest, r);
    }
  }

  /** And each of an unlisted family likewise, with the families' equal whole share as the target. */
  lemma UnlistedRecordShare(records: seq<FlowRecord>, weights: seq<Weight>, r: FlowRecord, picked: seq<FlowRecord>)
    requires Distinct(records) && r in records && WeightsOk(weights) && r.family !in Listed(weights)
    requires multiset(picked) == multiset(Resampled(records, weights))
    ensures var size, u := |Pool(records, r.family)|, |Unlisted(Families(records), weights)|;
            && size > 0 && u > 0
            && IsEvenShare(multiset(picked)[r], PerUnlisted(|records|, |ListedPart(records, weights)|, u), size)
  {
    var listed, unlisted := ListedPart(records, weights), Unlisted(Families(records), weights);
    PoolOf(records, r.family);
    PoolFacts(records, r.family);
    assert r in Pool(records, r.family);
    UnlistedFacts(Families(records), weights);
    FamiliesDistinct(records);
    UnlistedDistinct(Families(records), weights);
    assert r.family in unlisted;
    var per := PerUnlisted(|records|, |listed|, |unlisted|);
    UnlistedRecordCount(records, unlisted, per, r);
    EvenShare(records, r.family, per, r);
    ListedCount(records, weights, r.family);
    NotOfFamily(listed, r);
    ConcatCount(listed, UnlistedPart(records, unlisted, per), r);
  }

  // ----- How many entries in all -----

  function SumOfShares(weights: seq<Weight>): real {
    if weights == [] then 0.0 else SumOfShares(weights[..|weights| - 1]) + weights[|weights| - 1].share
  }

  function SumOfPortions(total: nat, weights: seq<Weight>): real {
    if weights == [] then 0.0
    else SumOfPortions(total, weights[..|weights| - 1]) + Portion(total, weights[|weights| - 1].share)
  }

  lemma AddPortions(total: nat, a: real, b: real)
    ensures Portion(total, a + b) == Portion(total, a) + Portion(total, b)
  {
  }

  lemma {:induction false} PortionsOfTotal(total: nat, weights: seq<Weight>)
    ensures SumOfPortions(total, weights) == Portion(total, SumOfShares(weights))
  {
    if weights != [] {
      PortionsOfTotal(total, weights[..|weights| - 1]);
      AddPortions(total, SumOfShares(weights[..|weights| - 1]), weights[|weights| - 1].share);
    } else {
      assert Portion(total, 0.0) == 0.0;
    }
  }

  lemma ListedSnoc(records: seq<FlowRecord>, init: seq<Weight>, w: Weight)
    requires WeightsOk(init + [w]) && WeightsOk(init)
    ensures |ListedPart(records, init + [w])| as real
         <= |ListedPart(records, init)| as real + Portion(|records|, w.share)
  {
    assert (init + [w])[..|init|] == init;
    assert (init + [w])[|init|] == w;
    var target := Target(|records|, w.share);
    ShareCount(records, w.family, target, w.family);
    assert |ListedPart(records, init + [w])| <= |ListedPart(records, init)| + target;
  }

  lemma WeightsInit(init: seq<Weight>, w: Weight)
    requires WeightsOk(init + [w])
    ensures WeightsOk(init)
  {
    var all := init + [w];
    assert forall i | 0 <= i < |init| :: all[i] == init[i];
  }

  lemma {:induction false} ListedSize(records: seq<FlowRecord>, weights: seq<Weight>)
    requires WeightsOk(weights)
    ensures |ListedPart(records, weights)| as real <= SumOfPortions(|records|, weights)
  {
    if weights != [] {
      var init, w := weights[..|weights| - 1], weights[|weights| - 1];
      assert weights == init + [w];
      WeightsInit(init, w);
      ListedSize(records, init);
      ListedSnoc(records, init, w);
    }
  }

  lemma AtMostAll(total: nat, share: real)
    requires share <= 1.0
    ensures Portion(total, share) <= total as real
  {
    assert total as real * (1.0 - share) >= 0.0;
  }

  lemma ListedWithin(records: seq<FlowRecord>, weights: seq<Weight>)
    requires WeightsOk(weights) && SumOfShares(weights) <= 1.0
    ensures |ListedPart(records, weights)| <= |records|
  {
    ListedSize(records, weights);
    PortionsOfTotal(|records|, weights);
    AtMostAll(|records|, SumOfShares(weights));
  }

  /** Filling up with equal whole shares for `u` families leaves fewer than `u` places empty. */
  lemma FillUp(total: nat, used: nat, u: nat)
    requires used <= total && u > 0
    ensures total - u < used + u * PerUnlisted(total, used, u) <= total
  {
    var rest := total - used;
    assert rest == u * (rest / u) + rest % u;
  }

  lemma ResampledLength(records: seq<FlowRecord>, weights: seq<Weight>)
    requires WeightsOk(weights)
    ensures var listed, u := |ListedPart(records, weights)|, |Unlisted(Families(records), weights)|;
            |Resampled(records, weights)| == listed + if u == 0 then 0 else u * PerUnlisted(|records|, listed, u)
  {
    var listed, unlisted := ListedPart(records, weights), Unlisted(Families(records), weights);
    UnlistedFacts(Families(records), weights);
    if unlisted != [] {
      var per := PerUnlisted(|records|, |listed|, |unlisted|);
      assert forall i | 0 <= i < |unlisted| :: unlisted[i] in unlisted;
      UnlistedLength(records, unlisted, per);
      RepeatedIsProduct(|unlisted|, per);
    }
  }

  /** With weights summing to at most one, the list never outgrows the records; and with u > 0 families left
      over to fill it up, it falls short of them by less than u. */
  lemma ResampledSize(records: seq<FlowRecord>, weights: seq<Weight>)
    requires WeightsOk(weights) && SumOfShares(weights) <= 1.0
    ensures var u := |Unlisted(Families(records), weights)|;
            && |Resampled(records, weights)| <= |records|
            && (u > 0 ==> |Resampled(records, weights)| > |records| - u)
  {
    var listed, u := |ListedPart(records, weights)|, |Unlisted(Families(records), weights)|;
    ListedWithin(records, weights);
    ResampledLength(records, weights);
    if u > 0 {
      FillUp(|records|, listed, u);
    }
  }

  // ----- Replaying -----

  /** One remapping of a timestamp: the offset from `refTs`, scaled, from wall time `wall` on. */
  function Remap(wall: real, refTs: real, speed: real, ts: real): real
    requires speed > 0.0
  {
    wall + (ts - refTs) / speed
  }

  /** `n` remappings, one after the other. */
  function Remapped(wall: real, refTs: real, speed: real, ts: real, n: nat): real
    requires speed > 0.0
  {
    if n == 0 then ts else Remap(wall, refTs, speed, Remapped(wall, refTs, speed, ts, n - 1))
  }

  function Occurrences(records: seq<FlowRecord>, r: FlowRecord): nat {
    if records == [] then 0
    else Occurrences(records[..|records| - 1], r) + if records[|records| - 1] == r then 1 else 0
  }

  /** One pass over the list, or over its first `count` records if it is stopped there.  A record is remapped once
      for every time it occurs: the list holds references, and resampling may repeat them. */
  method ReplayPass(records: seq<FlowRecord>, count: nat, refTs: real, wall: real, speed: real)
    requires speed > 0.0 && count <= |records|
    modifies records
    ensures forall r | r in records ::
              r.timestamp == Remapped(wall, refTs, speed, old(r.timestamp), Occurrences(records[..count], r))
  {
    for i := 0 to count
      invariant forall r | r in records ::
                  r.timestamp == Remapped(wall, refTs, speed, old(r.timestamp), Occurrences(records[..i], r))
    {
      assert records[..i + 1][..i] == records[..i];
      var rec := records[i];
      var offset := (rec.timestamp - refTs) / speed;
      rec.timestamp := wall + offset;
    }
  }

  lemma {:induction false} OccursOnce(records: seq<FlowRecord>, i: nat)
    requires Distinct(records) && i < |records|
    ensures Occurrences(records, records[i]) == 1
  {
    var init := records[..|records| - 1];
    if i == |init| {
      OccursNever(init, records[i]);
    } else {
      OccursOnce(init, i);
    }
  }

  lemma {:induction false} OccursNever(records: seq<FlowRecord>, r: FlowRecord)
    requires forall i | 0 <= i < |records| :: records[i] != r
    ensures Occurrences(records, r) == 0
  {
    if records != [] {
      OccursNever(records[..|records| - 1], r);
    }
  }

  /** An offset after `k` passes. */
  function Scaled(offset: real, speed: real, k: nat): real
    requires speed > 0.0
  {
    if k == 0 then offset else Scaled(offset, speed, k - 1) / speed
  }

  /** speed^k. */
  function Power(speed: real, k: nat): real {
    if k == 0 then 1.0 else Power(speed, k - 1) * speed
  }

  /** Scaling `k` times divides by speed^k. */
  lemma {:induction false} ScaledIsQuotient(offset: real, speed: real, k: nat)
    requires speed > 0.0
    ensures Scaled(offset, speed, k) * Power(speed, k) == offset
  {
    if k == 0 {
      assert offset * 1.0 == offset;
    } else {
      ScaledIsQuotient(offset, speed, k - 1);
      var x, p := Scaled(offset, speed, k - 1), Power(speed, k - 1);
      assert x / speed * speed == x;
      assert x / speed * (p * speed) == x / speed * speed * p;
    }
  }

  lemma DivideKeepsOrder(a: real, b: real, speed: real)
    requires speed > 0.0 && a <= b
    ensures a / speed <= b / speed
  {
    assert (b - a) / speed >= 0.0;
    assert b / speed - a / speed == (b - a) / speed;
  }

  lemma {:induction false} ScaledKeepsOrder(a: real, b: real, speed: real, k: nat)
    requires speed > 0.0 && a <= b
    ensures Scaled(a, speed, k) <= Scaled(b, speed, k)
  {
    if k > 0 {
      ScaledKeepsOrder(a, b, speed, k - 1);
      DivideKeepsOrder(Scaled(a, speed, k - 1), Scaled(b, speed, k - 1), speed);
    }
  }

  /** The offsets of the times from the reference are the original ones after `k` scalings. */
  ghost predicate OffsetsAre(times: seq<real>, original: seq<real>, refTs: real, speed: real, k: nat) {
    && speed > 0.0 && |times| == |original|
    && forall i | 0 <= i < |times| :: times[i] - refTs == Scaled(original[i] - original[0], speed, k)
  }

  ghost function TimesOf(records: seq<FlowRecord>): (times: seq<real>)
    reads records
    ensures |times| == |records| && forall i | 0 <= i < |records| :: times[i] == records[i].timestamp
  {
    if records == [] then [] else TimesOf(records[..|records| - 1]) + [records[|records| - 1].timestamp]
  }

  lemma OneRemap(wall: real, refTs: real, speed: real, ts: real)
    requires speed > 0.0
    ensures Remapped(wall, refTs, speed, ts, 1) == Remap(wall, refTs, speed, ts)
  {
    assert Remapped(wall, refTs, speed, ts, 0) == ts;
  }

  /** Where the replay loop puts a record that occurs `n` times, from time `ts` on: each pass starts at its own
      wall time and takes as its reference where the first record, which occurs `n0` times, then is. */
  function TimeAfter(walls: seq<real>, speed: real, refTs: real, n0: nat, ts: real, n: nat): real
    requires speed > 0.0
    decreases |walls|
  {
    if walls == [] then ts
    else
      var past := walls[..|walls| - 1];
      Remapped(walls[|walls| - 1], TimeAfter(past, speed, refTs, n0, refTs, n0), speed,
               TimeAfter(past, speed, refTs, n0, ts, n), n)
  }

  lemma TimeAfterSnoc(walls: seq<real>, wall: real, speed: real, refTs: real, n0: nat, ts: real, n: nat)
    requires speed > 0.0
    ensures TimeAfter(walls + [wall], speed, refTs, n0, ts, n)
         == Remapped(wall, TimeAfter(walls, speed, refTs, n0, refTs, n0), speed,
                     TimeAfter(walls, speed, refTs, n0, ts, n), n)
  {
    assert (walls + [wall])[..|walls|] == walls;
  }

  /** Records that occur once: pass k puts each at the wall time of the pass plus its original offset divided
      by speed^k. */
  lemma {:induction false} TimeAfterOnce(walls: seq<real>, speed: real, refTs: real, ts: real)
    requires speed > 0.0
    ensures var first := TimeAfter(walls, speed, refTs, 1, refTs, 1);
            && (walls != [] ==> first == walls[|walls| - 1])
            && TimeAfter(walls, speed, refTs, 1, ts, 1) - first == Scaled(ts - refTs, speed, |walls|)
  {
    if walls != [] {
      var past, wall := walls[..|walls| - 1], walls[|walls| - 1];
      var first, mine := TimeAfter(past, speed, refTs, 1, refTs, 1), TimeAfter(past, speed, refTs, 1, ts, 1);
      TimeAfterOnce(past, speed, refTs, ts);
      OneRemap(wall, first, speed, first);
      OneRemap(wall, first, speed, mine);
    }
  }

  /** The full passes of the replay loop over any list, repeated records included: each record ends up where its
      occurrences and those of the first record put it.  For pairwise distinct records pass k puts record i at
      the wall time of the pass plus its original offset divided by speed^k. */
  method FullPasses(records: seq<FlowRecord>, walls: seq<real>, speed: real) returns (refTs: real)
    requires speed > 0.0 && records != []
    modifies records
    ensures forall r | r in records ::
              r.timestamp == TimeAfter(walls, speed, old(records[0].timestamp), Occurrences(records, records[0]),
                                       old(r.timestamp), Occurrences(records, r))
    ensures Distinct(records) && walls != [] ==>
              OffsetsAre(TimesOf(records), old(TimesOf(records)), walls[|walls| - 1], speed, |walls|)
    ensures refTs == records[0].timestamp
  {
    refTs := records[0].timestamp;
    ghost var ref0, n0 := refTs, Occurrences(records, records[0]);
    for k := 0 to |walls|
      invariant forall r | r in records ::
                  r.timestamp == TimeAfter(walls[..k], speed, ref0, n0, old(r.timestamp), Occurrences(records, r))
      invariant refTs == records[0].timestamp
    {
      assert walls[..k + 1] == walls[..k] + [walls[k]];
      forall ts, n: nat
        ensures TimeAfter(walls[..k + 1], speed, ref0, n0, ts, n)
             == Remapped(walls[k], TimeAfter(walls[..k], speed, ref0, n0, ref0, n0), speed,
                         TimeAfter(walls[..k], speed, ref0, n0, ts, n), n)
      {
        TimeAfterSnoc(walls[..k], walls[k], speed, ref0, n0, ts, n);
      }
      ReplayPass(records, |records|, refTs, walls[k], speed);
      assert records[..|records|] == records;
      refTs := records[0].timestamp;
    }
    assert walls[..|walls|] == walls;
    if Distinct(records) && walls != [] {
      forall i | 0 <= i < |records|
        ensures records[i].timestamp - walls[|walls| - 1]
             == Scaled(old(records[i].timestamp) - ref0, speed, |walls|)
      {
        OccursOnce(records, 0);
        OccursOnce(records, i);
        TimeAfterOnce(walls, speed, ref0, old(records[i].timestamp));
        assert records[i] in records;
      }
    }
  }

  /** The replay loop: full passes at the wall times given, and a last one stopped after `count` records. */
  method Replay(records: seq<FlowRecord>, walls: seq<real>, last: real, count: nat, speed: real)
    requires speed > 0.0 && records != [] && count <= |records|
    modifies records
    ensures var n0, ref0 := Occurrences(records, records[0]), old(records[0].timestamp);
            forall r | r in records ::
              r.timestamp == Remapped(last, TimeAfter(walls, speed, ref0, n0, ref0, n0), speed,
                                      TimeAfter(walls, speed, ref0, n0, old(r.timestamp), Occurrences(records, r)),
                                      Occurrences(records[..count], r))
    ensures Distinct(records) && walls != [] && count == 0 ==>
              OffsetsAre(TimesOf(records), old(TimesOf(records)), walls[|walls| - 1], speed, |walls|)
  {
    var refTs := FullPasses(records, walls, speed);
    ghost var times := TimesOf(records);
    ReplayPass(records, count, refTs, last, speed);
    if count == 0 {
      assert forall i | 0 <= i < |records| :: records[i] in records;
      assert forall i | 0 <= i < |records| :: TimesOf(records)[i] == times[i];
      assert TimesOf(records) == times;
    }
  }

  /** Every pass over distinct records keeps their order. */
  lemma PassKeepsOrder(times: seq<real>, original: seq<real>, wall: real, speed: real, k: nat, i: nat, j: nat)
    requires OffsetsAre(times, original, wall, speed, k) && i < |times| && j < |times|
    requires original[i] <= original[j]
    ensures times[i] <= times[j]
  {
    ScaledKeepsOrder(original[i] - original[0], original[j] - original[0], speed, k);
  }

  /** A pass repeats the offsets of the one before exactly at speed one (or for an offset of zero). */
  lemma {:induction false} OffsetsRepeatIff(offset: real, speed: real, k: nat)
    requires speed > 0.0
    ensures Scaled(offset, speed, k + 1) == Scaled(offset, speed, k) <==> offset == 0.0 || speed == 1.0
  {
    DivisionFixedIff(Scaled(offset, speed, k), speed);
    if k > 0 {
      OffsetsRepeatIff(offset, speed, k - 1);
      DivisionFixedIff(Scaled(offset, speed, k - 1), speed);
    }
  }

  lemma ScaledDown(y: real, speed: real)
    requires y > 0.0 && speed < 1.0
    ensures y * speed < y
  {
    var d := 1.0 - speed;
    assert y * d > 0.0;
    assert y * speed + y * d == y;
  }

  lemma ScaledUp(y: real, speed: real)
    requires y > 0.0 && speed > 1.0
    ensures y * speed > y
  {
    var d := speed - 1.0;
    assert y * d > 0.0;
    assert y + y * d == y * speed;
  }

  lemma PositiveDivisionMoves(x: real, y: real, speed: real)
    requires y > 0.0 && y * speed == x
    ensures speed > 1.0 ==> y < x
    ensures speed < 1.0 ==> y > x
  {
    if speed > 1.0 {
      ScaledUp(y, speed);
    }
    if speed < 1.0 {
      ScaledDown(y, speed);
    }
  }

  lemma DivisionFixedIff(x: real, speed: real)
    requires speed > 0.0
    ensures x / speed == x <==> x == 0.0 || speed == 1.0
    ensures x / speed == 0.0 <==> x == 0.0
  {
    var y := x / speed;
    assert y * speed == x;
    if x > 0.0 {
      PositiveDivisionMoves(x, y, speed);
    } else if x < 0.0 {
      assert (-y) * speed == -x;
      PositiveDivisionMoves(-x, -y, speed);
    }
  }

  // ----- What repeating a record costs -----

  lemma {:induction false} ScaledSign(offset: real, speed: real, k: nat)
    requires speed > 0.0
    ensures offset > 0.0 ==> Scaled(offset, speed, k) > 0.0
    ensures offset == 0.0 ==> Scaled(offset, speed, k) == 0.0
    ensures offset < 0.0 ==> Scaled(offset, speed, k) < 0.0
  {
    if k > 0 {
      ScaledSign(offset, speed, k - 1);
      QuotientSign(Scaled(offset, speed, k - 1), speed);
    }
  }

  lemma QuotientSign(x: real, speed: real)
    requires speed > 0.0
    ensures x > 0.0 ==> x / speed > 0.0
    ensures x == 0.0 ==> x / speed == 0.0
    ensures x < 0.0 ==> x / speed < 0.0
  {
    assert x / speed * speed == x;
  }

  lemma RemapDifference(wall: real, refTs: real, speed: real, x: real, y: real)
    requires speed > 0.0
    ensures Remap(wall, refTs, speed, x) - Remap(wall, refTs, speed, y) == (x - y) / speed
  {
    assert (x - refTs) / speed - (y - refTs) / speed == (x - y) / speed;
  }

  /** Each further occurrence in a pass moves the record on, by the first move divided by speed once more. */
  lemma {:induction false} SharedRecordDrifts(wall: real, refTs: real, speed: real, ts: real, n: nat)
    requires speed > 0.0
    ensures Remapped(wall, refTs, speed, ts, n + 1) - Remapped(wall, refTs, speed, ts, n)
         == Scaled(Remap(wall, refTs, speed, ts) - ts, speed, n)
  {
    if n == 0 {
      OneRemap(wall, refTs, speed, ts);
    } else {
      SharedRecordDrifts(wall, refTs, speed, ts, n - 1);
      RemapDifference(wall, refTs, speed, Remapped(wall, refTs, speed, ts, n), Remapped(wall, refTs, speed, ts, n - 1));
    }
  }

  /** Where `n` occurrences leave the record, compared with where one leaves it. */
  lemma {:induction false} DriftSign(wall: real, refTs: real, speed: real, ts: real, n: nat)
    requires speed > 0.0 && n >= 2
    ensures var move := Remap(wall, refTs, speed, ts) - ts;
            var drift := Remapped(wall, refTs, speed, ts, n) - Remapped(wall, refTs, speed, ts, 1);
            && (move > 0.0 ==> drift > 0.0) && (move == 0.0 ==> drift == 0.0) && (move < 0.0 ==> drift < 0.0)
  {
    SharedRecordDrifts(wall, refTs, speed, ts, n - 1);
    ScaledSign(Remap(wall, refTs, speed, ts) - ts, speed, n - 1);
    if n > 2 {
      DriftSign(wall, refTs, speed, ts, n - 1);
    }
  }

  /** At any speed a repeated record ends a pass where a single occurrence would put it exactly if it does occur
      once or the pass leaves it where it is. */
  lemma SharingIsHarmlessIff(wall: real, refTs: real, speed: real, ts: real, n: nat)
    requires speed > 0.0 && n >= 1
    ensures Remapped(wall, refTs, speed, ts, n) == Remapped(wall, refTs, speed, ts, 1)
       <==> n == 1 || Remap(wall, refTs, speed, ts) == ts
  {
    if n >= 2 {
      DriftSign(wall, refTs, speed, ts, n);
    }
  }

  /** At speed one the pass leaves a record where it is only if it starts at its own reference time; otherwise n
      occurrences move it n times that distance. */
  lemma {:induction false} DriftAtSpeedOne(wall: real, refTs: real, ts: real, n: nat)
    ensures Remapped(wall, refTs, 1.0, ts, n) == ts + n as real * (wall - refTs)
    ensures Remap(wall, refTs, 1.0, ts) == ts <==> wall == refTs
  {
    if n == 0 {
      assert 0.0 * (wall - refTs) == 0.0;
    } else {
      DriftAtSpeedOne(wall, refTs, ts, n - 1);
      var m: real := (n - 1) as real;
      assert n as real == m + 1.0;
      assert (m + 1.0) * (wall - refTs) == m * (wall - refTs) + (wall - refTs);
    }
  }

  // ----- Repeated records and the order -----

  lemma {:induction false} EqualCountsKeepOrder(wall: real, refTs: real, speed: real, x: real, y: real, n: nat)
    requires speed > 0.0
    ensures x <= y <==> Remapped(wall, refTs, speed, x, n) <= Remapped(wall, refTs, speed, y, n)
  {
    if n > 0 {
      var a, b := Remapped(wall, refTs, speed, x, n - 1), Remapped(wall, refTs, speed, y, n - 1);
      EqualCountsKeepOrder(wall, refTs, speed, x, y, n - 1);
      RemapDifference(wall, refTs, speed, a, b);
      QuotientSign(a - b, speed);
    }
  }

  lemma {:induction false} RemappedTwice(wall: real, refTs: real, speed: real, ts: real, p: nat, n: nat)
    requires speed > 0.0
    ensures Remapped(wall, refTs, speed, ts, n + p)
         == Remapped(wall, refTs, speed, Remapped(wall, refTs, speed, ts, p), n)
  {
    if n > 0 {
      RemappedTwice(wall, refTs, speed, ts, p, n - 1);
    }
  }

  lemma FixedPoint(wall: real, refTs: real, speed: real) returns (ts: real)
    requires speed > 0.0 && speed != 1.0
    ensures Remap(wall, refTs, speed, ts) == ts
  {
    ts := (wall * speed - refTs) / (speed - 1.0);
    assert ts * (speed - 1.0) == wall * speed - refTs;
    assert (ts - refTs) / speed == ts - wall by {
      assert (ts - wall) * speed == ts - refTs;
    }
  }

  lemma UnitQuotient(speed: real)
    requires speed > 0.0
    ensures speed < 1.0 ==> 1.0 / speed > 1.0 && -1.0 / speed < -1.0
    ensures speed > 1.0 ==> 1.0 / speed < 1.0 && -1.0 / speed > -1.0
  {
    var q := 1.0 / speed;
    assert q * speed == 1.0;
    assert -1.0 / speed == -q;
    if speed < 1.0 {
      assert q > 0.0;
      PositiveDivisionMoves(1.0, q, speed);
    } else if speed > 1.0 {
      PositiveDivisionMoves(1.0, q, speed);
    }
  }

  /** Away from speed one a pass moves some time forward and some time back. */
  lemma SomeMove(wall: real, refTs: real, speed: real, forward: bool) returns (ts: real)
    requires speed > 0.0 && speed != 1.0
    ensures if forward then Remap(wall, refTs, speed, ts) > ts else Remap(wall, refTs, speed, ts) < ts
  {
    var fixed := FixedPoint(wall, refTs, speed);
    var d := if (speed < 1.0) == forward then 1.0 else -1.0;
    ts := fixed + d;
    RemapDifference(wall, refTs, speed, ts, fixed);
    UnitQuotient(speed);
  }

  lemma ManyMoves(wall: real, refTs: real, speed: real, ts: real, p: nat)
    requires speed > 0.0 && p >= 1
    ensures Remap(wall, refTs, speed, ts) > ts ==> Remapped(wall, refTs, speed, ts, p) > ts
    ensures Remap(wall, refTs, speed, ts) < ts ==> Remapped(wall, refTs, speed, ts, p) < ts
  {
    OneRemap(wall, refTs, speed, ts);
    if p >= 2 {
      DriftSign(wall, refTs, speed, ts, p);
    }
  }

  /** Away from speed one, unequal counts turn the order of some record with itself. */
  lemma UnequalCountsSwap(wall: real, refTs: real, speed: real, n: nat, m: nat) returns (ts: real)
    requires speed > 0.0 && speed != 1.0 && n != m
    ensures Remapped(wall, refTs, speed, ts, n) > Remapped(wall, refTs, speed, ts, m)
  {
    ts := SomeMove(wall, refTs, speed, n > m);
    if n > m {
      ManyMoves(wall, refTs, speed, ts, n - m);
      RemappedTwice(wall, refTs, speed, ts, n - m, m);
      EqualCountsKeepOrder(wall, refTs, speed, Remapped(wall, refTs, speed, ts, n - m), ts, m);
    } else {
      ManyMoves(wall, refTs, speed, ts, m - n);
      RemappedTwice(wall, refTs, speed, ts, m - n, n);
      EqualCountsKeepOrder(wall, refTs, speed, ts, Remapped(wall, refTs, speed, ts, m - n), n);
    }
  }

  /** A pass keeps a record that occurs `n` times before every later one that occurs `m` times. */
  ghost predicate CountsKeepOrder(wall: real, refTs: real, speed: real, n: nat, m: nat)
    requires speed > 0.0
  {
    forall x, y | x <= y :: Remapped(wall, refTs, speed, x, n) <= Remapped(wall, refTs, speed, y, m)
  }

  /** When a pass over repeated records keeps their order: away from speed one exactly for equal counts; at speed
      one exactly if the earlier record does not drift further than the later one. */
  lemma CountsKeepOrderIff(wall: real, refTs: real, speed: real, n: nat, m: nat)
    requires speed > 0.0
    ensures CountsKeepOrder(wall, refTs, speed, n, m) <==>
              if speed == 1.0 then n as real * (wall - refTs) <= m as real * (wall - refTs) else n == m
  {
    if speed == 1.0 {
      OrderAtSpeedOne(wall, refTs, n, m);
    } else if n == m {
      forall x, y | x <= y
        ensures Remapped(wall, refTs, speed, x, n) <= Remapped(wall, refTs, speed, y, m)
      {
        EqualCountsKeepOrder(wall, refTs, speed, x, y, n);
      }
    } else {
      var ts := UnequalCountsSwap(wall, refTs, speed, n, m);
      assert !(Remapped(wall, refTs, speed, ts, n) <= Remapped(wall, refTs, speed, ts, m));
    }
  }

  lemma OrderAtSpeedOne(wall: real, refTs: real, n: nat, m: nat)
    ensures CountsKeepOrder(wall, refTs, 1.0, n, m) <==> n as real * (wall - refTs) <= m as real * (wall - refTs)
  {
    forall x
      ensures Remapped(wall, refTs, 1.0, x, n) == x + n as real * (wall - refTs)
      ensures Remapped(wall, refTs, 1.0, x, m) == x + m as real * (wall - refTs)
    {
      DriftAtSpeedOne(wall, refTs, x, n);
      DriftAtSpeedOne(wall, refTs, x, m);
    }
    if CountsKeepOrder(wall, refTs, 1.0, n, m) {
      assert Remapped(wall, refTs, 1.0, 0.0, n) <= Remapped(wall, refTs, 1.0, 0.0, m);
    }
  }

  /** Two sorted records that a pass at speed one turns round: the first occurs twice. */
  lemma RepeatedRecordOvertakes()
    ensures Remapped(100.0, 0.0, 1.0, 0.0, 2) > Remapped(100.0, 0.0, 1.0, 1.0, 1)
  {
    DriftAtSpeedOne(100.0, 0.0, 0.0, 2);
    DriftAtSpeedOne(100.0, 0.0, 1.0, 1);
  }
}
