/** features/beaconing_features.py: inter-arrival statistics of each source and destination pair. */
module Beaconing {
  import opened Wrappers
  import opened OnlineStats

  // ----- The pair key -----

  function PairKey(src: string, dst: string): string {
    src + "->" + dst
  }

  predicate HasArrow(s: string) {
    exists i :: 0 <= i < |s| - 1 && s[i] == '-' && s[i + 1] == '>'
  }

  lemma LongerSourceHasArrow(src1: string, dst1: string, src2: string, dst2: string)
    requires PairKey(src1, dst1) == PairKey(src2, dst2) && |src1| < |src2|
    ensures HasArrow(src2)
  {
    var n := |src1|;
    assert PairKey(src1, dst1)[n] == '-' && PairKey(src1, dst1)[n + 1] == '>';
    assert PairKey(src2, dst2)[|src2|] == '-';
    assert forall i | 0 <= i < |src2| :: PairKey(src2, dst2)[i] == src2[i];
  }

  /** Pairs are kept apart as long as source addresses hold no arrow. */
  lemma PairKeyIsInjective(src1: string, dst1: string, src2: string, dst2: string)
    requires !HasArrow(src1) && !HasArrow(src2)
    ensures PairKey(src1, dst1) == PairKey(src2, dst2) <==> src1 == src2 && dst1 == dst2
  {
    var a, b := PairKey(src1, dst1), PairKey(src2, dst2);
    if a == b {
      if |src1| < |src2| {
        LongerSourceHasArrow(src1, dst1, src2, dst2);
      }
      if |src2| < |src1| {
        LongerSourceHasArrow(src2, dst2, src1, dst1);
      }
      assert src1 == a[..|src1|] && src2 == b[..|src2|];
      assert dst1 == a[|src1| + 2..] && dst2 == b[|src2| + 2..];
    }
  }

  lemma {:induction false} FirstArrow(s: string) returns (i: nat)
    requires HasArrow(s)
    ensures i < |s| - 1 && s[i] == '-' && s[i + 1] == '>' && !HasArrow(s[..i])
  {
    var j :| 0 <= j < |s| - 1 && s[j] == '-' && s[j + 1] == '>';
    i := j;
    if HasArrow(s[..i]) {
      i := FirstArrow(s[..i]);
      assert s[..j][..i] == s[..i];
    }
  }

  /** A source with an arrow shares its key with the source before the arrow. */
  lemma ArrowCollides(src: string, dst: string) returns (src2: string, dst2: string)
    requires HasArrow(src)
    ensures !HasArrow(src2) && src2 != src && PairKey(src, dst) == PairKey(src2, dst2)
  {
    var i := FirstArrow(src);
    src2, dst2 := src[..i], src[i + 2..] + "->" + dst;
    assert src == src[..i] + "->" + src[i + 2..];
  }

  /** Exactly the sources without an arrow share no key with another source without one. */
  lemma PairKeyIsInjectiveIff(src: string)
    ensures !HasArrow(src) <==>
              forall dst, src2, dst2 | !HasArrow(src2) && PairKey(src, dst) == PairKey(src2, dst2) ::
                src == src2 && dst == dst2
  {
    if HasArrow(src) {
      var src2, dst2 := ArrowCollides(src, "");
      assert PairKey(src, "") == PairKey(src2, dst2);
    } else {
      forall dst, src2, dst2 | !HasArrow(src2) && PairKey(src, dst) == PairKey(src2, dst2)
        ensures src == src2 && dst == dst2
      {
        PairKeyIsInjective(src, dst, src2, dst2);
      }
    }
  }

  // ----- What the statistics of one pair mean -----

  /** The gap between two consecutive arrivals, if the clock moved forward. */
  function GapOf(before: real, now: real): seq<real> {
    if now - before > 0.0 then [now - before] else []
  }

  /** The positive gaps between consecutive arrival times. */
  function PositiveGaps(times: seq<real>): seq<real> {
    if |times| < 2 then []
    else PositiveGaps(times[..|times| - 1]) + GapOf(times[|times| - 2], times[|times| - 1])
  }

  ghost predicate NonDecreasing(times: seq<real>) {
    forall i | 0 <= i < |times| - 1 :: times[i] <= times[i + 1]
  }

  lemma GapsSnoc(times: seq<real>, now: real)
    requires times != []
    ensures PositiveGaps(times + [now]) == PositiveGaps(times) + GapOf(times[|times| - 1], now)
  {
    var all := times + [now];
    assert all[..|all| - 1] == times;
    assert all[|all| - 1] == now && all[|all| - 2] == times[|times| - 1];
  }

  lemma GapsSum(times: seq<real>, now: real)
    requires times != []
    ensures var gap := now - times[|times| - 1];
            Sum(Itself(), PositiveGaps(times + [now]))
            == Sum(Itself(), PositiveGaps(times)) + if gap > 0.0 then gap else 0.0
  {
    var gap := now - times[|times| - 1];
    GapsSnoc(times, now);
    if gap > 0.0 {
      SumSnoc(Itself(), PositiveGaps(times), gap);
    } else {
      assert PositiveGaps(times) + [] == PositiveGaps(times);
    }
  }

  lemma NonDecreasingSnoc(times: seq<real>, now: real)
    requires times != [] && NonDecreasing(times + [now])
    ensures NonDecreasing(times) && times[|times| - 1] <= now
  {
    var all := times + [now];
    assert all[|times| - 1] <= all[|times| - 1 + 1];
    forall i | 0 <= i < |times| - 1
      ensures times[i] <= times[i + 1]
    {
      assert all[i] <= all[i + 1];
    }
  }

  /** Without clock regressions the gaps telescope; with them they can only add up to more. */
  lemma {:induction false} GapsTelescope(times: seq<real>)
    requires times != []
    ensures Sum(Itself(), PositiveGaps(times)) >= times[|times| - 1] - times[0]
    ensures NonDecreasing(times) ==> Sum(Itself(), PositiveGaps(times)) == times[|times| - 1] - times[0]
  {
    if |times| == 1 {
      assert PositiveGaps(times) == [];
    } else {
      var past, now := times[..|times| - 1], times[|times| - 1];
      assert times == past + [now];
      GapsTelescope(past);
      GapsSum(past, now);
      if NonDecreasing(times) {
        NonDecreasingSnoc(past, now);
      }
    }
  }

  /** The number of gaps times their mean is the time between first and last arrival. */
  ghost predicate TellsSpan(w: Moments, times: seq<real>)
    requires times != []
  {
    && w.count == |PositiveGaps(times)|
    && w.count as real * w.mean == times[|times| - 1] - times[0]
  }

  lemma DescriptionTellsSum(w: Moments, gaps: seq<real>)
    requires Describes(w, gaps)
    ensures w.count == |gaps| && w.count as real * w.mean == Sum(Itself(), gaps)
  {
  }

  lemma DescriptionTellsSpan(w: Moments, times: seq<real>)
    requires times != [] && NonDecreasing(times) && Describes(w, PositiveGaps(times))
    ensures TellsSpan(w, times)
  {
    DescriptionTellsSum(w, PositiveGaps(times));
    GapsTelescope(times);
  }

  /** With at least two positive gaps, the variance is zero exactly when all of them are equal. */
  ghost predicate TellsPeriodic(w: Moments, gaps: seq<real>) {
    && w.count == |gaps|
    && (|gaps| > 1 ==> if AllEqual(gaps, gaps[0]) then Variance(w) == 0.0 else Variance(w) > 0.0)
  }

  lemma DescriptionTellsPeriodic(w: Moments, gaps: seq<real>)
    requires Describes(w, gaps)
    ensures TellsPeriodic(w, gaps)
  {
    if |gaps| > 1 {
      ZeroVarianceIff(w, gaps);
    }
  }

  /** The state of one pair, as a value. */
  datatype PairStats = PairStats(lastTime: real, moments: Moments)

  function StatsOf(times: seq<real>): PairStats
    requires times != []
  {
    PairStats(times[|times| - 1], MomentsOf(PositiveGaps(times)))
  }

  /** What the moments of a pair say about its arrival times: if they never decrease, how long the pair has
      been seen; and whether it is perfectly periodic. */
  lemma PairMeaning(times: seq<real>)
    requires times != []
    ensures NonDecreasing(times) ==> TellsSpan(StatsOf(times).moments, times)
    ensures TellsPeriodic(StatsOf(times).moments, PositiveGaps(times))
  {
    WelfordMeaning(PositiveGaps(times));
    DescriptionTellsPeriodic(StatsOf(times).moments, PositiveGaps(times));
    if NonDecreasing(times) {
      DescriptionTellsSpan(StatsOf(times).moments, times);
    }
  }

  lemma {:induction false} GapsArePositive(times: seq<real>)
    ensures forall i | 0 <= i < |PositiveGaps(times)| :: PositiveGaps(times)[i] > 0.0
  {
    if |times| >= 2 {
      GapsArePositive(times[..|times| - 1]);
    }
  }

  lemma {:induction false} PositiveSum(gaps: seq<real>)
    requires gaps != [] && forall i | 0 <= i < |gaps| :: gaps[i] > 0.0
    ensures Sum(Itself(), gaps) > 0.0
  {
    var init := gaps[..|gaps| - 1];
    if init == [] {
      assert Sum(Itself(), init) == 0.0;
    } else {
      PositiveSum(init);
    }
  }

  lemma PositiveFactor(n: real, mean: real)
    requires n > 0.0 && n * mean > 0.0
    ensures mean > 0.0
  {
    Quotient(n * mean, n);
    assert n * mean / n == mean;
  }

  lemma ZeroQuotientIff(root: real, variance: real, mean: real)
    requires root >= 0.0 && root * root == variance && mean > 0.0
    ensures root / mean == 0.0 <==> variance == 0.0
    ensures root / mean >= 0.0
  {
    Quotient(root, mean);
    assert variance == OnlineStats.Times(root, root);
    if root > 0.0 {
      PositiveProduct(root, root);
    } else {
      assert 0.0 * 0.0 == 0.0;
    }
  }

  /** The coefficient of variation of two or more positive gaps, `root` being the root of their variance: their
      mean is positive, and the coefficient is zero exactly when all gaps are equal. */
  lemma CvMeaning(w: Moments, gaps: seq<real>, root: real)
    requires |gaps| > 1 && Describes(w, gaps) && forall i | 0 <= i < |gaps| :: gaps[i] > 0.0
    requires root >= 0.0 && root * root == Variance(w)
    ensures w.mean > 0.0 && root / w.mean >= 0.0
    ensures root / w.mean == 0.0 <==> AllEqual(gaps, gaps[0])
  {
    DescriptionTellsSum(w, gaps);
    PositiveSum(gaps);
    PositiveFactor(w.count as real, w.mean);
    ZeroVarianceIff(w, gaps);
    ZeroQuotientIff(root, Variance(w), w.mean);
  }

  // ----- Runs of the extractor -----

  /** What an arrival at time `now` does to a pair already known. */
  function Advanced(s: PairStats, now: real): PairStats {
    PairStats(now, if now - s.lastTime > 0.0 then Updated(s.moments, now - s.lastTime) else s.moments)
  }

  lemma StatsSnoc(times: seq<real>, now: real)
    requires times != []
    ensures StatsOf(times + [now]) == Advanced(StatsOf(times), now)
  {
    var gap := now - times[|times| - 1];
    GapsSnoc(times, now);
    if gap > 0.0 {
      MomentsSnoc(PositiveGaps(times), gap);
    } else {
      assert PositiveGaps(times) + [] == PositiveGaps(times);
    }
  }

  /** What happens to the extractor: a packet of a pair, or a sweep. */
  datatype Event = Arrival(pair: string, now: real) | Sweep(now: real, ttl: real)

  function Arrived(m: map<string, PairStats>, pair: string, now: real): map<string, PairStats> {
    m[pair := if pair in m then Advanced(m[pair], now) else PairStats(now, Moments(0, 0.0, 0.0))]
  }

  function Swept(m: map<string, PairStats>, now: real, ttl: real): map<string, PairStats> {
    map p | p in m && !(now - m[p].lastTime > ttl) :: m[p]
  }

  function Run(events: seq<Event>): map<string, PairStats> {
    if events == [] then map[]
    else
      var m := Run(events[..|events| - 1]);
      match events[|events| - 1]
      case Arrival(pair, now) => Arrived(m, pair, now)
      case Sweep(now, ttl) => Swept(m, now, ttl)
  }

  lemma RunArrival(events: seq<Event>, pair: string, now: real)
    ensures Run(events + [Arrival(pair, now)]) == Arrived(Run(events), pair, now)
  {
    assert (events + [Arrival(pair, now)])[..|events|] == events;
  }

  lemma RunSweep(events: seq<Event>, now: real, ttl: real)
    ensures Run(events + [Sweep(now, ttl)]) == Swept(Run(events), now, ttl)
  {
    assert (events + [Sweep(now, ttl)])[..|events|] == events;
  }

  /** The reference: the arrival times of each pair since it was last created. */
  function Times(events: seq<Event>): map<string, seq<real>> {
    if events == [] then map[]
    else
      var m := Times(events[..|events| - 1]);
      match events[|events| - 1]
      case Arrival(pair, now) => m[pair := (if pair in m then m[pair] else []) + [now]]
      case Sweep(now, ttl) => map p | p in m && (m[p] == [] || !(now - m[p][|m[p]| - 1] > ttl)) :: m[p]
  }

  /** On every run a pair's state sums up exactly its arrival times since it was last created. */
  ghost predicate SumsUp(m: map<string, PairStats>, times: map<string, seq<real>>) {
    && m.Keys == times.Keys
    && forall p | p in times :: times[p] != [] && m[p] == StatsOf(times[p])
  }

  lemma ArrivalSumsUp(m: map<string, PairStats>, times: map<string, seq<real>>, pair: string, now: real)
    requires SumsUp(m, times)
    ensures SumsUp(Arrived(m, pair, now), times[pair := (if pair in times then times[pair] else []) + [now]])
  {
    if pair in times {
      StatsSnoc(times[pair], now);
    } else {
      assert [] + [now] == [now];
      assert PositiveGaps([now]) == [];
    }
  }

  lemma {:induction false} RunSumsUp(events: seq<Event>)
    ensures SumsUp(Run(events), Times(events))
  {
    if events != [] {
      var past := events[..|events| - 1];
      RunSumsUp(past);
      match events[|events| - 1]
      case Arrival(pair, now) => ArrivalSumsUp(Run(past), Times(past), pair, now);
      case Sweep(now, ttl) =>
    }
  }

  /** On every run the moments of a live pair tell its period. */
  lemma RunTellsPeriod(events: seq<Event>, pair: string)
    requires pair in Run(events)
    ensures pair in Times(events) && Times(events)[pair] != []
    ensures var w, times := Run(events)[pair].moments, Times(events)[pair];
            && (NonDecreasing(times) ==> TellsSpan(w, times))
            && TellsPeriodic(w, PositiveGaps(times))
  {
    RunSumsUp(events);
    PairMeaning(Times(events)[pair]);
  }

  /** So on every run a pair with two or more positive gaps has coefficient zero exactly if it is perfectly
      periodic. */
  lemma RunTellsCv(events: seq<Event>, pair: string, root: real)
    requires pair in Run(events) && root >= 0.0 && root * root == Variance(Run(events)[pair].moments)
    requires Run(events)[pair].moments.count > 1
    ensures pair in Times(events)
    ensures var w, gaps := Run(events)[pair].moments, PositiveGaps(Times(events)[pair]);
            && |gaps| > 1 && w.mean > 0.0
            && (root / w.mean == 0.0 <==> AllEqual(gaps, gaps[0]))
  {
    RunSumsUp(events);
    var gaps := PositiveGaps(Times(events)[pair]);
    WelfordMeaning(gaps);
    GapsArePositive(Times(events)[pair]);
    CvMeaning(Run(events)[pair].moments, gaps, root);
  }

  // ----- The class -----

  datatype PairState = PairState(lastTime: real, welford: Welford)

  datatype Features = Features(meanIat: real, iatCv: real, dstFanIn: Option<int>)

  ghost function WelfordsOf(iats: map<string, PairState>): set<Welford> {
    set p | p in iats :: iats[p].welford
  }

  ghost function StatsAt(s: PairState): PairStats
    reads s.welford
  {
    PairStats(s.lastTime, s.welford.Abs())
  }

  /** The dictionary of records stands for the map `m`. */
  ghost predicate StandsFor(iats: map<string, PairState>, m: map<string, PairStats>)
    reads WelfordsOf(iats)
  {
    && iats.Keys == m.Keys
    && forall p | p in iats :: StatsAt(iats[p]) == m[p]
  }

  ghost predicate Unshared(iats: map<string, PairState>) {
    forall p, q | p in iats && q in iats && p != q :: iats[p].welford != iats[q].welford
  }

  /** The mean and the coefficient of variation of a pair with at least two positive gaps, zero otherwise. */
  predicate Reports(f: Features, root: real -> real, m: map<string, PairStats>, pair: string) {
    var w := if pair in m then m[pair].moments else Moments(0, 0.0, 0.0);
    && f.meanIat == (if w.count > 1 then w.mean else 0.0)
    && f.iatCv == (if w.count > 1 && w.mean > 0.0 then root(Variance(w)) / w.mean else 0.0)
  }

  /** The report is about these gaps: for two or more, their mean and the root of their sample variance over it;
      nothing for fewer. */
  ghost predicate TellsGaps(f: Features, root: real -> real, gaps: seq<real>) {
    if |gaps| < 2 then f.meanIat == 0.0 && f.iatCv == 0.0
    else
      && f.meanIat * |gaps| as real == Sum(Itself(), gaps)
      && f.iatCv * f.meanIat == root(Sum(Deviation(f.meanIat), gaps) / (|gaps| as real - 1.0))
  }

  lemma VarianceOf(w: Moments, gaps: seq<real>)
    requires Describes(w, gaps) && |gaps| >= 2
    ensures Variance(w) == Sum(Deviation(w.mean), gaps) / (|gaps| as real - 1.0)
  {
    VarianceMeaning(w, gaps);
    QuotientOf(Variance(w), |gaps| as real - 1.0, Sum(Deviation(w.mean), gaps));
  }

  lemma QuotientOf(q: real, b: real, a: real)
    requires b != 0.0 && q * b == a
    ensures q == a / b
  {
  }

  lemma MomentsTellGaps(f: Features, root: real -> real, w: Moments, gaps: seq<real>)
    requires |gaps| >= 2 && Describes(w, gaps) && forall i | 0 <= i < |gaps| :: gaps[i] > 0.0
    requires f.meanIat == w.mean && (w.mean > 0.0 ==> f.iatCv == root(Variance(w)) / w.mean)
    ensures TellsGaps(f, root, gaps)
  {
    DescriptionTellsSum(w, gaps);
    PositiveSum(gaps);
    PositiveFactor(w.count as real, w.mean);
    VarianceOf(w, gaps);
    QuotientTimes(root(Variance(w)), w.mean);
  }

  /** What the extractor reports about a pair is about its positive gaps since it was last created. */
  lemma ReportMeaning(f: Features, root: real -> real, events: seq<Event>, pair: string)
    requires Reports(f, root, Run(events), pair)
    ensures TellsGaps(f, root, if pair in Times(events) then PositiveGaps(Times(events)[pair]) else [])
  {
    RunSumsUp(events);
    if pair in Times(events) {
      var gaps := PositiveGaps(Times(events)[pair]);
      WelfordMeaning(gaps);
      GapsArePositive(Times(events)[pair]);
      if |gaps| >= 2 {
        MomentsTellGaps(f, root, Run(events)[pair].moments, gaps);
      }
    }
  }

  class BeaconingFeatureExtractor {
    var flowIats: map<string, PairState>
    const dstFanIn: CountMinSketch
    /** The square root. */
    const root: real -> real
    ghost var events: seq<Event>

    /** Each pair has its own record, and the records are those the events produce. */
    ghost predicate Valid()
      reads this, WelfordsOf(flowIats), dstFanIn
    {
      && dstFanIn.Valid()
      && Unshared(flowIats)
      && StandsFor(flowIats, Run(events))
    }

    constructor (hash: Hash, root: real -> real)
      ensures Valid() && events == [] && flowIats == map[] && this.root == root
      ensures fresh(dstFanIn) && dstFanIn.items == [] && dstFanIn.width == 512 && dstFanIn.depth == 3
      ensures dstFanIn.hash == hash
    {
      flowIats, events, this.root := map[], [], root;
      dstFanIn := new CountMinSketch(512, 3, hash);
    }

    method Update(src: string, dst: string, currentTime: real)
      requires Valid()
      modifies this, WelfordsOf(flowIats), dstFanIn
      ensures Valid() && fresh(WelfordsOf(flowIats) - old(WelfordsOf(flowIats)))
      ensures events == old(events) + [Arrival(PairKey(src, dst), currentTime)]
      ensures dstFanIn.items == old(dstFanIn.items) + [Item(dst, 1)]
    {
      var pair := PairKey(src, dst);
      RunArrival(events, pair, currentTime);
      TouchPair(pair, currentTime, Run(events));
      dstFanIn.Add(dst, 1);
      events := events + [Arrival(pair, currentTime)];
    }

    method TouchPair(pair: string, currentTime: real, ghost m: map<string, PairStats>)
      requires Unshared(flowIats) && StandsFor(flowIats, m)
      modifies this`flowIats, WelfordsOf(flowIats)
      ensures Unshared(flowIats) && StandsFor(flowIats, Arrived(m, pair, currentTime))
      ensures fresh(WelfordsOf(flowIats) - old(WelfordsOf(flowIats)))
    {
      if pair !in flowIats {
        StartPair(pair, currentTime, m);
      } else {
        AdvancePair(pair, currentTime, m);
      }
    }

    method StartPair(pair: string, currentTime: real, ghost m: map<string, PairStats>)
      requires Unshared(flowIats) && StandsFor(flowIats, m) && pair !in flowIats
      modifies this`flowIats
      ensures Unshared(flowIats) && StandsFor(flowIats, Arrived(m, pair, currentTime))
      ensures fresh(WelfordsOf(flowIats) - old(WelfordsOf(flowIats)))
    {
      var w := new Welford();
      flowIats := flowIats[pair := PairState(currentTime, w)];
    }

    method AdvancePair(pair: string, currentTime: real, ghost m: map<string, PairStats>)
      requires Unshared(flowIats) && StandsFor(flowIats, m) && pair in flowIats
      modifies this`flowIats, flowIats[pair].welford
      ensures Unshared(flowIats) && StandsFor(flowIats, Arrived(m, pair, currentTime))
      ensures WelfordsOf(flowIats) <= old(WelfordsOf(flowIats))
    {
      var state := AdvanceRecord(flowIats[pair], currentTime);
      forall p | p in flowIats && p != pair
        ensures StatsAt(flowIats[p]) == m[p]
      {
        assert old(StatsAt(flowIats[p])) == m[p];
      }
      assert StatsAt(state) == Arrived(m, pair, currentTime)[pair];
      flowIats := flowIats[pair := state];
    }

    method AdvanceRecord(state: PairState, currentTime: real) returns (state': PairState)
      modifies state.welford
      ensures state'.welford == state.welford
      ensures StatsAt(state') == Advanced(old(StatsAt(state)), currentTime)
    {
      var iat := currentTime - state.lastTime;
      if iat > 0.0 {
        state.welford.Update(iat);
      }
      state' := PairState(currentTime, state.welford);
    }

    /** The mean and coefficient of variation of a pair seen with at least two positive gaps, and the
        destination's estimated fan-in. */
    method Extract(src: string, dst: string) returns (f: Features)
      requires Valid()
      ensures var p := PairKey(src, dst);
              && Reports(f, root, Run(events), p)
              && f.dstFanIn == Estimate(dstFanIn.hash, dstFanIn.width, dstFanIn.items, dstFanIn.depth, dst)
    {
      var pair := PairKey(src, dst);
      var cv, mean := 0.0, 0.0;
      if pair in flowIats {
        var w := flowIats[pair].welford;
        assert StatsAt(flowIats[pair]) == Run(events)[pair];
        if w.count > 1 {
          mean := w.mean;
          if mean > 0.0 {
            cv := root(w.GetVariance()) / mean;
          }
        }
      }
      var fanIn := dstFanIn.Get(dst);
      f := Features(mean, cv, fanIn);
    }

    /** Drops exactly the pairs idle for longer than `ttl`; the state of the others is untouched. */
    method SweepStaleState(currentTime: real, ttl: real)
      requires Valid()
      modifies this`flowIats, this`events
      ensures Valid() && WelfordsOf(flowIats) <= old(WelfordsOf(flowIats))
      ensures events == old(events) + [Sweep(currentTime, ttl)]
    {
      ghost var m := Run(events);
      assert forall p | p in flowIats :: StatsAt(flowIats[p]) == m[p];
      var stale := set p | p in flowIats && currentTime - flowIats[p].lastTime > ttl;
      flowIats := flowIats - stale;
      events := events + [Sweep(currentTime, ttl)];
      assert events[..|events| - 1] == old(events);
      assert Run(events) == Swept(m, currentTime, ttl);
    }
  }
}
