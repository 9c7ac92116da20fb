/** features/scheduler.py with features/ddos_features.py and features/recon_scan_features.py: tumbling
  windows over one packet stream. */
module Scheduler {
  import opened Wrappers
  import Beaconing
  import LastSeen
  import OnlineStats

  datatype Packet = Packet(protocol: string, srcIp: string, dstIp: string, srcPort: int, dstPort: int,
                           tcpFlags: int, ipLen: int, origPkts: int)

  // ----- The DDoS extractor: counters of the open window, and per-destination averages -----

  datatype Counters = Counters(syn: nat, synAck: nat, ampReqBytes: int, ampResBytes: int)

  datatype DstState = DstState(pktEwma: real, byteEwma: real, lastTime: real)

  datatype Ddos = Ddos(counters: Counters, dst: map<string, DstState>)

  const ALPHA := 0.2

  function Ewma(value: real, x: int): real {
    ALPHA * x as real + (1.0 - ALPHA) * value
  }

  function Counted(c: Counters, p: Packet): Counters {
    Counters(c.syn + (if p.protocol == "TCP" && p.tcpFlags == 2 then 1 else 0),
             c.synAck + (if p.protocol == "TCP" && p.tcpFlags == 18 then 1 else 0),
             c.ampReqBytes + (if p.protocol == "UDP" && p.dstPort == 53 then p.ipLen else 0),
             c.ampResBytes + (if p.protocol == "UDP" && p.dstPort != 53 && p.srcPort == 53 then p.ipLen else 0))
  }

  function DstTouched(dst: map<string, DstState>, p: Packet, now: real): map<string, DstState> {
    dst[p.dstIp := if p.dstIp in dst
                   then DstState(Ewma(dst[p.dstIp].pktEwma, p.origPkts), Ewma(dst[p.dstIp].byteEwma, p.ipLen), now)
                   else DstState(p.origPkts as real, p.ipLen as real, now)]
  }

  function DdosUpdated(d: Ddos, p: Packet, now: real): Ddos {
    Ddos(Counted(d.counters, p), DstTouched(d.dst, p, now))
  }

  function DstSwept(dst: map<string, DstState>, now: real, ttl: real): map<string, DstState> {
    map k | k in dst && !(now - dst[k].lastTime > ttl) :: dst[k]
  }

  // ----- The recon extractor: cumulative counters -----

  datatype Recon = Recon(synCount: nat, totalTcpCount: nat)

  function ReconUpdated(r: Recon, p: Packet): Recon {
    if p.protocol == "TCP" then Recon(r.synCount + (if p.tcpFlags == 2 then 1 else 0), r.totalTcpCount + 1) else r
  }

  // ----- The windows -----

  datatype Kind = OneSecond | FiveSeconds | SixtySeconds

  datatype Sizes = Sizes(one: real, five: real, sixty: real)
  {
    function Of(k: Kind): real {
      match k case OneSecond => one case FiveSeconds => five case SixtySeconds => sixty
    }
  }

  /** When each window was last emitted or anchored; 0 before the first packet. */
  datatype Lasts = Lasts(one: real, five: real, sixty: real)
  {
    function Of(k: Kind): real {
      match k case OneSecond => one case FiveSeconds => five case SixtySeconds => sixty
    }
  }

  datatype State = State(lasts: Lasts, ddos: Ddos, recon: Recon)

  /** One packet and the time it is processed at. */
  datatype Arrival = Arrival(packet: Packet, now: real)

  predicate IsFlowProtocol(protocol: string) {
    protocol == "TCP" || protocol == "UDP" || protocol == "ICMP"
  }

  /** A first packet, or a clock that went back, anchors all windows at the present. */
  function Anchored(l: Lasts, now: real): Lasts {
    if l.one == 0.0 || now < l.one then Lasts(now, now, now) else l
  }

  predicate Fires(z: Sizes, l: Lasts, now: real, k: Kind) {
    now - Anchored(l, now).Of(k) >= z.Of(k)
  }

  function Advanced(z: Sizes, l: Lasts, now: real): Lasts {
    Lasts(if Fires(z, l, now, OneSecond) then now else Anchored(l, now).one,
          if Fires(z, l, now, FiveSeconds) then now else Anchored(l, now).five,
          if Fires(z, l, now, SixtySeconds) then now else Anchored(l, now).sixty)
  }

  /** The extractors after a packet, before the windows are checked. */
  function Fed(s: State, a: Arrival): State {
    State(s.lasts, if IsFlowProtocol(a.packet.protocol) then DdosUpdated(s.ddos, a.packet, a.now) else s.ddos,
          ReconUpdated(s.recon, a.packet))
  }

  /** The one-second emission resets the counters; the sixty-second emission sweeps the destinations
      against the boundary of the window it closes. */
  function Checked(z: Sizes, s: State, now: real): State {
    var counters := if Fires(z, s.lasts, now, OneSecond) then Counters(0, 0, 0, 0) else s.ddos.counters;
    var dst := if Fires(z, s.lasts, now, SixtySeconds)
               then DstSwept(s.ddos.dst, Anchored(s.lasts, now).sixty, 60.0) else s.ddos.dst;
    State(Advanced(z, s.lasts, now), Ddos(counters, dst), s.recon)
  }

  function Step(z: Sizes, s: State, a: Arrival): State {
    Checked(z, Fed(s, a), a.now)
  }

  function Run(z: Sizes, arrivals: seq<Arrival>): State {
    if arrivals == [] then State(Lasts(0.0, 0.0, 0.0), Ddos(Counters(0, 0, 0, 0), map[]), Recon(0, 0))
    else Step(z, Run(z, arrivals[..|arrivals| - 1]), arrivals[|arrivals| - 1])
  }

  // ----- Conservation -----

  datatype Measure = Syn | SynAck | AmpReq | AmpRes

  function Reading(m: Measure, c: Counters): int {
    match m case Syn => c.syn case SynAck => c.synAck case AmpReq => c.ampReqBytes case AmpRes => c.ampResBytes
  }

  /** What one packet is worth. */
  function Worth(m: Measure, p: Packet): int {
    match m
    case Syn => if p.protocol == "TCP" && p.tcpFlags == 2 then 1 else 0
    case SynAck => if p.protocol == "TCP" && p.tcpFlags == 18 then 1 else 0
    case AmpReq => if p.protocol == "UDP" && p.dstPort == 53 then p.ipLen else 0
    case AmpRes => if p.protocol == "UDP" && p.dstPort != 53 && p.srcPort == 53 then p.ipLen else 0
  }

  function Total(m: Measure, arrivals: seq<Arrival>): int {
    if arrivals == [] then 0
    else Total(m, arrivals[..|arrivals| - 1]) + Worth(m, arrivals[|arrivals| - 1].packet)
  }

  /** The readings reported by the one-second emissions so far, summed. */
  function Emitted(z: Sizes, m: Measure, arrivals: seq<Arrival>): int {
    if arrivals == [] then 0
    else
      var past, a := arrivals[..|arrivals| - 1], arrivals[|arrivals| - 1];
      var s := Run(z, past);
      Emitted(z, m, past) +
        if Fires(z, s.lasts, a.now, OneSecond) then Reading(m, Fed(s, a).ddos.counters) else 0
  }

  function TcpCount(arrivals: seq<Arrival>): nat {
    if arrivals == [] then 0
    else TcpCount(arrivals[..|arrivals| - 1]) + if arrivals[|arrivals| - 1].packet.protocol == "TCP" then 1 else 0
  }

  lemma FedReading(s: State, a: Arrival, m: Measure)
    ensures Reading(m, Fed(s, a).ddos.counters) == Reading(m, s.ddos.counters) + Worth(m, a.packet)
    ensures Fed(s, a).recon.synCount == s.recon.synCount + Worth(Syn, a.packet)
  {
  }

  /** Over every run, clock regressions included, what the one-second emissions report plus the open window
      is what the stream carried: SYNs, SYN-ACKs and amplification bytes.  For SYNs it also is what the
      recon extractor, which is never reset, has counted. */
  lemma {:induction false} Conservation(z: Sizes, m: Measure, arrivals: seq<Arrival>)
    ensures var s := Run(z, arrivals);
            && Emitted(z, m, arrivals) + Reading(m, s.ddos.counters) == Total(m, arrivals)
            && s.recon.synCount == Total(Syn, arrivals) && s.recon.totalTcpCount == TcpCount(arrivals)
            && Emitted(z, Syn, arrivals) + s.ddos.counters.syn == s.recon.synCount
  {
    if arrivals != [] {
      var past, a := arrivals[..|arrivals| - 1], arrivals[|arrivals| - 1];
      Conservation(z, m, past);
      FedReading(Run(z, past), a, m);
      FedReading(Run(z, past), a, Syn);
    }
  }

  // ----- The pace of the windows -----

  ghost predicate NoRegression(arrivals: seq<Arrival>) {
    forall i, j | 0 <= i < j < |arrivals| :: arrivals[i].now <= arrivals[j].now
  }

  function Emissions(z: Sizes, k: Kind, arrivals: seq<Arrival>): nat {
    if arrivals == [] then 0
    else
      var past, a := arrivals[..|arrivals| - 1], arrivals[|arrivals| - 1];
      Emissions(z, k, past) + if Fires(z, Run(z, past).lasts, a.now, k) then 1 else 0
  }

  /** `n` windows of this size, end to end. */
  function Span(n: nat, size: real): real {
    if n == 0 then 0.0 else Span(n - 1, size) + size
  }

  lemma {:induction false} SpanIsProduct(n: nat, size: real)
    ensures Span(n, size) == n as real * size
  {
    if n == 0 {
      assert 0.0 * size == 0.0;
    } else {
      SpanIsProduct(n - 1, size);
      var k: real := (n - 1) as real;
      assert n as real == k + 1.0;
      assert (k + 1.0) * size == k * size + size;
    }
  }

  ghost predicate Paced(z: Sizes, k: Kind, arrivals: seq<Arrival>)
    requires arrivals != []
  {
    var l, first, now := Run(z, arrivals).lasts, arrivals[0].now, arrivals[|arrivals| - 1].now;
    && l.one <= now && l.Of(k) <= now
    && Span(Emissions(z, k, arrivals), z.Of(k)) <= l.Of(k) - first
  }

  lemma FirstPaced(z: Sizes, k: Kind, a: Arrival)
    ensures Paced(z, k, [a])
  {
    assert [a][..0] == [];
    assert Run(z, [a]) == Step(z, Run(z, []), a);
    assert Emissions(z, k, [a]) == if Fires(z, Run(z, []).lasts, a.now, k) then 1 else 0;
  }

  lemma StepPaced(z: Sizes, k: Kind, past: seq<Arrival>, a: Arrival)
    requires past != [] && Paced(z, k, past) && past[|past| - 1].now <= a.now
    ensures Paced(z, k, past + [a])
  {
    var all := past + [a];
    assert all[..|all| - 1] == past;
  }

  /** While the clock does not go back, n emissions of a window take at least n times its size. */
  lemma {:induction false} WindowsArePaced(z: Sizes, k: Kind, arrivals: seq<Arrival>)
    requires arrivals != [] && NoRegression(arrivals)
    ensures Paced(z, k, arrivals)
    ensures Span(Emissions(z, k, arrivals), z.Of(k)) <= arrivals[|arrivals| - 1].now - arrivals[0].now
  {
    var past, a := arrivals[..|arrivals| - 1], arrivals[|arrivals| - 1];
    assert arrivals == past + [a];
    if past == [] {
      FirstPaced(z, k, a);
    } else {
      WindowsArePaced(z, k, past);
      StepPaced(z, k, past, a);
    }
  }

  // ----- The sweeps -----

  /** The events the beaconing extractor sees: every packet, and a sweep at every sixty-second emission. */
  function BeaconEvents(z: Sizes, arrivals: seq<Arrival>): seq<Beaconing.Event> {
    if arrivals == [] then []
    else
      var past, a := arrivals[..|arrivals| - 1], arrivals[|arrivals| - 1];
      var l := Run(z, past).lasts;
      BeaconEvents(z, past) + [Beaconing.Arrival(Beaconing.PairKey(a.packet.srcIp, a.packet.dstIp), a.now)] +
        if Fires(z, l, a.now, SixtySeconds) then [Beaconing.Sweep(Anchored(l, a.now).sixty, 120.0)] else []
  }

  lemma RunSnoc(z: Sizes, arrivals: seq<Arrival>, a: Arrival)
    ensures Run(z, arrivals + [a]) == Step(z, Run(z, arrivals), a)
    ensures var l := Run(z, arrivals).lasts;
            BeaconEvents(z, arrivals + [a]) == BeaconEvents(z, arrivals) +
              [Beaconing.Arrival(Beaconing.PairKey(a.packet.srcIp, a.packet.dstIp), a.now)] +
              if Fires(z, l, a.now, SixtySeconds) then [Beaconing.Sweep(Anchored(l, a.now).sixty, 120.0)] else []
  {
    assert (arrivals + [a])[..|arrivals|] == arrivals;
  }

  /** The two tables a sixty-second emission sweeps. */
  datatype Table = Destinations | Pairs

  function Ttl(table: Table): real {
    match table case Destinations => 60.0 case Pairs => 120.0
  }

  /** The key under which a table files a packet, if it does. */
  function KeyOf(table: Table, p: Packet): Option<string> {
    match table
    case Destinations =>
      if p.protocol == "TCP" || p.protocol == "UDP" || p.protocol == "ICMP" then Some(p.dstIp) else None
    case Pairs => Some(Beaconing.PairKey(p.srcIp, p.dstIp))
  }

  function DstTimes(dst: map<string, DstState>): map<string, real> {
    map k | k in dst :: dst[k].lastTime
  }

  function PairTimes(pairs: map<string, Beaconing.PairStats>): map<string, real> {
    map k | k in pairs :: pairs[k].lastTime
  }

  /** The keys a table holds after a run, each with its last time. */
  function Times(z: Sizes, table: Table, arrivals: seq<Arrival>): map<string, real> {
    match table
    case Destinations => DstTimes(Run(z, arrivals).ddos.dst)
    case Pairs => PairTimes(Beaconing.Run(BeaconEvents(z, arrivals)))
  }

  function StepOf(z: Sizes, table: Table, l: Lasts, a: Arrival): LastSeen.Step<string> {
    LastSeen.Step(KeyOf(table, a.packet), a.now,
                  if Fires(z, l, a.now, SixtySeconds)
                  then Some(LastSeen.KeepFrom(Anchored(l, a.now).sixty - Ttl(table))) else None)
  }

  lemma DstStep(z: Sizes, s: State, a: Arrival)
    ensures var step := StepOf(z, Destinations, s.lasts, a);
            DstTimes(Step(z, s, a).ddos.dst)
            == LastSeen.Swept(LastSeen.Touched(DstTimes(s.ddos.dst), step), step.sweep)
    ensures forall k | k in Step(z, s, a).ddos.dst :: Step(z, s, a).ddos.dst[k] == Fed(s, a).ddos.dst[k]
  {
    assert DstTimes(Fed(s, a).ddos.dst)
        == LastSeen.Touched(DstTimes(s.ddos.dst), StepOf(z, Destinations, s.lasts, a));
  }

  lemma PairStep(z: Sizes, s: State, events: seq<Beaconing.Event>, a: Arrival)
    ensures var step := StepOf(z, Pairs, s.lasts, a);
            var arrival := Beaconing.Arrival(Beaconing.PairKey(a.packet.srcIp, a.packet.dstIp), a.now);
            var sweep := if Fires(z, s.lasts, a.now, SixtySeconds)
                         then [Beaconing.Sweep(Anchored(s.lasts, a.now).sixty, 120.0)] else [];
            PairTimes(Beaconing.Run(events + [arrival] + sweep))
            == LastSeen.Swept(LastSeen.Touched(PairTimes(Beaconing.Run(events)), step), step.sweep)
  {
    var step, m := StepOf(z, Pairs, s.lasts, a), Beaconing.Run(events);
    var pair := Beaconing.PairKey(a.packet.srcIp, a.packet.dstIp);
    var arrived := Beaconing.Arrived(m, pair, a.now);
    Beaconing.RunArrival(events, pair, a.now);
    assert PairTimes(arrived) == LastSeen.Touched(PairTimes(m), step);
    if Fires(z, s.lasts, a.now, SixtySeconds) {
      Beaconing.RunSweep(events + [Beaconing.Arrival(pair, a.now)], Anchored(s.lasts, a.now).sixty, 120.0);
    } else {
      assert events + [Beaconing.Arrival(pair, a.now)] + [] == events + [Beaconing.Arrival(pair, a.now)];
    }
  }

  lemma TimesStep(z: Sizes, table: Table, past: seq<Arrival>, a: Arrival)
    ensures var step := StepOf(z, table, Run(z, past).lasts, a);
            Times(z, table, past + [a]) == LastSeen.Swept(LastSeen.Touched(Times(z, table, past), step), step.sweep)
  {
    RunSnoc(z, past, a);
    match table
    case Destinations => DstStep(z, Run(z, past), a);
    case Pairs => PairStep(z, Run(z, past), BeaconEvents(z, past), a);
  }

  function Steps(z: Sizes, table: Table, arrivals: seq<Arrival>): seq<LastSeen.Step<string>> {
    seq(|arrivals|, i requires 0 <= i < |arrivals| => StepOf(z, table, Run(z, arrivals[..i]).lasts, arrivals[i]))
  }

  lemma StepsInit(z: Sizes, table: Table, arrivals: seq<Arrival>)
    requires arrivals != []
    ensures Steps(z, table, arrivals)[..|arrivals| - 1] == Steps(z, table, arrivals[..|arrivals| - 1])
  {
    assert forall i | 0 <= i < |arrivals| - 1 :: arrivals[..|arrivals| - 1][..i] == arrivals[..i];
  }

  lemma {:induction false} TimesAreSeen(z: Sizes, table: Table, arrivals: seq<Arrival>)
    ensures Times(z, table, arrivals) == LastSeen.Seen(Steps(z, table, arrivals))
  {
    if arrivals == [] {
      assert Times(z, table, arrivals) == map[];
    } else {
      var past, a := arrivals[..|arrivals| - 1], arrivals[|arrivals| - 1];
      assert arrivals == past + [a];
      TimesAreSeen(z, table, past);
      StepsInit(z, table, arrivals);
      TimesStep(z, table, past, a);
    }
  }

  // ----- The boundaries -----

  /** Arrival `e` makes the window fire. */
  predicate Emits(z: Sizes, arrivals: seq<Arrival>, k: Kind, e: nat)
    requires e < |arrivals|
  {
    Fires(z, Run(z, arrivals[..e]).lasts, arrivals[e].now, k)
  }

  /** Arrival `e` anchors all windows: it is the first one, or its clock went back. */
  predicate Anchors(z: Sizes, arrivals: seq<Arrival>, e: nat)
    requires e < |arrivals|
  {
    Run(z, arrivals[..e]).lasts.one == 0.0 || arrivals[e].now < Run(z, arrivals[..e]).lasts.one
  }

  /** The boundary an emission at arrival `e` sweeps against. */
  function BoundaryAt(z: Sizes, arrivals: seq<Arrival>, e: nat): real
    requires e < |arrivals|
  {
    Anchored(Run(z, arrivals[..e]).lasts, arrivals[e].now).sixty
  }

  /** Arrival `j` is the last one that anchored the windows or made the window `k` fire. */
  ghost predicate IsLastMark(z: Sizes, arrivals: seq<Arrival>, k: Kind, j: nat) {
    && j < |arrivals| && (Anchors(z, arrivals, j) || Emits(z, arrivals, k, j))
    && forall e | j < e < |arrivals| :: !Anchors(z, arrivals, e) && !Emits(z, arrivals, k, e)
  }

  lemma MarkInPrefix(z: Sizes, arrivals: seq<Arrival>, k: Kind, n: nat, e: nat)
    requires e < n <= |arrivals|
    ensures Anchors(z, arrivals[..n], e) == Anchors(z, arrivals, e)
    ensures Emits(z, arrivals[..n], k, e) == Emits(z, arrivals, k, e)
  {
    assert arrivals[..n][..e] == arrivals[..e];
  }

  lemma LastMarkInit(z: Sizes, arrivals: seq<Arrival>, k: Kind, j: nat)
    requires j < |arrivals| - 1
    ensures var n := |arrivals| - 1;
            IsLastMark(z, arrivals, k, j) <==>
              && IsLastMark(z, arrivals[..n], k, j)
              && !Anchors(z, arrivals, n) && !Emits(z, arrivals, k, n)
  {
    var n := |arrivals| - 1;
    forall e | 0 <= e < n
      ensures Anchors(z, arrivals[..n], e) == Anchors(z, arrivals, e)
      ensures Emits(z, arrivals[..n], k, e) == Emits(z, arrivals, k, e)
    {
      MarkInPrefix(z, arrivals, k, n, e);
    }
  }

  lemma {:induction false} LastMarkIsLast(z: Sizes, arrivals: seq<Arrival>, k: Kind, j: nat)
    requires IsLastMark(z, arrivals, k, j)
    ensures var l := Run(z, arrivals).lasts;
            (match k case OneSecond => l.one case FiveSeconds => l.five case SixtySeconds => l.sixty)
            == arrivals[j].now
  {
    var n := |arrivals| - 1;
    if j < n {
      LastMarkInit(z, arrivals, k, j);
      LastMarkIsLast(z, arrivals[..n], k, j);
    }
  }

  /** What the boundary is, in terms of the run: the time of the previous emission or anchor. */
  lemma BoundaryMeaning(z: Sizes, arrivals: seq<Arrival>, e: nat, j: nat)
    requires e < |arrivals| && !Anchors(z, arrivals, e) && IsLastMark(z, arrivals[..e], SixtySeconds, j)
    ensures BoundaryAt(z, arrivals, e) == arrivals[j].now
  {
    LastMarkIsLast(z, arrivals[..e], SixtySeconds, j);
  }

  lemma {:induction false} LastMark(z: Sizes, arrivals: seq<Arrival>, k: Kind) returns (j: nat)
    requires arrivals != []
    ensures IsLastMark(z, arrivals, k, j)
  {
    var n := |arrivals| - 1;
    if Anchors(z, arrivals, n) || Emits(z, arrivals, k, n) {
      j := n;
    } else {
      assert n > 0 by {
        assert Run(z, arrivals[..0]).lasts.one == 0.0;
      }
      j := LastMark(z, arrivals[..n], k);
      LastMarkInit(z, arrivals, k, j);
    }
  }

  /** When all windows are anchored anew: at the first arrival, and when the clock is behind the last one-second
      emission or anchor (or that was at time zero). */
  lemma AnchorsIff(z: Sizes, arrivals: seq<Arrival>, e: nat)
    requires e < |arrivals|
    ensures e == 0 ==> Anchors(z, arrivals, e)
    ensures forall j: nat | IsLastMark(z, arrivals[..e], OneSecond, j) ::
              Anchors(z, arrivals, e) <==> arrivals[j].now == 0.0 || arrivals[e].now < arrivals[j].now
  {
    forall j: nat | IsLastMark(z, arrivals[..e], OneSecond, j)
      ensures Run(z, arrivals[..e]).lasts.one == arrivals[j].now
    {
      LastMarkIsLast(z, arrivals[..e], OneSecond, j);
    }
  }

  /** When a window fires: unless it has just been anchored, exactly when it is its size or more since it last fired
      or was anchored. */
  lemma EmitsIff(z: Sizes, arrivals: seq<Arrival>, k: Kind, e: nat)
    requires e < |arrivals|
    ensures var size := match k case OneSecond => z.one case FiveSeconds => z.five case SixtySeconds => z.sixty;
            && (Anchors(z, arrivals, e) ==> (Emits(z, arrivals, k, e) <==> size <= 0.0))
            && forall j: nat | IsLastMark(z, arrivals[..e], k, j) && !Anchors(z, arrivals, e) ::
                 Emits(z, arrivals, k, e) <==> arrivals[e].now - arrivals[j].now >= size
  {
    forall j: nat | IsLastMark(z, arrivals[..e], k, j)
      ensures Run(z, arrivals[..e]).lasts.Of(k) == arrivals[j].now
    {
      LastMarkIsLast(z, arrivals[..e], k, j);
    }
  }

  // ----- What the sweeps keep -----

  /** Arrival `i` is the latest one a table files under `key`. */
  ghost predicate IsLatest(table: Table, arrivals: seq<Arrival>, key: string, i: nat) {
    && i < |arrivals| && KeyOf(table, arrivals[i].packet) == Some(key)
    && forall j | i < j < |arrivals| :: KeyOf(table, arrivals[j].packet) != Some(key)
  }

  /** No sweep since arrival `i` found it older than the time to live before its boundary. */
  ghost predicate OutlivesSweeps(z: Sizes, table: Table, arrivals: seq<Arrival>, i: nat)
    requires i < |arrivals|
  {
    forall e | i <= e < |arrivals| && Emits(z, arrivals, SixtySeconds, e) ::
      arrivals[i].now >= BoundaryAt(z, arrivals, e) - Ttl(table)
  }

  lemma EmissionIsSweep(z: Sizes, table: Table, arrivals: seq<Arrival>, i: nat, e: nat)
    requires i <= e < |arrivals|
    ensures var steps := Steps(z, table, arrivals);
            && (Emits(z, arrivals, SixtySeconds, e) <==> steps[e].sweep.Some?)
            && (Emits(z, arrivals, SixtySeconds, e) ==>
                  (LastSeen.Keeps(steps[e].sweep.value, steps[i].at)
                   <==> arrivals[i].now >= BoundaryAt(z, arrivals, e) - Ttl(table)))
  {
  }

  lemma OutlivesIsSurvival(z: Sizes, table: Table, arrivals: seq<Arrival>, i: nat)
    requires i < |arrivals|
    ensures OutlivesSweeps(z, table, arrivals, i) <==> LastSeen.Survives(Steps(z, table, arrivals), i)
  {
    var steps := Steps(z, table, arrivals);
    if OutlivesSweeps(z, table, arrivals, i) {
      forall e | i <= e < |arrivals| && steps[e].sweep.Some?
        ensures LastSeen.Keeps(steps[e].sweep.value, steps[i].at)
      {
        EmissionIsSweep(z, table, arrivals, i, e);
      }
    }
    if LastSeen.Survives(steps, i) {
      forall e | i <= e < |arrivals| && Emits(z, arrivals, SixtySeconds, e)
        ensures arrivals[i].now >= BoundaryAt(z, arrivals, e) - Ttl(table)
      {
        EmissionIsSweep(z, table, arrivals, i, e);
        assert LastSeen.Keeps(steps[e].sweep.value, steps[i].at);
      }
    }
  }

  lemma LatestIsLastTouch(z: Sizes, table: Table, arrivals: seq<Arrival>, key: string, i: nat)
    requires IsLatest(table, arrivals, key, i)
    ensures LastSeen.IsLastTouch(Steps(z, table, arrivals), key, i)
  {
  }

  /** On every run, clock regressions included: a destination (or pair) is in its table exactly if its latest
      arrival outlives every sixty-second sweep since, and it is filed with the time of that arrival. */
  lemma KeptIff(z: Sizes, table: Table, arrivals: seq<Arrival>, key: string, i: nat)
    requires IsLatest(table, arrivals, key, i)
    ensures key in Times(z, table, arrivals) <==> OutlivesSweeps(z, table, arrivals, i)
    ensures key in Times(z, table, arrivals) ==> Times(z, table, arrivals)[key] == arrivals[i].now
  {
    TimesAreSeen(z, table, arrivals);
    LatestIsLastTouch(z, table, arrivals, key, i);
    OutlivesIsSurvival(z, table, arrivals, i);
    LastSeen.SeenLast(Steps(z, table, arrivals), key, i);
  }

  lemma NeverFiledNotKept(z: Sizes, table: Table, arrivals: seq<Arrival>, key: string)
    requires forall i | 0 <= i < |arrivals| :: KeyOf(table, arrivals[i].packet) != Some(key)
    ensures key !in Times(z, table, arrivals)
  {
    TimesAreSeen(z, table, arrivals);
    LastSeen.SeenNever(Steps(z, table, arrivals), key);
  }

  lemma {:induction false} LatestArrival(table: Table, arrivals: seq<Arrival>, key: string, j: nat) returns (i: nat)
    requires j < |arrivals| && KeyOf(table, arrivals[j].packet) == Some(key)
    ensures IsLatest(table, arrivals, key, i) && j <= i
  {
    var n := |arrivals| - 1;
    if KeyOf(table, arrivals[n].packet) == Some(key) {
      i := n;
    } else {
      i := LatestArrival(table, arrivals[..n], key, j);
    }
  }

  lemma PrefixNoRegression(arrivals: seq<Arrival>, n: nat)
    requires NoRegression(arrivals) && n <= |arrivals|
    ensures NoRegression(arrivals[..n])
  {
  }

  /** Without clock regressions a boundary is not after its emission, and boundaries do not go back. */
  lemma NextBoundary(z: Sizes, arrivals: seq<Arrival>, f: nat)
    requires NoRegression(arrivals) && 0 < f < |arrivals|
    ensures BoundaryAt(z, arrivals, f - 1) <= BoundaryAt(z, arrivals, f)
  {
    var past, a := arrivals[..f - 1], arrivals[f - 1];
    PrefixNoRegression(arrivals, f);
    WindowsArePaced(z, SixtySeconds, arrivals[..f]);
    assert arrivals[..f] == past + [a];
    RunSnoc(z, past, a);
    if f > 1 {
      PrefixNoRegression(arrivals, f - 1);
      WindowsArePaced(z, SixtySeconds, past);
    }
    assert arrivals[f - 1].now <= arrivals[f].now;
  }

  lemma {:induction false} BoundariesAdvance(z: Sizes, arrivals: seq<Arrival>, e: nat, f: nat)
    requires NoRegression(arrivals) && e <= f < |arrivals|
    ensures BoundaryAt(z, arrivals, e) <= BoundaryAt(z, arrivals, f)
  {
    if e < f {
      BoundariesAdvance(z, arrivals, e, f - 1);
      NextBoundary(z, arrivals, f);
    }
  }

  /** Some arrival filed under `key` is no older than the time to live before `boundary`. */
  ghost predicate SeenSince(table: Table, arrivals: seq<Arrival>, key: string, boundary: real) {
    exists i :: && 0 <= i < |arrivals| && KeyOf(table, arrivals[i].packet) == Some(key)
                && arrivals[i].now >= boundary - Ttl(table)
  }

  /** Without clock regressions, after a sixty-second emission a table holds exactly what arrived no earlier
      than its time to live before the previous boundary: the time of the emission or anchor before this one. */
  lemma SweepIsAgainstPreviousBoundary(z: Sizes, table: Table, arrivals: seq<Arrival>, key: string)
    requires arrivals != [] && NoRegression(arrivals) && Emits(z, arrivals, SixtySeconds, |arrivals| - 1)
    ensures key in Times(z, table, arrivals) <==>
              SeenSince(table, arrivals, key, BoundaryAt(z, arrivals, |arrivals| - 1))
  {
    var n := |arrivals| - 1;
    if j: nat :| j < |arrivals| && KeyOf(table, arrivals[j].packet) == Some(key) {
      var i := LatestArrival(table, arrivals, key, j);
      KeptIff(z, table, arrivals, key, i);
      LastSweepDecides(z, table, arrivals, i);
      assert forall j | 0 <= j <= i :: arrivals[j].now <= arrivals[i].now;
    } else {
      NeverFiledNotKept(z, table, arrivals, key);
    }
  }

  lemma LastSweepDecides(z: Sizes, table: Table, arrivals: seq<Arrival>, i: nat)
    requires i < |arrivals| && NoRegression(arrivals) && Emits(z, arrivals, SixtySeconds, |arrivals| - 1)
    ensures OutlivesSweeps(z, table, arrivals, i) <==>
              arrivals[i].now >= BoundaryAt(z, arrivals, |arrivals| - 1) - Ttl(table)
  {
    forall e | i <= e < |arrivals|
      ensures BoundaryAt(z, arrivals, e) <= BoundaryAt(z, arrivals, |arrivals| - 1)
    {
      BoundariesAdvance(z, arrivals, e, |arrivals| - 1);
    }
  }

  // ----- How long a swept key can live -----

  /** Consecutive arrivals are at most `gap` apart. */
  ghost predicate GapsWithin(arrivals: seq<Arrival>, gap: real) {
    forall i | 0 < i < |arrivals| :: arrivals[i].now - arrivals[i - 1].now <= gap
  }

  /** The open sixty-second window is younger than its size, and no key is older than its time to live, a
      window and a gap before that window. */
  ghost predicate Young(z: Sizes, table: Table, arrivals: seq<Arrival>, gap: real)
    requires arrivals != []
  {
    var l, now, times := Run(z, arrivals).lasts, arrivals[|arrivals| - 1].now, Times(z, table, arrivals);
    && 0.0 < l.one <= now && l.sixty <= now < l.sixty + z.sixty
    && forall k | k in times :: times[k] >= l.sixty - z.sixty - gap - Ttl(table)
  }

  lemma YoungStep(z: Sizes, table: Table, past: seq<Arrival>, a: Arrival, gap: real)
    requires z.sixty > 0.0 && past != [] && Young(z, table, past, gap)
    requires past[|past| - 1].now <= a.now <= past[|past| - 1].now + gap
    ensures Young(z, table, past + [a], gap)
  {
    RunSnoc(z, past, a);
    TimesStep(z, table, past, a);
  }

  lemma YoungFirst(z: Sizes, table: Table, a: Arrival, gap: real)
    requires z.sixty > 0.0 && a.now > 0.0 && gap >= 0.0
    ensures Young(z, table, [a], gap)
  {
    assert [] + [a] == [a];
    RunSnoc(z, [], a);
    TimesStep(z, table, [], a);
    assert Times(z, table, []) == map[];
  }

  lemma {:induction false} StaysYoung(z: Sizes, table: Table, arrivals: seq<Arrival>, gap: real)
    requires z.sixty > 0.0 && gap >= 0.0 && arrivals != [] && arrivals[0].now > 0.0
    requires NoRegression(arrivals) && GapsWithin(arrivals, gap)
    ensures Young(z, table, arrivals, gap)
  {
    var n := |arrivals| - 1;
    assert arrivals == arrivals[..n] + [arrivals[n]];
    if n == 0 {
      YoungFirst(z, table, arrivals[0], gap);
    } else {
      PrefixNoRegression(arrivals, n);
      StaysYoung(z, table, arrivals[..n], gap);
      assert arrivals[n - 1].now <= arrivals[n].now <= arrivals[n - 1].now + gap;
      YoungStep(z, table, arrivals[..n], arrivals[n], gap);
    }
  }

  /** How long an idle key can stay: less than its time to live, two windows and the longest gap between
      packets. */
  lemma IdleLifetime(z: Sizes, table: Table, arrivals: seq<Arrival>, gap: real, key: string)
    requires z.sixty > 0.0 && gap >= 0.0 && arrivals != [] && arrivals[0].now > 0.0
    requires NoRegression(arrivals) && GapsWithin(arrivals, gap)
    requires key in Times(z, table, arrivals)
    ensures arrivals[|arrivals| - 1].now - Times(z, table, arrivals)[key] < Ttl(table) + 2.0 * z.sixty + gap
  {
    StaysYoung(z, table, arrivals, gap);
  }

  /** The gap cannot be left out: however long the pause after a first packet, the emission that ends it
      sweeps against that packet's own time and keeps it. */
  lemma PauseKeepsKey(z: Sizes, table: Table, first: Arrival, other: Arrival, key: string)
    requires z.sixty > 0.0 && first.now > 0.0 && other.now - first.now >= z.sixty
    requires KeyOf(table, first.packet) == Some(key) && KeyOf(table, other.packet) != Some(key)
    ensures Emits(z, [first, other], SixtySeconds, 1)
    ensures key in Times(z, table, [first, other]) && Times(z, table, [first, other])[key] == first.now
  {
    var both := [first, other];
    assert [] + [first] == [first] && both == [first] + [other] && both[..1] == [first];
    RunSnoc(z, [], first);
    TimesStep(z, table, [], first);
    TimesStep(z, table, [first], other);
  }

  // ----- The classes -----

  function Ratio(a: int, b: int): real {
    a as real / (if b < 1 then 1 else b) as real
  }

  datatype DdosFeatures = DdosFeatures(dstPktEwma: real, dstByteEwma: real, synSynackRatio: real, ampByteRatio: real)

  function DdosFeaturesOf(d: Ddos, dstIp: string): DdosFeatures {
    DdosFeatures(if dstIp in d.dst then d.dst[dstIp].pktEwma else 0.0,
                 if dstIp in d.dst then d.dst[dstIp].byteEwma else 0.0,
                 Ratio(d.counters.syn, d.counters.synAck), Ratio(d.counters.ampResBytes, d.counters.ampReqBytes))
  }

  datatype ReconFeatures = ReconFeatures(synOnlyRatio: real, scanActivityScore: real)

  function ReconFeaturesOf(r: Recon): ReconFeatures {
    var ratio := Ratio(r.synCount, r.totalTcpCount);
    ReconFeatures(ratio, ratio * r.synCount as real)
  }

  // ----- What a one-second emission reports -----

  /** Where the open one-second window begins: right after its last emission. */
  function OpenFrom(z: Sizes, arrivals: seq<Arrival>): (n: nat)
    ensures n <= |arrivals|
  {
    if arrivals == [] then 0
    else if Emits(z, arrivals, OneSecond, |arrivals| - 1) then |arrivals|
    else OpenFrom(z, arrivals[..|arrivals| - 1])
  }

  lemma TotalSnoc(m: Measure, arrivals: seq<Arrival>, a: Arrival)
    ensures Total(m, arrivals + [a]) == Total(m, arrivals) + Worth(m, a.packet)
    ensures TcpCount(arrivals + [a]) == TcpCount(arrivals) + if a.packet.protocol == "TCP" then 1 else 0
  {
    assert (arrivals + [a])[..|arrivals|] == arrivals;
  }

  /** The counters are those of the arrivals since the last emission, and nothing else. */
  lemma {:induction false} CountersMeaning(z: Sizes, m: Measure, arrivals: seq<Arrival>)
    ensures Reading(m, Run(z, arrivals).ddos.counters) == Total(m, arrivals[OpenFrom(z, arrivals)..])
  {
    if arrivals != [] {
      var past, a := arrivals[..|arrivals| - 1], arrivals[|arrivals| - 1];
      var from := OpenFrom(z, past);
      CountersMeaning(z, m, past);
      FedReading(Run(z, past), a, m);
      TotalSnoc(m, past[from..], a);
      assert arrivals[from..] == past[from..] + [a];
      assert arrivals[|arrivals|..] == [];
    }
  }

  function AtLeastOne(n: int): int { if n >= 1 then n else 1 }

  /** Times the denominator (one at least) the ratio gives the numerator. */
  ghost predicate IsRatio(q: real, a: int, b: int) {
    q * AtLeastOne(b) as real == a as real
  }

  lemma RatioTimes(a: int, b: int)
    ensures IsRatio(Ratio(a, b), a, b)
  {
  }

  /** The score is the ratio times the number of SYNs. */
  ghost predicate IsScore(score: real, q: real, syns: int) {
    score == q * syns as real
  }

  /** The ratios reported are those of the arrivals `slice`, and for recon of the whole stream `all`. */
  ghost predicate RatiosOf(f: DdosFeatures, r: ReconFeatures, slice: seq<Arrival>, all: seq<Arrival>) {
    && IsRatio(f.synSynackRatio, Total(Syn, slice), Total(SynAck, slice))
    && IsRatio(f.ampByteRatio, Total(AmpRes, slice), Total(AmpReq, slice))
    && IsRatio(r.synOnlyRatio, Total(Syn, all), TcpCount(all))
    && IsScore(r.scanActivityScore, r.synOnlyRatio, Total(Syn, all))
  }

  lemma FedCounters(z: Sizes, past: seq<Arrival>, a: Arrival, m: Measure)
    ensures Reading(m, Fed(Run(z, past), a).ddos.counters) == Total(m, past[OpenFrom(z, past)..] + [a])
  {
    CountersMeaning(z, m, past);
    FedReading(Run(z, past), a, m);
    TotalSnoc(m, past[OpenFrom(z, past)..], a);
  }

  lemma FedRecon(z: Sizes, past: seq<Arrival>, a: Arrival)
    ensures var r := Fed(Run(z, past), a).recon;
            r.synCount == Total(Syn, past + [a]) && r.totalTcpCount == TcpCount(past + [a])
  {
    Conservation(z, Syn, past);
    TotalSnoc(Syn, past, a);
  }

  lemma RatiosOfCounters(d: Ddos, r: Recon, dst: string, slice: seq<Arrival>, all: seq<Arrival>)
    requires d.counters.syn == Total(Syn, slice) && d.counters.synAck == Total(SynAck, slice)
    requires d.counters.ampReqBytes == Total(AmpReq, slice) && d.counters.ampResBytes == Total(AmpRes, slice)
    requires r.synCount == Total(Syn, all) && r.totalTcpCount == TcpCount(all)
    ensures RatiosOf(DdosFeaturesOf(d, dst), ReconFeaturesOf(r), slice, all)
  {
    assert IsRatio(Ratio(d.counters.syn, d.counters.synAck), d.counters.syn, d.counters.synAck) by {
      RatioTimes(d.counters.syn, d.counters.synAck);
    }
    var res, req := d.counters.ampResBytes, d.counters.ampReqBytes;
    assert IsRatio(Ratio(res, req), res, req) by {
      RatioTimes(res, req);
    }
    assert IsRatio(Ratio(r.synCount, r.totalTcpCount), r.synCount, r.totalTcpCount) by {
      RatioTimes(r.synCount, r.totalTcpCount);
    }
    ScoreOfCounts(r);
  }

  lemma ScoreOfCounts(r: Recon)
    ensures var f := ReconFeaturesOf(r); IsScore(f.scanActivityScore, f.synOnlyRatio, r.synCount)
  {
  }

  /** What is reported when `a` arrives is about the arrivals since the last one-second emission, `a` included; the
      recon ratio is about the whole stream. */
  lemma OneSecondReport(z: Sizes, past: seq<Arrival>, a: Arrival, dst: string)
    ensures var fed, slice := Fed(Run(z, past), a), past[OpenFrom(z, past)..] + [a];
            RatiosOf(DdosFeaturesOf(fed.ddos, dst), ReconFeaturesOf(fed.recon), slice, past + [a])
  {
    var fed, slice := Fed(Run(z, past), a), past[OpenFrom(z, past)..] + [a];
    assert fed.ddos.counters.syn == Total(Syn, slice) by { FedCounters(z, past, a, Syn); }
    assert fed.ddos.counters.synAck == Total(SynAck, slice) by { FedCounters(z, past, a, SynAck); }
    assert fed.ddos.counters.ampReqBytes == Total(AmpReq, slice) by { FedCounters(z, past, a, AmpReq); }
    assert fed.ddos.counters.ampResBytes == Total(AmpRes, slice) by { FedCounters(z, past, a, AmpRes); }
    FedRecon(z, past, a);
    RatiosOfCounters(fed.ddos, fed.recon, dst, slice, past + [a]);
  }

  // ----- What the averages of a destination mean -----

  /** 0.8^k. */
  function Decay(k: nat): real {
    if k == 0 then 1.0 else 0.8 * Decay(k - 1)
  }

  /** The weight of value `i` among `n`: it fades by a fifth with every later value, and each but the first starts
      from one fifth. */
  function WeightOf(n: nat, i: nat): real
    requires i < n
  {
    if i == 0 then Decay(n - 1) else 0.2 * Decay(n - 1 - i)
  }

  function WeightedTo(xs: seq<int>, i: nat): real
    requires i <= |xs|
  {
    if i == 0 then 0.0 else WeightedTo(xs, i - 1) + WeightOf(|xs|, i - 1) * xs[i - 1] as real
  }

  function Weighted(xs: seq<int>): real {
    WeightedTo(xs, |xs|)
  }

  function WeightsTo(n: nat, i: nat): real
    requires i <= n
  {
    if i == 0 then 0.0 else WeightsTo(n, i - 1) + WeightOf(n, i - 1)
  }

  lemma {:induction false} WeightsFade(n: nat, i: nat)
    requires 0 < n && i <= n
    ensures WeightsTo(n + 1, i) == 0.8 * WeightsTo(n, i)
  {
    if i > 0 {
      WeightsFade(n, i - 1);
    }
  }

  /** The weights sum to one. */
  lemma {:induction false} WeightsSumToOne(n: nat)
    requires n > 0
    ensures WeightsTo(n, n) == 1.0
  {
    if n == 1 {
      assert WeightsTo(1, 0) == 0.0;
    } else {
      WeightsSumToOne(n - 1);
      WeightsFade(n - 1, n - 1);
      assert Decay(0) == 1.0;
    }
  }

  /** The recurrence of the source: the first value as it is, then a fifth of each new one. */
  function Averaged(xs: seq<int>): real
    requires xs != []
  {
    if |xs| == 1 then xs[0] as real else Ewma(Averaged(xs[..|xs| - 1]), xs[|xs| - 1])
  }

  lemma FadedProduct(w: real, x: real)
    ensures (0.8 * w) * x == 0.8 * (w * x)
  {
  }

  lemma {:induction false} WeightedFades(xs: seq<int>, x: int, i: nat)
    requires xs != [] && i <= |xs|
    ensures WeightedTo(xs + [x], i) == 0.8 * WeightedTo(xs, i)
  {
    if i > 0 {
      WeightedFades(xs, x, i - 1);
      FadedProduct(WeightOf(|xs|, i - 1), xs[i - 1] as real);
    }
  }

  lemma {:induction false} AverageIsWeighted(xs: seq<int>)
    requires xs != []
    ensures Averaged(xs) == Weighted(xs)
  {
    if |xs| == 1 {
      assert WeightedTo(xs, 0) == 0.0 && WeightOf(1, 0) == 1.0;
    } else {
      var past, x := xs[..|xs| - 1], xs[|xs| - 1];
      assert xs == past + [x];
      AverageIsWeighted(past);
      WeightedFades(past, x, |past|);
      assert WeightOf(|xs|, |past|) == 0.2;
    }
  }

  /** The packets filed under a destination. */
  function Filed(arrivals: seq<Arrival>, dst: string): seq<Packet> {
    if arrivals == [] then []
    else
      var p := arrivals[|arrivals| - 1].packet;
      Filed(arrivals[..|arrivals| - 1], dst) + if KeyOf(Destinations, p) == Some(dst) then [p] else []
  }

  function PktsOf(ps: seq<Packet>): seq<int> {
    seq(|ps|, i requires 0 <= i < |ps| => ps[i].origPkts)
  }

  function LensOf(ps: seq<Packet>): seq<int> {
    seq(|ps|, i requires 0 <= i < |ps| => ps[i].ipLen)
  }

  /** Arrival `i` is the one that last created the record of `dst`. */
  ghost predicate IsFiling(z: Sizes, arrivals: seq<Arrival>, dst: string, i: nat) {
    && i < |arrivals| && KeyOf(Destinations, arrivals[i].packet) == Some(dst)
    && dst !in Run(z, arrivals[..i]).ddos.dst
    && forall j | i < j < |arrivals| && KeyOf(Destinations, arrivals[j].packet) == Some(dst) ::
         dst in Run(z, arrivals[..j]).ddos.dst
  }

  /** The record's averages are the weighted ones of these packets. */
  ghost predicate AveragesOf(d: DstState, ps: seq<Packet>) {
    ps != [] && d.pktEwma == Weighted(PktsOf(ps)) && d.byteEwma == Weighted(LensOf(ps))
  }

  lemma FiledSnoc(arrivals: seq<Arrival>, a: Arrival, dst: string)
    ensures Filed(arrivals + [a], dst) ==
            Filed(arrivals, dst) + if KeyOf(Destinations, a.packet) == Some(dst) then [a.packet] else []
  {
    assert (arrivals + [a])[..|arrivals|] == arrivals;
  }

  lemma FirstAverage(p: Packet, now: real)
    ensures AveragesOf(DstState(p.origPkts as real, p.ipLen as real, now), [p])
  {
    AverageIsWeighted([p.origPkts]);
    AverageIsWeighted([p.ipLen]);
    assert PktsOf([p]) == [p.origPkts] && LensOf([p]) == [p.ipLen];
  }

  lemma AveragedSnoc(xs: seq<int>, x: int)
    requires xs != []
    ensures Weighted(xs + [x]) == Ewma(Weighted(xs), x)
  {
    AverageIsWeighted(xs);
    AverageIsWeighted(xs + [x]);
    assert (xs + [x])[..|xs|] == xs;
  }

  lemma NextAverage(d: DstState, ps: seq<Packet>, p: Packet, now: real)
    requires AveragesOf(d, ps)
    ensures AveragesOf(DstState(Ewma(d.pktEwma, p.origPkts), Ewma(d.byteEwma, p.ipLen), now), ps + [p])
  {
    AveragedSnoc(PktsOf(ps), p.origPkts);
    AveragedSnoc(LensOf(ps), p.ipLen);
    assert PktsOf(ps + [p]) == PktsOf(ps) + [p.origPkts];
    assert LensOf(ps + [p]) == LensOf(ps) + [p.ipLen];
  }

  lemma FilingInit(z: Sizes, past: seq<Arrival>, a: Arrival, dst: string, i: nat)
    requires i < |past| && IsFiling(z, past + [a], dst, i)
    ensures IsFiling(z, past, dst, i)
    ensures KeyOf(Destinations, a.packet) == Some(dst) ==> dst in Run(z, past).ddos.dst
  {
    var all := past + [a];
    assert all[..|past|] == past;
    assert all[|past|] == a;
    assert forall j | 0 <= j < |past| :: all[j] == past[j] && all[..j] == past[..j];
  }

  /** What the averages of a packet's destination are when the packet has just been filed. */
  lemma {:induction false} FedAverages(z: Sizes, past: seq<Arrival>, a: Arrival, dst: string, i: nat)
    requires KeyOf(Destinations, a.packet) == Some(dst) && IsFiling(z, past + [a], dst, i)
    ensures dst in Fed(Run(z, past), a).ddos.dst
    ensures AveragesOf(Fed(Run(z, past), a).ddos.dst[dst], Filed((past + [a])[i..], dst))
    decreases |past|, 1
  {
    if i < |past| {
      FilingInit(z, past, a, dst, i);
      DestinationMeaning(z, past, dst, i);
      FiledSnoc(past[i..], a, dst);
      assert (past + [a])[i..] == past[i..] + [a];
      NextAverage(Run(z, past).ddos.dst[dst], Filed(past[i..], dst), a.packet, a.now);
    } else {
      assert (past + [a])[..i] == past;
      assert (past + [a])[i..] == [] + [a];
      FiledSnoc([], a, dst);
      assert Filed([], dst) + [a.packet] == [a.packet];
      FirstAverage(a.packet, a.now);
    }
  }

  /** On every run the averages of a destination weigh exactly the packets filed under it since its record was last
      created, packet counts and lengths. */
  lemma {:induction false} DestinationMeaning(z: Sizes, arrivals: seq<Arrival>, dst: string, i: nat)
    requires dst in Run(z, arrivals).ddos.dst && IsFiling(z, arrivals, dst, i)
    ensures AveragesOf(Run(z, arrivals).ddos.dst[dst], Filed(arrivals[i..], dst))
    decreases |arrivals|, 0
  {
    var past, a := arrivals[..|arrivals| - 1], arrivals[|arrivals| - 1];
    assert arrivals == past + [a];
    DstStep(z, Run(z, past), a);
    RunSnoc(z, past, a);
    if KeyOf(Destinations, a.packet) == Some(dst) {
      FedAverages(z, past, a, dst, i);
    } else {
      FilingInit(z, past, a, dst, i);
      DestinationMeaning(z, past, dst, i);
      assert arrivals[i..] == past[i..] + [a];
      FiledSnoc(past[i..], a, dst);
      assert Filed(past[i..], dst) + [] == Filed(past[i..], dst);
    }
  }

  /** So what is reported about the destination of a packet are the weighted averages of the packets filed under it
      since its record was last created, that packet included; nothing is reported about an unknown one. */
  lemma OneSecondAverages(z: Sizes, past: seq<Arrival>, a: Arrival, dst: string, i: nat)
    requires KeyOf(Destinations, a.packet) == Some(dst) && IsFiling(z, past + [a], dst, i)
    ensures var f, ps := DdosFeaturesOf(Fed(Run(z, past), a).ddos, dst), Filed((past + [a])[i..], dst);
            ps != [] && f.dstPktEwma == Weighted(PktsOf(ps)) && f.dstByteEwma == Weighted(LensOf(ps))
    ensures forall d: Ddos, unknown | unknown !in d.dst ::
              DdosFeaturesOf(d, unknown).dstPktEwma == 0.0 && DdosFeaturesOf(d, unknown).dstByteEwma == 0.0
  {
    FedAverages(z, past, a, dst, i);
  }

  class DDoSFeatureExtractor {
    var dstState: map<string, DstState>
    var synCount: nat
    var synAckCount: nat
    var ampReqBytes: int
    var ampResBytes: int

    function Abs(): Ddos
      reads this
    {
      Ddos(Counters(synCount, synAckCount, ampReqBytes, ampResBytes), dstState)
    }

    constructor ()
      ensures Abs() == Ddos(Counters(0, 0, 0, 0), map[])
    {
      dstState, synCount, synAckCount, ampReqBytes, ampResBytes := map[], 0, 0, 0, 0;
    }

    method Update(p: Packet, currentTime: real)
      modifies this
      ensures Abs() == DdosUpdated(old(Abs()), p, currentTime)
    {
      dstState := DstTouched(dstState, p, currentTime);
      if p.protocol == "TCP" {
        if p.tcpFlags == 2 {
          synCount := synCount + 1;
        } else if p.tcpFlags == 18 {
          synAckCount := synAckCount + 1;
        }
      }
      if p.protocol == "UDP" {
        if p.dstPort == 53 {
          ampReqBytes := ampReqBytes + p.ipLen;
        } else if p.srcPort == 53 {
          ampResBytes := ampResBytes + p.ipLen;
        }
      }
    }

    method ResetWindowCounters()
      modifies this
      ensures Abs() == Ddos(Counters(0, 0, 0, 0), old(dstState))
    {
      synCount, synAckCount, ampReqBytes, ampResBytes := 0, 0, 0, 0;
    }

    method SweepStaleState(currentTime: real, ttl: real)
      modifies this`dstState
      ensures dstState == DstSwept(old(dstState), currentTime, ttl)
    {
      var stale := set d | d in dstState && currentTime - dstState[d].lastTime > ttl;
      dstState := dstState - stale;
      assert dstState == DstSwept(old(dstState), currentTime, ttl);
    }
  }

  class ReconScanFeatureExtractor {
    var synCount: nat
    var totalTcpCount: nat

    function Abs(): Recon
      reads this
    {
      Recon(synCount, totalTcpCount)
    }

    constructor ()
      ensures Abs() == Recon(0, 0)
    {
      synCount, totalTcpCount := 0, 0;
    }

    method Update(p: Packet)
      modifies this
      ensures Abs() == (if p.protocol == "TCP" then ReconUpdated(old(Abs()), p) else old(Abs()))
    {
      if p.protocol == "TCP" {
        totalTcpCount := totalTcpCount + 1;
        if p.tcpFlags == 2 {
          synCount := synCount + 1;
        }
      }
    }
  }

  /** What one packet makes the scheduler emit. */
  datatype Fired = Fired(oneSecond: Option<(DdosFeatures, ReconFeatures)>, fiveSecond: bool,
                         sixtySecond: Option<Beaconing.Features>)

  /** Each window fires exactly when due; the one-second one reports the extractors in the state given. */
  predicate FiresWhenDue(z: Sizes, l: Lasts, now: real, d: Ddos, r: Recon, dstIp: string, fired: Fired) {
    && fired.oneSecond == (if Fires(z, l, now, OneSecond) then Some((DdosFeaturesOf(d, dstIp), ReconFeaturesOf(r)))
                           else None)
    && fired.fiveSecond == Fires(z, l, now, FiveSeconds)
    && fired.sixtySecond.Some? == Fires(z, l, now, SixtySeconds)
  }

  /** A sixty-second report is about the packet's pair after the events given. */
  predicate ReportsPair(fired: Fired, root: real -> real, events: seq<Beaconing.Event>, pair: string) {
    fired.sixtySecond.Some? ==> Beaconing.Reports(fired.sixtySecond.value, root, Beaconing.Run(events), pair)
  }

  class FeatureScheduler {
    const sizes: Sizes
    var last1s: real
    var last5s: real
    var last60s: real
    const ddos: DDoSFeatureExtractor
    const recon: ReconScanFeatureExtractor
    const beaconing: Beaconing.BeaconingFeatureExtractor
    ghost var arrivals: seq<Arrival>

    function LastTimes(): Lasts
      reads this
    {
      Lasts(last1s, last5s, last60s)
    }

    function Abs(): State
      reads this, ddos, recon
    {
      State(LastTimes(), ddos.Abs(), recon.Abs())
    }

    /** The scheduler and its extractors are in the state the packets so far produce. */
    ghost predicate Valid()
      reads this, ddos, recon, beaconing, Beaconing.WelfordsOf(beaconing.flowIats), beaconing.dstFanIn
    {
      && Abs() == Run(sizes, arrivals)
      && beaconing.Valid() && beaconing.events == BeaconEvents(sizes, arrivals)
    }

    constructor (sizes: Sizes, hash: OnlineStats.Hash, root: real -> real)
      ensures Valid() && this.sizes == sizes && arrivals == []
      ensures fresh(ddos) && fresh(recon) && fresh(beaconing) && fresh(beaconing.dstFanIn)
    {
      this.sizes, last1s, last5s, last60s, arrivals := sizes, 0.0, 0.0, 0.0, [];
      ddos := new DDoSFeatureExtractor();
      recon := new ReconScanFeatureExtractor();
      beaconing := new Beaconing.BeaconingFeatureExtractor(hash, root);
    }

    method ProcessPacket(p: Packet, currentTime: real) returns (fired: Fired)
      requires Valid()
      modifies this, ddos, recon, beaconing, Beaconing.WelfordsOf(beaconing.flowIats), beaconing.dstFanIn
      ensures Valid() && arrivals == old(arrivals) + [Arrival(p, currentTime)]
      ensures var s := Run(sizes, old(arrivals));
              var fed := Fed(s, Arrival(p, currentTime));
              && (fired.oneSecond.Some? <==> Emits(sizes, arrivals, OneSecond, |old(arrivals)|))
              && (fired.oneSecond.Some? ==>
                    fired.oneSecond.value == (DdosFeaturesOf(fed.ddos, p.dstIp), ReconFeaturesOf(fed.recon)))
      ensures fired.fiveSecond <==> Emits(sizes, arrivals, FiveSeconds, |old(arrivals)|)
      ensures fired.sixtySecond.Some? <==> Emits(sizes, arrivals, SixtySeconds, |old(arrivals)|)
      ensures var pair := Beaconing.PairKey(p.srcIp, p.dstIp);
              var events := BeaconEvents(sizes, old(arrivals)) + [Beaconing.Arrival(pair, currentTime)];
              fired.sixtySecond.Some? ==>
                Beaconing.Reports(fired.sixtySecond.value, beaconing.root, Beaconing.Run(events), pair)
    {
      RunSnoc(sizes, arrivals, Arrival(p, currentTime));
      arrivals := arrivals + [Arrival(p, currentTime)];
      fired := FeedAndCheck(p, currentTime);
    }

    method FeedAndCheck(p: Packet, currentTime: real) returns (fired: Fired)
      requires beaconing.Valid()
      modifies this`last1s, this`last5s, this`last60s, ddos, recon
      modifies beaconing, Beaconing.WelfordsOf(beaconing.flowIats), beaconing.dstFanIn
      ensures Abs() == Step(sizes, old(Abs()), Arrival(p, currentTime))
      ensures beaconing.Valid()
      ensures beaconing.events == old(beaconing.events) +
                [Beaconing.Arrival(Beaconing.PairKey(p.srcIp, p.dstIp), currentTime)] +
                if Fires(sizes, old(LastTimes()), currentTime, SixtySeconds)
                then [Beaconing.Sweep(Anchored(old(LastTimes()), currentTime).sixty, 120.0)] else []
      ensures var fed := Fed(old(Abs()), Arrival(p, currentTime));
              FiresWhenDue(sizes, old(LastTimes()), currentTime, fed.ddos, fed.recon, p.dstIp, fired)
      ensures var pair := Beaconing.PairKey(p.srcIp, p.dstIp);
              ReportsPair(fired, beaconing.root, old(beaconing.events) + [Beaconing.Arrival(pair, currentTime)], pair)
    {
      FeedExtractors(p, currentTime);
      fired := CheckWindows(p, currentTime);
    }

    method FeedExtractors(p: Packet, currentTime: real)
      requires beaconing.Valid()
      modifies ddos, recon, beaconing, Beaconing.WelfordsOf(beaconing.flowIats), beaconing.dstFanIn
      ensures Abs() == Fed(old(Abs()), Arrival(p, currentTime))
      ensures beaconing.Valid()
      ensures beaconing.events
           == old(beaconing.events) + [Beaconing.Arrival(Beaconing.PairKey(p.srcIp, p.dstIp), currentTime)]
    {
      if IsFlowProtocol(p.protocol) {
        ddos.Update(p, currentTime);
      }
      if p.protocol == "TCP" {
        recon.Update(p);
      }
      beaconing.Update(p.srcIp, p.dstIp, currentTime);
    }

    method CheckWindows(p: Packet, currentTime: real) returns (fired: Fired)
      requires beaconing.Valid()
      modifies this`last1s, this`last5s, this`last60s, ddos, beaconing
      ensures Abs() == Checked(sizes, old(Abs()), currentTime)
      ensures beaconing.Valid()
      ensures beaconing.events == old(beaconing.events) +
                if Fires(sizes, old(LastTimes()), currentTime, SixtySeconds)
                then [Beaconing.Sweep(Anchored(old(LastTimes()), currentTime).sixty, 120.0)] else []
      ensures FiresWhenDue(sizes, old(LastTimes()), currentTime, old(ddos.Abs()), old(recon.Abs()), p.dstIp, fired)
      ensures ReportsPair(fired, beaconing.root, old(beaconing.events), Beaconing.PairKey(p.srcIp, p.dstIp))
    {
      Anchor(currentTime);
      fired := FireDue(p, currentTime);
    }

    /** Fires and advances each window that is due, once all are anchored. */
    method FireDue(p: Packet, currentTime: real) returns (fired: Fired)
      requires beaconing.Valid() && Anchored(LastTimes(), currentTime) == LastTimes()
      modifies this`last1s, this`last5s, this`last60s, ddos, beaconing
      ensures Abs() == Checked(sizes, old(Abs()), currentTime)
      ensures beaconing.Valid()
      ensures beaconing.events == old(beaconing.events) +
                if Fires(sizes, old(LastTimes()), currentTime, SixtySeconds)
                then [Beaconing.Sweep(old(last60s), 120.0)] else []
      ensures FiresWhenDue(sizes, old(LastTimes()), currentTime, old(ddos.Abs()), old(recon.Abs()), p.dstIp, fired)
      ensures ReportsPair(fired, beaconing.root, old(beaconing.events), Beaconing.PairKey(p.srcIp, p.dstIp))
    {
      var one := Check1s(p, currentTime);
      var five := Check5s(currentTime);
      var sixty := Check60s(p, currentTime);
      fired := Fired(one, five, sixty);
    }

    method Check1s(p: Packet, currentTime: real) returns (vector: Option<(DdosFeatures, ReconFeatures)>)
      modifies this`last1s, ddos
      ensures var fires := currentTime - old(last1s) >= sizes.one;
              && last1s == (if fires then currentTime else old(last1s))
              && ddos.Abs() == (if fires then Ddos(Counters(0, 0, 0, 0), old(ddos.dstState)) else old(ddos.Abs()))
              && vector == (if fires
                            then Some((DdosFeaturesOf(old(ddos.Abs()), p.dstIp), ReconFeaturesOf(old(recon.Abs()))))
                            else None)
    {
      vector := None;
      if currentTime - last1s >= sizes.one {
        var v := Emit1sWindow(p);
        vector := Some(v);
        last1s := currentTime;
      }
    }

    method Check5s(currentTime: real) returns (fired: bool)
      modifies this`last5s
      ensures fired == (currentTime - old(last5s) >= sizes.five)
      ensures last5s == if fired then currentTime else old(last5s)
    {
      fired := currentTime - last5s >= sizes.five;
      if fired {
        last5s := currentTime;
      }
    }

    method Check60s(p: Packet, currentTime: real) returns (features: Option<Beaconing.Features>)
      requires beaconing.Valid()
      modifies this`last60s, ddos`dstState, beaconing
      ensures beaconing.Valid()
      ensures features.Some? == (currentTime - old(last60s) >= sizes.sixty)
      ensures if features.Some? then
                && last60s == currentTime && ddos.dstState == DstSwept(old(ddos.dstState), old(last60s), 60.0)
                && beaconing.events == old(beaconing.events) + [Beaconing.Sweep(old(last60s), 120.0)]
                && Beaconing.Reports(features.value, beaconing.root, Beaconing.Run(old(beaconing.events)),
                                     Beaconing.PairKey(p.srcIp, p.dstIp))
              else
                && last60s == old(last60s) && ddos.dstState == old(ddos.dstState)
                && beaconing.events == old(beaconing.events)
    {
      features := None;
      if currentTime - last60s >= sizes.sixty {
        var f := Emit60sWindow(p);
        features := Some(f);
        last60s := currentTime;
      }
    }

    method Anchor(currentTime: real)
      modifies this`last1s, this`last5s, this`last60s
      ensures LastTimes() == Anchored(old(LastTimes()), currentTime)
    {
      if last1s == 0.0 || currentTime < last1s {
        last1s, last5s, last60s := currentTime, currentTime, currentTime;
      }
    }

    method Emit1sWindow(p: Packet) returns (vector: (DdosFeatures, ReconFeatures))
      modifies ddos
      ensures vector == (DdosFeaturesOf(old(ddos.Abs()), p.dstIp), ReconFeaturesOf(old(recon.Abs())))
      ensures ddos.Abs() == Ddos(Counters(0, 0, 0, 0), old(ddos.dstState))
    {
      vector := (DdosFeaturesOf(ddos.Abs(), p.dstIp), ReconFeaturesOf(recon.Abs()));
      ddos.ResetWindowCounters();
    }

    /** Emits and then sweeps, against the boundary of the window that is being closed. */
    method Emit60sWindow(p: Packet) returns (features: Beaconing.Features)
      requires beaconing.Valid()
      modifies ddos`dstState, beaconing
      ensures ddos.dstState == DstSwept(old(ddos.dstState), last60s, 60.0)
      ensures beaconing.Valid() && beaconing.events == old(beaconing.events) + [Beaconing.Sweep(last60s, 120.0)]
      ensures Beaconing.Reports(features, beaconing.root, Beaconing.Run(old(beaconing.events)),
                                Beaconing.PairKey(p.srcIp, p.dstIp))
    {
      features := beaconing.Extract(p.srcIp, p.dstIp);
      ddos.SweepStaleState(last60s, 60.0);
      beaconing.SweepStaleState(last60s, 120.0);
    }
  }
}
