/** ingest/rust-ingestor/src/main.rs: the flow tracker and the simulated replay clock. */
module Ingestor {
  import opened Wrappers
  import opened DottedQuad
  import MapSums
  import LastSeen

  datatype FlowKey = FlowKey(srcIp: Quad, dstIp: Quad, srcPort: nat, dstPort: nat, protocol: nat)

  /** What `update` uses of a parsed packet once its key is built. */
  datatype Sample = Sample(key: FlowKey, ipLen: nat, syn: bool, timestamp: real)

  datatype FlowState = FlowState(pktCount: nat, byteCount: nat, synCount: nat, firstSeen: real, lastSeen: real,
                                 dstPortsSeen: seq<nat>)

  /** The counters of the open window; `start` is 0 until the first packet. */
  datatype Window = Window(pkts: nat, bytes: nat, syns: nat, dstPorts: map<nat, nat>, start: real)

  datatype Tracker = Tracker(flows: map<FlowKey, FlowState>, window: Window)

  /** The computed part of a feature record. */
  datatype Features = Features(
    timestamp: real, pktRate: real, byteRate: real, synRate: real, uniqueDstPorts: nat,
    flowDuration: real, flowPktCount: nat, flowByteCount: nat, isPortScan: bool, uniquePortsScanned: nat)

  const IDLE_LIMIT := 60.0

  // ----- What one packet does -----

  function SynOf(m: Sample): nat { if m.syn then 1 else 0 }

  function TouchedFlow(flows: map<FlowKey, FlowState>, m: Sample): FlowState {
    var f := if m.key in flows then flows[m.key] else FlowState(0, 0, 0, m.timestamp, m.timestamp, []);
    FlowState(f.pktCount + 1, f.byteCount + m.ipLen, f.synCount + (if m.syn then 1 else 0), f.firstSeen, m.timestamp,
              if m.key.dstPort in f.dstPortsSeen then f.dstPortsSeen else f.dstPortsSeen + [m.key.dstPort])
  }

  function PortCount(ports: map<nat, nat>, p: nat): nat {
    if p in ports then ports[p] else 0
  }

  function TouchedWindow(w: Window, m: Sample): Window {
    Window(w.pkts + 1, w.bytes + m.ipLen, w.syns + (if m.syn then 1 else 0),
           w.dstPorts[m.key.dstPort := PortCount(w.dstPorts, m.key.dstPort) + 1],
           if w.start == 0.0 then m.timestamp else w.start)
  }

  function Touched(t: Tracker, m: Sample): Tracker {
    Tracker(t.flows[m.key := TouchedFlow(t.flows, m)], TouchedWindow(t.window, m))
  }

  /** The age of the open window when `m` arrives. */
  function Elapsed(t: Tracker, m: Sample): real {
    m.timestamp - TouchedWindow(t.window, m).start
  }

  predicate Closes(size: real, t: Tracker, m: Sample) {
    Elapsed(t, m) >= size
  }

  function AtLeastMilli(x: real): (r: real)
    ensures r > 0.0
  {
    if x < 0.001 then 0.001 else x
  }

  function PerSecond(count: nat, seconds: real): real
    requires seconds > 0.0
  {
    count as real / seconds
  }

  /** The record of a window `w` closed by `m` after `e` seconds, `f` being the packet's flow. */
  function FeaturesOf(m: Sample, w: Window, f: FlowState, e: real): Features
    requires e > 0.0
  {
    Features(m.timestamp, PerSecond(w.pkts, e), PerSecond(w.bytes * 8, e) / 1000000.0, PerSecond(w.syns, e),
             |w.dstPorts|, f.lastSeen - f.firstSeen, f.pktCount, f.byteCount, |f.dstPortsSeen| > 10, |f.dstPortsSeen|)
  }

  function Record(t: Tracker, m: Sample): Features {
    FeaturesOf(m, TouchedWindow(t.window, m), TouchedFlow(t.flows, m), AtLeastMilli(Elapsed(t, m)))
  }

  predicate IsStale(f: FlowState, now: real) { !(now - f.lastSeen < IDLE_LIMIT) }

  function Kept(flows: map<FlowKey, FlowState>, now: real): map<FlowKey, FlowState> {
    map k | k in flows && !IsStale(flows[k], now) :: flows[k]
  }

  function Update(size: real, t: Tracker, m: Sample): Tracker {
    var t' := Touched(t, m);
    if Closes(size, t, m) then Tracker(Kept(t'.flows, m.timestamp), Window(0, 0, 0, map[], m.timestamp)) else t'
  }

  function Run(size: real, ms: seq<Sample>): Tracker {
    if ms == [] then Tracker(map[], Window(0, 0, 0, map[], 0.0))
    else Update(size, Run(size, ms[..|ms| - 1]), ms[|ms| - 1])
  }

  /** The records emitted along the run. */
  function Records(size: real, ms: seq<Sample>): seq<Features> {
    if ms == [] then []
    else
      var past, m := ms[..|ms| - 1], ms[|ms| - 1];
      Records(size, past) + if Closes(size, Run(size, past), m) then [Record(Run(size, past), m)] else []
  }

  // ----- The reference: windows as slices of the packet sequence -----

  /** The open window: the index of its first packet, and the time it is measured from. */
  datatype Opening = Opening(first: nat, start: real)

  function OpenedBy(size: real, o: Opening, index: nat, m: Sample): Opening {
    var start := if o.start == 0.0 then m.timestamp else o.start;
    if m.timestamp - start >= size then Opening(index + 1, m.timestamp) else Opening(o.first, start)
  }

  function OpenWindow(size: real, ms: seq<Sample>): (o: Opening)
    ensures o.first <= |ms|
  {
    if ms == [] then Opening(0, 0.0)
    else OpenedBy(size, OpenWindow(size, ms[..|ms| - 1]), |ms| - 1, ms[|ms| - 1])
  }

  datatype Measure = Packets | Bytes | Syns

  function Of(c: Measure, m: Sample): nat {
    match c case Packets => 1 case Bytes => m.ipLen case Syns => SynOf(m)
  }

  function Total(c: Measure, ms: seq<Sample>): nat {
    if ms == [] then 0 else Total(c, ms[..|ms| - 1]) + Of(c, ms[|ms| - 1])
  }

  function Counter(c: Measure, w: Window): nat {
    match c case Packets => w.pkts case Bytes => w.bytes case Syns => w.syns
  }

  function PortsOf(ms: seq<Sample>): map<nat, nat> {
    if ms == [] then map[]
    else
      var past, p := PortsOf(ms[..|ms| - 1]), ms[|ms| - 1].key.dstPort;
      past[p := PortCount(past, p) + 1]
  }

  lemma TotalSnoc(c: Measure, ms: seq<Sample>, m: Sample)
    ensures Total(c, ms + [m]) == Total(c, ms) + Of(c, m)
    ensures PortsOf(ms + [m]) == PortsOf(ms)[m.key.dstPort := PortCount(PortsOf(ms), m.key.dstPort) + 1]
  {
    assert (ms + [m])[..|ms|] == ms;
  }

  lemma RunSnoc(size: real, ms: seq<Sample>, m: Sample)
    ensures Run(size, ms + [m]) == Update(size, Run(size, ms), m)
    ensures Records(size, ms + [m]) ==
            Records(size, ms) + if Closes(size, Run(size, ms), m) then [Record(Run(size, ms), m)] else []
    ensures OpenWindow(size, ms + [m]) == OpenedBy(size, OpenWindow(size, ms), |ms|, m)
  {
    assert (ms + [m])[..|ms|] == ms;
  }

  /** The window `w` counts the packets from `o.first` on, and is measured from `o.start`. */
  ghost predicate Reflects(w: Window, o: Opening, ms: seq<Sample>, c: Measure)
    requires o.first <= |ms|
  {
    && Counter(c, w) == Total(c, ms[o.first..])
    && w.dstPorts == PortsOf(ms[o.first..])
    && w.start == o.start
  }

  ghost predicate WindowIs(size: real, ms: seq<Sample>, c: Measure) {
    Reflects(Run(size, ms).window, OpenWindow(size, ms), ms, c)
  }

  /** One more packet in the open window. */
  lemma TouchedMeaning(w: Window, o: Opening, past: seq<Sample>, m: Sample, c: Measure)
    requires o.first <= |past| && Reflects(w, o, past, c)
    ensures Counter(c, TouchedWindow(w, m)) == Total(c, past[o.first..] + [m])
    ensures TouchedWindow(w, m).dstPorts == PortsOf(past[o.first..] + [m])
  {
    TotalSnoc(c, past[o.first..], m);
  }

  lemma ReflectsStep(size: real, t: Tracker, o: Opening, past: seq<Sample>, m: Sample, c: Measure)
    requires o.first <= |past| && Reflects(t.window, o, past, c)
    ensures var o' := OpenedBy(size, o, |past|, m);
            o'.first <= |past + [m]| && Reflects(Update(size, t, m).window, o', past + [m], c)
  {
    TouchedMeaning(t.window, o, past, m, c);
    assert (past + [m])[o.first..] == past[o.first..] + [m];
    assert (past + [m])[|past| + 1..] == [];
  }

  lemma WindowStep(size: real, past: seq<Sample>, m: Sample, c: Measure)
    requires WindowIs(size, past, c)
    ensures WindowIs(size, past + [m], c)
  {
    RunSnoc(size, past, m);
    ReflectsStep(size, Run(size, past), OpenWindow(size, past), past, m, c);
  }

  /** The window counters are those of the packets since the last emission, and nothing else. */
  lemma {:induction false} WindowMeaning(size: real, ms: seq<Sample>, c: Measure)
    ensures WindowIs(size, ms, c)
  {
    if ms != [] {
      var past, m := ms[..|ms| - 1], ms[|ms| - 1];
      assert ms == past + [m];
      WindowMeaning(size, past, c);
      WindowStep(size, past, m, c);
    }
  }

  /** The measure over the packets of all closed windows. */
  function ClosedTotal(size: real, ms: seq<Sample>, c: Measure): nat {
    if ms == [] then 0
    else
      var past, m := ms[..|ms| - 1], ms[|ms| - 1];
      ClosedTotal(size, past, c) +
        if Closes(size, Run(size, past), m) then Counter(c, TouchedWindow(Run(size, past).window, m)) else 0
  }

  /** Closed windows plus the open one make up the run: packets, bytes and SYNs. */
  lemma {:induction false} WindowConservation(size: real, ms: seq<Sample>, c: Measure)
    ensures ClosedTotal(size, ms, c) + Counter(c, Run(size, ms).window) == Total(c, ms)
  {
    if ms != [] {
      WindowConservation(size, ms[..|ms| - 1], c);
    }
  }

  /** The port counters of the open window sum to its packet counter. */
  lemma {:induction false} PortsSumToPackets(ms: seq<Sample>)
    ensures MapSums.Sum(PortsOf(ms)) == |ms|
  {
    if ms != [] {
      var past, p := PortsOf(ms[..|ms| - 1]), ms[|ms| - 1].key.dstPort;
      PortsSumToPackets(ms[..|ms| - 1]);
      MapSums.SumUpdate(past, p, PortCount(past, p) + 1);
    }
  }

  lemma {:induction false} TotalPackets(ms: seq<Sample>)
    ensures Total(Packets, ms) == |ms|
  {
    if ms != [] {
      TotalPackets(ms[..|ms| - 1]);
    }
  }

  lemma {:induction false} PortKeys(ms: seq<Sample>)
    ensures PortsOf(ms).Keys == set m | m in ms :: m.key.dstPort
  {
    if ms != [] {
      PortKeys(ms[..|ms| - 1]);
      assert ms == ms[..|ms| - 1] + [ms[|ms| - 1]];
    }
  }

  lemma WindowPortsSum(size: real, ms: seq<Sample>)
    ensures var w := Run(size, ms).window; MapSums.Sum(w.dstPorts) == w.pkts
  {
    WindowMeaning(size, ms, Packets);
    PortsSumToPackets(ms[OpenWindow(size, ms).first..]);
    TotalPackets(ms[OpenWindow(size, ms).first..]);
  }

  /** The packets reported by a record emitted on arrival of `m`: those since the previous emission. */
  function Slice(size: real, past: seq<Sample>, m: Sample): seq<Sample> {
    past[OpenWindow(size, past).first..] + [m]
  }

  /** The time a record emitted on arrival of `m` is measured over: since the window opened, a millisecond at
      least. */
  function Span(size: real, past: seq<Sample>, m: Sample): real {
    var o := OpenWindow(size, past);
    var open := if o.start == 0.0 then 0.0 else m.timestamp - o.start;
    if open >= 0.001 then open else 0.001
  }

  /** The counter of the open window, the arriving packet included, is the measure of the slice. */
  lemma SliceCounter(size: real, past: seq<Sample>, m: Sample, c: Measure)
    ensures Counter(c, TouchedWindow(Run(size, past).window, m)) == Total(c, Slice(size, past, m))
    ensures TouchedWindow(Run(size, past).window, m).dstPorts == PortsOf(Slice(size, past, m))
    ensures AtLeastMilli(Elapsed(Run(size, past), m)) == Span(size, past, m)
  {
    WindowMeaning(size, past, c);
    TouchedMeaning(Run(size, past).window, OpenWindow(size, past), past, m, c);
  }

  lemma DistinctPorts(ms: seq<Sample>)
    ensures |PortsOf(ms)| == |set m | m in ms :: m.key.dstPort|
  {
    PortKeys(ms);
    assert |PortsOf(ms)| == |PortsOf(ms).Keys|;
  }

  lemma RecordOfSlice(size: real, past: seq<Sample>, m: Sample)
    ensures var r, slice, e := Record(Run(size, past), m), Slice(size, past, m), Span(size, past, m);
            && r.timestamp == m.timestamp
            && r.pktRate == PerSecond(|slice|, e)
            && r.byteRate == PerSecond(Total(Bytes, slice) * 8, e) / 1000000.0
            && r.synRate == PerSecond(Total(Syns, slice), e)
            && r.uniqueDstPorts == |set x | x in slice :: x.key.dstPort|
  {
    var slice, e, w := Slice(size, past, m), Span(size, past, m), TouchedWindow(Run(size, past).window, m);
    assert w.pkts == |slice| by {
      SliceCounter(size, past, m, Packets);
      TotalPackets(slice);
    }
    assert w.bytes == Total(Bytes, slice) by { SliceCounter(size, past, m, Bytes); }
    assert w.syns == Total(Syns, slice) by { SliceCounter(size, past, m, Syns); }
    assert |w.dstPorts| == |set x | x in slice :: x.key.dstPort| by {
      SliceCounter(size, past, m, Packets);
      DistinctPorts(slice);
    }
    assert AtLeastMilli(Elapsed(Run(size, past), m)) == e by { SliceCounter(size, past, m, Packets); }
  }

  lemma RateTimesSpan(rate: real, count: nat, e: real)
    requires e > 0.0 && rate == PerSecond(count, e)
    ensures rate * e == count as real
  {
  }

  lemma ByteRateTimesSpan(rate: real, bytes: nat, e: real)
    requires e > 0.0 && rate == PerSecond(bytes * 8, e) / 1000000.0
    ensures rate * 1000000.0 * e == bytes as real * 8.0
  {
    assert rate * 1000000.0 == PerSecond(bytes * 8, e);
    RateTimesSpan(rate * 1000000.0, bytes * 8, e);
  }

  /** The record is about the packets `slice`, measured over `e` seconds: its rates make up exactly the packets, the
      bytes (in millions of bits) and the SYNs, and it counts the distinct destination ports among them. */
  ghost predicate ReportsOn(r: Features, ts: real, slice: seq<Sample>, e: real) {
    && r.timestamp == ts
    && r.pktRate * e == |slice| as real
    && r.byteRate * 1000000.0 * e == Total(Bytes, slice) as real * 8.0
    && r.synRate * e == Total(Syns, slice) as real
    && r.uniqueDstPorts == |set x | x in slice :: x.key.dstPort|
  }

  lemma RatesTimesSpan(r: Features, e: real, pkts: nat, bytes: nat, syns: nat)
    requires e > 0.0 && r.pktRate == PerSecond(pkts, e)
    requires r.byteRate == PerSecond(bytes * 8, e) / 1000000.0 && r.synRate == PerSecond(syns, e)
    ensures r.pktRate * e == pkts as real && r.synRate * e == syns as real
    ensures r.byteRate * 1000000.0 * e == bytes as real * 8.0
  {
    RateTimesSpan(r.pktRate, pkts, e);
    ByteRateTimesSpan(r.byteRate, bytes, e);
    RateTimesSpan(r.synRate, syns, e);
  }

  lemma RatesReport(r: Features, ts: real, slice: seq<Sample>, e: real)
    requires e > 0.0 && r.timestamp == ts && r.pktRate == PerSecond(|slice|, e)
    requires r.byteRate == PerSecond(Total(Bytes, slice) * 8, e) / 1000000.0
    requires r.synRate == PerSecond(Total(Syns, slice), e)
    requires r.uniqueDstPorts == |set x | x in slice :: x.key.dstPort|
    ensures ReportsOn(r, ts, slice, e)
  {
    RatesTimesSpan(r, e, |slice|, Total(Bytes, slice), Total(Syns, slice));
  }

  /** What an emitted record reports: exactly the packets since the previous emission, over the time since then. */
  lemma RecordMeaning(size: real, past: seq<Sample>, m: Sample)
    ensures ReportsOn(Record(Run(size, past), m), m.timestamp, Slice(size, past, m), Span(size, past, m))
  {
    RecordOfSlice(size, past, m);
    RatesReport(Record(Run(size, past), m), m.timestamp, Slice(size, past, m), Span(size, past, m));
  }

  // ----- When a window closes -----

  /** Packet `e` closes a window. */
  predicate Emits(size: real, ms: seq<Sample>, e: nat)
    requires e < |ms|
  {
    Closes(size, Run(size, ms[..e]), ms[e])
  }

  ghost predicate NeverEmits(size: real, ms: seq<Sample>) {
    forall e | 0 <= e < |ms| :: !Emits(size, ms, e)
  }

  ghost predicate IsLastEmission(size: real, ms: seq<Sample>, j: nat) {
    j < |ms| && Emits(size, ms, j) && forall e | j < e < |ms| :: !Emits(size, ms, e)
  }

  lemma EmitsInPrefix(size: real, ms: seq<Sample>, n: nat, e: nat)
    requires e < n <= |ms|
    ensures Emits(size, ms[..n], e) == Emits(size, ms, e)
  {
    assert ms[..n][..e] == ms[..e];
  }

  lemma NeverEmitsInit(size: real, ms: seq<Sample>)
    requires ms != [] && NeverEmits(size, ms)
    ensures NeverEmits(size, ms[..|ms| - 1]) && !Emits(size, ms, |ms| - 1)
  {
    var n := |ms| - 1;
    forall e | 0 <= e < n
      ensures !Emits(size, ms[..n], e)
    {
      EmitsInPrefix(size, ms, n, e);
      assert !Emits(size, ms, e);
    }
  }

  lemma LastEmissionInit(size: real, ms: seq<Sample>, j: nat)
    requires j < |ms| - 1 && IsLastEmission(size, ms, j)
    ensures IsLastEmission(size, ms[..|ms| - 1], j) && !Emits(size, ms, |ms| - 1)
  {
    var n := |ms| - 1;
    EmitsInPrefix(size, ms, n, j);
    forall e | j < e < n
      ensures !Emits(size, ms[..n], e)
    {
      EmitsInPrefix(size, ms, n, e);
      assert !Emits(size, ms, e);
    }
  }

  lemma OpenWindowStep(size: real, ms: seq<Sample>)
    requires ms != []
    ensures var n := |ms| - 1;
            var o := OpenWindow(size, ms[..n]);
            OpenWindow(size, ms) == if Emits(size, ms, n) then Opening(n + 1, ms[n].timestamp)
                                    else Opening(o.first, if o.start == 0.0 then ms[n].timestamp else o.start)
  {
    WindowMeaning(size, ms[..|ms| - 1], Packets);
  }

  ghost predicate Started(ms: seq<Sample>) {
    forall i | 0 <= i < |ms| :: ms[i].timestamp != 0.0
  }

  /** What the open window is before any emission: it is measured from the first packet.  (A timestamp of zero
      stands for "not yet started".) */
  lemma {:induction false} FirstOpening(size: real, ms: seq<Sample>)
    requires Started(ms) && NeverEmits(size, ms)
    ensures OpenWindow(size, ms) == Opening(0, if ms == [] then 0.0 else ms[0].timestamp)
  {
    if ms != [] {
      NeverEmitsInit(size, ms);
      FirstOpening(size, ms[..|ms| - 1]);
      OpenWindowStep(size, ms);
    }
  }

  /** And after one: it starts right after the last emission, and is measured from its time. */
  lemma {:induction false} OpeningMeaning(size: real, ms: seq<Sample>, j: nat)
    requires Started(ms) && IsLastEmission(size, ms, j)
    ensures OpenWindow(size, ms) == Opening(j + 1, ms[j].timestamp)
  {
    var n := |ms| - 1;
    if j < n {
      LastEmissionInit(size, ms, j);
      OpeningMeaning(size, ms[..n], j);
    }
    OpenWindowStep(size, ms);
  }

  /** When a window closes: exactly when a packet comes at least the window size after the last emission, or after
      the first packet if there was none. */
  lemma EmitsIff(size: real, ms: seq<Sample>, e: nat)
    requires e < |ms| && Started(ms)
    ensures NeverEmits(size, ms[..e]) ==> (Emits(size, ms, e) <==> ms[e].timestamp - ms[0].timestamp >= size)
    ensures forall j: nat | IsLastEmission(size, ms[..e], j) ::
              Emits(size, ms, e) <==> ms[e].timestamp - ms[j].timestamp >= size
  {
    WindowMeaning(size, ms[..e], Packets);
    if NeverEmits(size, ms[..e]) {
      FirstOpening(size, ms[..e]);
    }
    forall j: nat | IsLastEmission(size, ms[..e], j)
      ensures Emits(size, ms, e) <==> ms[e].timestamp - ms[j].timestamp >= size
    {
      OpeningMeaning(size, ms[..e], j);
    }
  }

  // ----- Flows -----

  ghost predicate Live(size: real, ms: seq<Sample>, k: FlowKey) {
    k in Run(size, ms).flows
  }

  /** Packet `i` is the one that last created the flow of key `k`. */
  ghost predicate IsBirth(size: real, ms: seq<Sample>, k: FlowKey, i: nat) {
    && i < |ms| && ms[i].key == k && !Live(size, ms[..i], k)
    && forall j | i < j < |ms| && ms[j].key == k :: Live(size, ms[..j], k)
  }

  function OfKey(ms: seq<Sample>, k: FlowKey): seq<Sample> {
    if ms == [] then []
    else OfKey(ms[..|ms| - 1], k) + if ms[|ms| - 1].key == k then [ms[|ms| - 1]] else []
  }

  /** What a flow made of exactly these packets should record. */
  function Totals(ms: seq<Sample>): FlowState
    requires ms != []
  {
    FlowState(|ms|, Total(Bytes, ms), Total(Syns, ms), ms[0].timestamp, ms[|ms| - 1].timestamp, [ms[0].key.dstPort])
  }

  lemma OfKeySnoc(ms: seq<Sample>, m: Sample, k: FlowKey)
    ensures OfKey(ms + [m], k) == OfKey(ms, k) + if m.key == k then [m] else []
  {
    assert (ms + [m])[..|ms|] == ms;
  }

  lemma {:induction false} OfKeyMembers(ms: seq<Sample>, k: FlowKey)
    ensures forall i | 0 <= i < |OfKey(ms, k)| :: OfKey(ms, k)[i].key == k && OfKey(ms, k)[i] in ms
  {
    if ms != [] {
      OfKeyMembers(ms[..|ms| - 1], k);
      assert ms == ms[..|ms| - 1] + [ms[|ms| - 1]];
    }
  }

  lemma UpdateOther(size: real, t: Tracker, m: Sample, k: FlowKey)
    requires m.key != k && k in Update(size, t, m).flows
    ensures k in t.flows && Update(size, t, m).flows[k] == t.flows[k]
  {
  }

  /** The flow of the packet itself always survives, so the lookup after the update cannot fail. */
  lemma UpdateOwn(size: real, t: Tracker, m: Sample)
    ensures m.key in Update(size, t, m).flows
    ensures Update(size, t, m).flows[m.key] == TouchedFlow(t.flows, m)
  {
  }

  lemma BirthNow(size: real, past: seq<Sample>, m: Sample)
    requires !Live(size, past, m.key)
    ensures IsBirth(size, past + [m], m.key, |past|)
  {
    assert (past + [m])[..|past|] == past;
  }

  lemma {:induction false} BirthExists(size: real, ms: seq<Sample>, k: FlowKey) returns (i: nat)
    requires Live(size, ms, k)
    ensures IsBirth(size, ms, k, i)
  {
    var past, m := ms[..|ms| - 1], ms[|ms| - 1];
    assert ms == past + [m];
    if m.key == k && !Live(size, past, k) {
      i := |past|;
      BirthNow(size, past, m);
    } else {
      if m.key != k {
        UpdateOther(size, Run(size, past), m, k);
      }
      i := BirthExists(size, past, k);
      BirthInLonger(size, past, m, k, i);
    }
  }

  lemma BirthInLonger(size: real, past: seq<Sample>, m: Sample, k: FlowKey, i: nat)
    requires i < |past|
    requires m.key == k ==> Live(size, past, k)
    ensures IsBirth(size, past + [m], k, i) <==> IsBirth(size, past, k, i)
  {
    var ms := past + [m];
    assert ms[..i] == past[..i] && ms[..|past|] == past;
    assert forall j | 0 <= j < |past| :: ms[j] == past[j] && ms[..j] == past[..j];
  }

  lemma FlowTotalsSnoc(ms: seq<Sample>, m: Sample)
    requires ms != [] && ms[0].key == m.key
    ensures Totals(ms + [m]) ==
            FlowState(|ms| + 1, Total(Bytes, ms) + m.ipLen, Total(Syns, ms) + Of(Syns, m), ms[0].timestamp, m.timestamp,
                      [m.key.dstPort])
  {
    TotalSnoc(Bytes, ms, m);
    TotalSnoc(Syns, ms, m);
  }

  lemma OneTotals(m: Sample)
    ensures Totals([m])
         == FlowState(1, m.ipLen, if m.syn then 1 else 0, m.timestamp, m.timestamp, [m.key.dstPort])
  {
    TotalSnoc(Bytes, [], m);
    TotalSnoc(Syns, [], m);
    assert [] + [m] == [m];
  }

  /** The live flow `k` records exactly the packets of its key from index `i` on. */
  ghost predicate FlowIs(size: real, ms: seq<Sample>, k: FlowKey, i: nat)
    requires i <= |ms|
  {
    var mine := OfKey(ms[i..], k);
    && Live(size, ms, k) && mine != [] && mine[0].key == k
    && Run(size, ms).flows[k] == Totals(mine)
  }

  lemma FlowBorn(size: real, past: seq<Sample>, m: Sample)
    requires !Live(size, past, m.key)
    ensures FlowIs(size, past + [m], m.key, |past|)
  {
    RunSnoc(size, past, m);
    UpdateOwn(size, Run(size, past), m);
    assert (past + [m])[|past|..] == [] + [m];
    OfKeySnoc([], m, m.key);
    OneTotals(m);
  }

  lemma FlowCounted(size: real, past: seq<Sample>, m: Sample, i: nat)
    requires i < |past| && FlowIs(size, past, m.key, i)
    ensures FlowIs(size, past + [m], m.key, i)
  {
    var mine := OfKey(past[i..], m.key);
    RunSnoc(size, past, m);
    UpdateOwn(size, Run(size, past), m);
    assert (past + [m])[i..] == past[i..] + [m];
    OfKeySnoc(past[i..], m, m.key);
    FlowTotalsSnoc(mine, m);
    assert (mine + [m])[0] == mine[0];
  }

  lemma FlowSkipped(size: real, past: seq<Sample>, m: Sample, k: FlowKey, i: nat)
    requires i < |past| && m.key != k && Live(size, past + [m], k)
    ensures Live(size, past, k)
    ensures FlowIs(size, past, k, i) ==> FlowIs(size, past + [m], k, i)
  {
    RunSnoc(size, past, m);
    UpdateOther(size, Run(size, past), m, k);
    assert (past + [m])[i..] == past[i..] + [m];
    OfKeySnoc(past[i..], m, k);
    assert OfKey((past + [m])[i..], k) == OfKey(past[i..], k);
  }

  /** A live flow records exactly its packets since its latest creation; the only destination port it ever
      sees is the one in its key. */
  lemma {:induction false} LiveFlowMeaning(size: real, ms: seq<Sample>, k: FlowKey, i: nat)
    requires Live(size, ms, k) && IsBirth(size, ms, k, i)
    ensures FlowIs(size, ms, k, i)
    ensures Run(size, ms).flows[k].dstPortsSeen == [k.dstPort]
  {
    var past, m := ms[..|ms| - 1], ms[|ms| - 1];
    assert ms == past + [m];
    if i == |past| {
      FlowBorn(size, past, m);
    } else {
      if m.key != k {
        FlowSkipped(size, past, m, k, i);
      }
      BirthInLonger(size, past, m, k, i);
      LiveFlowMeaning(size, past, k, i);
      if m.key == k {
        FlowCounted(size, past, m, i);
      }
    }
  }

  /** Every emitted record reports one scanned port and no port scan: a flow is keyed by its destination
      port, so the per-flow port list cannot grow. */
  lemma {:induction false} NoRecordIsAPortScan(size: real, past: seq<Sample>, m: Sample)
    ensures var r := Record(Run(size, past), m); r.uniquePortsScanned == 1 && !r.isPortScan
  {
    var k := m.key;
    if Live(size, past, k) {
      var i := BirthExists(size, past, k);
      LiveFlowMeaning(size, past, k, i);
    }
  }

  /** What a record reports about the packet's own flow: the packets, bytes and duration since packet `i`, the
      one that last created it. */
  lemma RecordFlowMeaning(size: real, past: seq<Sample>, m: Sample) returns (i: nat)
    ensures IsBirth(size, past + [m], m.key, i)
    ensures var r, mine := Record(Run(size, past), m), OfKey((past + [m])[i..], m.key);
            && mine != []
            && r.flowPktCount == |mine| && r.flowByteCount == Total(Bytes, mine)
            && r.flowDuration == m.timestamp - mine[0].timestamp
  {
    RunSnoc(size, past, m);
    UpdateOwn(size, Run(size, past), m);
    i := BirthExists(size, past + [m], m.key);
    LiveFlowMeaning(size, past + [m], m.key, i);
  }

  function PktCounts(flows: map<FlowKey, FlowState>): map<FlowKey, int> {
    map k | k in flows :: flows[k].pktCount
  }

  /** The packet counts of the flows evicted so far, each taken when it was evicted. */
  ghost function EvictedPackets(size: real, ms: seq<Sample>): int {
    if ms == [] then 0
    else
      var past, m := ms[..|ms| - 1], ms[|ms| - 1];
      var flows := Touched(Run(size, past), m).flows;
      EvictedPackets(size, past) +
        if Closes(size, Run(size, past), m)
        then MapSums.Sum(PktCounts(flows) - Kept(flows, m.timestamp).Keys) else 0
  }

  /** Live plus evicted flow counts equal the number of updates. */
  lemma {:induction false} FlowConservation(size: real, ms: seq<Sample>)
    ensures MapSums.Sum(PktCounts(Run(size, ms).flows)) + EvictedPackets(size, ms) == |ms|
  {
    if ms == [] {
      assert PktCounts(Run(size, ms).flows) == map[];
    } else {
      var past, m := ms[..|ms| - 1], ms[|ms| - 1];
      var t := Run(size, past);
      FlowConservation(size, past);
      TouchedCounts(t, m);
      KeptCounts(Touched(t, m).flows, m.timestamp);
    }
  }

  lemma TouchedCounts(t: Tracker, m: Sample)
    ensures MapSums.Sum(PktCounts(Touched(t, m).flows)) == MapSums.Sum(PktCounts(t.flows)) + 1
  {
    var f := TouchedFlow(t.flows, m);
    MapSums.SumUpdate(PktCounts(t.flows), m.key, f.pktCount);
    assert PktCounts(Touched(t, m).flows) == PktCounts(t.flows)[m.key := f.pktCount];
  }

  lemma KeptCounts(flows: map<FlowKey, FlowState>, now: real)
    ensures var kept := Kept(flows, now);
            MapSums.Sum(PktCounts(flows)) == MapSums.Sum(PktCounts(flows) - kept.Keys) + MapSums.Sum(PktCounts(kept))
  {
    var kept, counts := Kept(flows, now), PktCounts(flows);
    MapSums.SumSplit(counts, kept.Keys);
    assert counts - (counts.Keys - kept.Keys) == PktCounts(kept);
  }

  // ----- Which flows are live -----

  function LastTimes(flows: map<FlowKey, FlowState>): map<FlowKey, real> {
    map k | k in flows :: flows[k].lastSeen
  }

  function StepOf(size: real, t: Tracker, m: Sample): LastSeen.Step<FlowKey> {
    LastSeen.Step(Some(m.key), m.timestamp,
                  if Closes(size, t, m) then Some(LastSeen.KeepAfter(m.timestamp - IDLE_LIMIT)) else None)
  }

  function Steps(size: real, ms: seq<Sample>): seq<LastSeen.Step<FlowKey>> {
    seq(|ms|, i requires 0 <= i < |ms| => StepOf(size, Run(size, ms[..i]), ms[i]))
  }

  lemma StepsInit(size: real, ms: seq<Sample>)
    requires ms != []
    ensures Steps(size, ms)[..|ms| - 1] == Steps(size, ms[..|ms| - 1])
  {
    assert forall i | 0 <= i < |ms| - 1 :: ms[..|ms| - 1][..i] == ms[..i];
  }

  lemma UpdateTimes(size: real, t: Tracker, m: Sample)
    ensures var step := StepOf(size, t, m);
            LastTimes(Update(size, t, m).flows)
            == LastSeen.Swept(LastSeen.Touched(LastTimes(t.flows), step), step.sweep)
  {
    assert LastTimes(Touched(t, m).flows) == LastSeen.Touched(LastTimes(t.flows), StepOf(size, t, m));
  }

  lemma {:induction false} FlowTimes(size: real, ms: seq<Sample>)
    ensures LastTimes(Run(size, ms).flows) == LastSeen.Seen(Steps(size, ms))
  {
    if ms != [] {
      FlowTimes(size, ms[..|ms| - 1]);
      StepsInit(size, ms);
      UpdateTimes(size, Run(size, ms[..|ms| - 1]), ms[|ms| - 1]);
    }
  }

  /** Packet `i` is the latest one of flow `k`. */
  ghost predicate IsLatest(ms: seq<Sample>, k: FlowKey, i: nat) {
    i < |ms| && ms[i].key == k && forall j | i < j < |ms| :: ms[j].key != k
  }

  ghost predicate NeverIdle(size: real, ms: seq<Sample>, i: nat)
    requires i < |ms|
  {
    forall e | i <= e < |ms| && Emits(size, ms, e) :: ms[e].timestamp - ms[i].timestamp < 60.0
  }

  lemma LatestIsLastTouch(size: real, ms: seq<Sample>, k: FlowKey, i: nat)
    requires IsLatest(ms, k, i)
    ensures LastSeen.IsLastTouch(Steps(size, ms), k, i)
  {
  }

  lemma EmitsIsSweep(size: real, ms: seq<Sample>, i: nat, e: nat)
    requires i <= e < |ms|
    ensures var steps := Steps(size, ms);
            && (Emits(size, ms, e) <==> steps[e].sweep.Some?)
            && (Emits(size, ms, e) ==>
                  (LastSeen.Keeps(steps[e].sweep.value, steps[i].at)
                   <==> ms[e].timestamp - ms[i].timestamp < 60.0))
  {
  }

  lemma NeverIdleIsSurvival(size: real, ms: seq<Sample>, i: nat)
    requires i < |ms|
    ensures NeverIdle(size, ms, i) <==> LastSeen.Survives(Steps(size, ms), i)
  {
    var steps := Steps(size, ms);
    if NeverIdle(size, ms, i) {
      forall e | i <= e < |ms| && steps[e].sweep.Some?
        ensures LastSeen.Keeps(steps[e].sweep.value, steps[i].at)
      {
        EmitsIsSweep(size, ms, i, e);
      }
    }
    if LastSeen.Survives(steps, i) {
      forall e | i <= e < |ms| && Emits(size, ms, e)
        ensures ms[e].timestamp - ms[i].timestamp < 60.0
      {
        EmitsIsSweep(size, ms, i, e);
        assert LastSeen.Keeps(steps[e].sweep.value, steps[i].at);
      }
    }
  }

  /** On every run, whatever the timestamps: a flow is live exactly if every emission since its latest packet
      came less than 60 s after that packet. */
  lemma LiveIff(size: real, ms: seq<Sample>, k: FlowKey, i: nat)
    requires IsLatest(ms, k, i)
    ensures Live(size, ms, k) <==> NeverIdle(size, ms, i)
    ensures Live(size, ms, k) ==> Run(size, ms).flows[k].lastSeen == ms[i].timestamp
  {
    FlowTimes(size, ms);
    LatestIsLastTouch(size, ms, k, i);
    NeverIdleIsSurvival(size, ms, i);
    LastSeen.SeenLast(Steps(size, ms), k, i);
    assert k in LastTimes(Run(size, ms).flows) <==> Live(size, ms, k);
  }

  ghost predicate NonDecreasing(ms: seq<Sample>) {
    forall i, j | 0 <= i < j < |ms| :: ms[i].timestamp <= ms[j].timestamp
  }

  lemma {:induction false} LatestPacket(ms: seq<Sample>, k: FlowKey, j: nat) returns (i: nat)
    requires j < |ms| && ms[j].key == k
    ensures IsLatest(ms, k, i) && j <= i
  {
    var n := |ms| - 1;
    if ms[n].key == k {
      i := n;
    } else {
      i := LatestPacket(ms[..n], k, j);
    }
  }

  /** Some packet of the flow is less than 60 s older than the last packet of the run. */
  ghost predicate Active(ms: seq<Sample>, k: FlowKey)
    requires ms != []
  {
    exists i :: 0 <= i < |ms| && ms[i].key == k && ms[|ms| - 1].timestamp - ms[i].timestamp < 60.0
  }

  lemma NotSeenNotLive(size: real, ms: seq<Sample>, k: FlowKey)
    requires forall i | 0 <= i < |ms| :: ms[i].key != k
    ensures !Live(size, ms, k)
  {
    FlowTimes(size, ms);
    LastSeen.SeenNever(Steps(size, ms), k);
    assert k in LastTimes(Run(size, ms).flows) <==> Live(size, ms, k);
  }

  /** After an emission the tracker holds exactly the flows active in the last 60 s: those with a packet less
      than 60 s before it. */
  lemma EvictionIsExact(size: real, past: seq<Sample>, m: Sample, k: FlowKey)
    requires NonDecreasing(past + [m]) && Closes(size, Run(size, past), m)
    ensures Live(size, past + [m], k) <==> Active(past + [m], k)
  {
    var ms := past + [m];
    if j: nat :| j < |ms| && ms[j].key == k {
      var i := LatestPacket(ms, k, j);
      LiveIff(size, ms, k, i);
      assert ms[..|past|] == past;
      assert Emits(size, ms, |past|);
      ActiveIffNeverIdle(size, ms, k, i);
    } else {
      NotSeenNotLive(size, ms, k);
    }
  }

  lemma ActiveIffNeverIdle(size: real, ms: seq<Sample>, k: FlowKey, i: nat)
    requires IsLatest(ms, k, i) && NonDecreasing(ms) && Emits(size, ms, |ms| - 1)
    ensures NeverIdle(size, ms, i) <==> Active(ms, k)
  {
    var n := |ms| - 1;
    assert forall e | i <= e < |ms| :: ms[e].timestamp <= ms[n].timestamp;
    if Active(ms, k) {
      var j :| 0 <= j < |ms| && ms[j].key == k && ms[n].timestamp - ms[j].timestamp < 60.0;
      assert j <= i && ms[j].timestamp <= ms[i].timestamp;
    }
  }

  // ----- The simulated clock -----

  /** One captured packet: its capture time, and its metadata when it parses (the time is filled in). */
  datatype RawPacket = RawPacket(rawTs: real, parsed: Option<Sample>)

  datatype Clock = Clock(now: real, prev: Option<real>)

  function Gap(prev: Option<real>, rawTs: real): real {
    match prev
    case None => 0.001
    case Some(p) => var diff := rawTs - p; if diff <= 0.0 || diff > 2.0 then 0.001 else diff
  }

  function Tick(c: Clock, p: RawPacket): Clock {
    Clock(c.now + Gap(c.prev, p.rawTs), Some(p.rawTs))
  }

  function ClockAfter(start: real, ps: seq<RawPacket>): Clock {
    if ps == [] then Clock(start, None) else Tick(ClockAfter(start, ps[..|ps| - 1]), ps[|ps| - 1])
  }

  /** The updates the replay loop hands to the tracker. */
  function Metas(start: real, ps: seq<RawPacket>): seq<Sample> {
    if ps == [] then []
    else
      var p := ps[|ps| - 1];
      Metas(start, ps[..|ps| - 1]) +
        match p.parsed
        case None => []
        case Some(m) => [m.(timestamp := ClockAfter(start, ps).now)]
  }

  /** How many packets at the end of the sequence did not parse. */
  function TrailingUnparsed(ps: seq<RawPacket>): nat {
    if ps == [] || ps[|ps| - 1].parsed.Some? then 0 else 1 + TrailingUnparsed(ps[..|ps| - 1])
  }

  lemma ClockStep(start: real, ps: seq<RawPacket>, p: RawPacket)
    ensures ClockAfter(start, ps + [p]) == Tick(ClockAfter(start, ps), p)
    ensures 0.0 < ClockAfter(start, ps + [p]).now - ClockAfter(start, ps).now <= 2.0
  {
    assert (ps + [p])[..|ps|] == ps;
  }

  /** The gap before packet `i`, as captured. */
  function RawGap(ps: seq<RawPacket>, i: nat): real
    requires 0 < i < |ps|
  {
    ps[i].rawTs - ps[i - 1].rawTs
  }

  /** The gaps of the first packets that are replayed as captured: those above zero and up to two seconds. */
  function ReplayedGaps(ps: seq<RawPacket>): real {
    if |ps| < 2 then 0.0
    else
      var gap := RawGap(ps, |ps| - 1);
      ReplayedGaps(ps[..|ps| - 1]) + if 0.0 < gap <= 2.0 then gap else 0.0
  }

  /** How many packets come without such a gap, the first one included. */
  function WithoutGap(ps: seq<RawPacket>): nat {
    if ps == [] then 0
    else WithoutGap(ps[..|ps| - 1]) +
         if |ps| > 1 && 0.0 < RawGap(ps, |ps| - 1) <= 2.0 then 0 else 1
  }

  lemma {:induction false} ClockRemembers(start: real, ps: seq<RawPacket>)
    ensures ClockAfter(start, ps).prev == if ps == [] then None else Some(ps[|ps| - 1].rawTs)
  {
  }

  /** On every replay the clock shows its start plus the captured gaps of at most two seconds, plus one millisecond
      for every packet that comes without such a gap. */
  lemma {:induction false} ClockIsSum(start: real, ps: seq<RawPacket>)
    ensures ClockAfter(start, ps).now == start + ReplayedGaps(ps) + 0.001 * WithoutGap(ps) as real
  {
    if ps != [] {
      var past := ps[..|ps| - 1];
      ClockIsSum(start, past);
      ClockRemembers(start, past);
      if |ps| > 1 {
        assert past[|past| - 1] == ps[|ps| - 2];
      }
    }
  }

  /** The time of packet `i` on the simulated clock. */
  function ClockAt(start: real, ps: seq<RawPacket>, i: nat): real
    requires i < |ps|
  {
    ClockAfter(start, ps[..i + 1]).now
  }

  lemma NextClock(start: real, ps: seq<RawPacket>, i: nat)
    requires 0 < i < |ps|
    ensures var gap := RawGap(ps, i);
            ClockAt(start, ps, i) - ClockAt(start, ps, i - 1) == if 0.0 < gap <= 2.0 then gap else 0.001
  {
    assert ps[..i + 1][..i] == ps[..i];
    ClockRemembers(start, ps[..i]);
    assert ps[..i][i - 1] == ps[i - 1];
  }

  /** Between two packets without a pause or a step back in between, the clock advances as captured. */
  lemma {:induction false} ClockKeepsGaps(start: real, ps: seq<RawPacket>, i: nat, j: nat)
    requires i <= j < |ps| && forall k | i < k <= j :: 0.0 < RawGap(ps, k) <= 2.0
    ensures ClockAt(start, ps, j) - ClockAt(start, ps, i) == ps[j].rawTs - ps[i].rawTs
  {
    if i < j {
      ClockKeepsGaps(start, ps, i, j - 1);
      NextClock(start, ps, j);
    }
  }

  /** The clock never goes back, no update is in its future, the open window is younger than its size at
      the last update, and the clock has advanced since by at most two seconds per packet read. */
  ghost predicate ClockIs(start: real, size: real, ps: seq<RawPacket>) {
    var ms, now, w := Metas(start, ps), ClockAfter(start, ps).now, Run(size, Metas(start, ps)).window;
    && now >= start
    && (forall i | 0 <= i < |ms| :: 0.0 < ms[i].timestamp <= now)
    && (if ms == [] then w.start == 0.0 else
          var last := ms[|ms| - 1].timestamp;
          && 0.0 < w.start <= last < w.start + size
          && now - last <= 2.0 * TrailingUnparsed(ps) as real)
  }

  lemma MetasSnoc(start: real, ps: seq<RawPacket>, p: RawPacket)
    ensures Metas(start, ps + [p]) == Metas(start, ps) +
              match p.parsed case None => [] case Some(m) => [m.(timestamp := ClockAfter(start, ps + [p]).now)]
    ensures TrailingUnparsed(ps + [p]) == if p.parsed.Some? then 0 else 1 + TrailingUnparsed(ps)
  {
    assert (ps + [p])[..|ps|] == ps;
  }

  lemma ClockParsed(start: real, size: real, ps: seq<RawPacket>, p: RawPacket)
    requires start > 0.0 && size > 0.0 && ClockIs(start, size, ps) && p.parsed.Some?
    ensures ClockIs(start, size, ps + [p])
  {
    ClockStep(start, ps, p);
    MetasSnoc(start, ps, p);
    RunSnoc(size, Metas(start, ps), p.parsed.value.(timestamp := ClockAfter(start, ps + [p]).now));
  }

  lemma ClockUnparsed(start: real, size: real, ps: seq<RawPacket>, p: RawPacket)
    requires ClockIs(start, size, ps) && p.parsed.None?
    ensures ClockIs(start, size, ps + [p])
  {
    ClockStep(start, ps, p);
    MetasSnoc(start, ps, p);
    assert Metas(start, ps) + [] == Metas(start, ps);
  }

  lemma {:induction false} ClockInvariant(start: real, size: real, ps: seq<RawPacket>)
    requires start > 0.0 && size > 0.0
    ensures ClockIs(start, size, ps)
  {
    if ps != [] {
      var past, p := ps[..|ps| - 1], ps[|ps| - 1];
      ClockInvariant(start, size, past);
      if p.parsed.Some? {
        ClockParsed(start, size, past, p);
      } else {
        ClockUnparsed(start, size, past, p);
      }
      assert ps == past + [p];
    }
  }

  /** The bounds of an emitted window: at least the window size, and less than the size plus two seconds for
      the emitting packet and for each unparsed packet right before it. */
  lemma EmittedWindowBounds(start: real, size: real, past: seq<RawPacket>, p: RawPacket)
    requires start > 0.0 && size > 0.0 && p.parsed.Some?
    ensures var t, m := Run(size, Metas(start, past)),
                        p.parsed.value.(timestamp := ClockAfter(start, past + [p]).now);
            && Metas(start, past + [p]) == Metas(start, past) + [m]
            && 0.0 <= Elapsed(t, m)
            && (Closes(size, t, m) ==>
                  size <= Elapsed(t, m) < size + 2.0 * (TrailingUnparsed(past) + 1) as real)
  {
    ClockInvariant(start, size, past);
    ClockStep(start, past, p);
    MetasSnoc(start, past, p);
  }

  /** With the one-second windows of the ingestor and every packet parsed, each emitted window lasts at least
      one second and less than three. */
  lemma {:induction false} OneSecondWindows(start: real, past: seq<RawPacket>, p: RawPacket)
    requires start > 0.0 && p.parsed.Some? && forall x | x in past :: x.parsed.Some?
    ensures var t, m := Run(1.0, Metas(start, past)),
                        p.parsed.value.(timestamp := ClockAfter(start, past + [p]).now);
            Closes(1.0, t, m) ==> 1.0 <= Elapsed(t, m) < 3.0
  {
    EmittedWindowBounds(start, 1.0, past, p);
    if past != [] {
      assert past[|past| - 1] in past;
    }
    assert TrailingUnparsed(past) == 0;
  }

  /** On the replay clock a flow never appears to end before it began. */
  lemma DurationNonNegative(start: real, size: real, past: seq<RawPacket>, p: RawPacket)
    requires start > 0.0 && size > 0.0 && p.parsed.Some?
    ensures var t, m := Run(size, Metas(start, past)),
                        p.parsed.value.(timestamp := ClockAfter(start, past + [p]).now);
            Record(t, m).flowDuration >= 0.0
  {
    var ms, m := Metas(start, past), p.parsed.value.(timestamp := ClockAfter(start, past + [p]).now);
    var k := m.key;
    ClockInvariant(start, size, past);
    ClockStep(start, past, p);
    if Live(size, ms, k) {
      var i := BirthExists(size, ms, k);
      LiveFlowMeaning(size, ms, k, i);
      OfKeyMembers(ms[i..], k);
      var first := OfKey(ms[i..], k)[0];
      assert first in ms[i..];
      assert first in ms;
    }
  }

  lemma {:induction false} MetasAreSorted(start: real, ps: seq<RawPacket>)
    ensures NonDecreasing(Metas(start, ps))
    ensures forall i | 0 <= i < |Metas(start, ps)| :: Metas(start, ps)[i].timestamp <= ClockAfter(start, ps).now
  {
    if ps != [] {
      var past, p := ps[..|ps| - 1], ps[|ps| - 1];
      assert ps == past + [p];
      MetasAreSorted(start, past);
      ClockStep(start, past, p);
      MetasSnoc(start, past, p);
    }
  }

  /** So on the replay clock, after each emission, the tracker holds exactly the flows of the last 60 s. */
  lemma EvictionOnReplayClock(start: real, size: real, past: seq<RawPacket>, p: RawPacket, k: FlowKey)
    requires p.parsed.Some?
    ensures var ms := Metas(start, past + [p]);
            && ms != []
            && (Emits(size, ms, |ms| - 1) ==> (Live(size, ms, k) <==> Active(ms, k)))
  {
    var before, ms := Metas(start, past), Metas(start, past + [p]);
    MetasAreSorted(start, past + [p]);
    MetasSnoc(start, past, p);
    assert ms[..|before|] == before;
    if Emits(size, ms, |ms| - 1) {
      assert ms == before + [ms[|ms| - 1]];
      EvictionIsExact(size, before, ms[|ms| - 1], k);
    }
  }

  // ----- From the wire to the tracker -----

  datatype PacketMeta = PacketMeta(srcIp: string, dstIp: string, srcPort: nat, dstPort: nat, protocol: string,
                                   ipLen: nat, tcpFlags: bv8, timestamp: real)

  datatype FeatureRecord = FeatureRecord(meta: PacketMeta, features: Features)

  /** A captured packet: its capture time and, if it parses, its metadata (the time is filled in later). */
  datatype WirePacket = WirePacket(rawTs: real, parsed: Option<PacketMeta>)

  function AddressOf(s: string): Quad {
    match ParseIp(s) case Some(q) => q case None => Quad(0, 0, 0, 0)
  }

  function SampleOf(m: PacketMeta): Sample {
    var protocol := if m.protocol == "TCP" then 6 else 17;
    Sample(FlowKey(AddressOf(m.srcIp), AddressOf(m.dstIp), m.srcPort, m.dstPort, protocol),
           m.ipLen, m.tcpFlags & 2 != 0, m.timestamp)
  }

  function RawOf(p: WirePacket): RawPacket {
    RawPacket(p.rawTs, match p.parsed case None => None case Some(m) => Some(SampleOf(m)))
  }

  function RawsOf(ps: seq<WirePacket>): (r: seq<RawPacket>)
    ensures |r| == |ps| && forall i | 0 <= i < |ps| :: r[i] == RawOf(ps[i])
  {
    if ps == [] then [] else RawsOf(ps[..|ps| - 1]) + [RawOf(ps[|ps| - 1])]
  }

  /** Packets read off the wire keep their five-tuple: two samples share a flow exactly when the printed
      addresses, the ports and the protocol agree. */
  lemma KeyIsFiveTuple(m: PacketMeta, src: Quad, dst: Quad)
    requires IsAddress(src) && IsAddress(dst) && m.srcIp == ShowQuad(src) && m.dstIp == ShowQuad(dst)
    ensures SampleOf(m).key == FlowKey(src, dst, m.srcPort, m.dstPort, if m.protocol == "TCP" then 6 else 17)
  {
    ParseIpRoundTrip(src);
    ParseIpRoundTrip(dst);
  }

  /** What of a packet's metadata is counted: its length, its time, and a SYN exactly if the second lowest bit of
      the TCP flags is set, alone or with others. */
  lemma SampleMeaning(m: PacketMeta)
    ensures SampleOf(m).ipLen == m.ipLen && SampleOf(m).timestamp == m.timestamp
    ensures SampleOf(m).syn <==> (m.tcpFlags >> 1) % 2 == 1
    ensures SampleOf(m).key.srcPort == m.srcPort && SampleOf(m).key.dstPort == m.dstPort
  {
  }

  /** An address that does not parse counts as 0.0.0.0, and every parsed one is an address. */
  lemma AddressMeaning(s: string)
    ensures IsAddress(AddressOf(s))
    ensures ParseIp(s).None? ==> AddressOf(s) == Quad(0, 0, 0, 0)
  {
    ParseIpRange(s);
  }

  // ----- The class and the replay loop -----

  class FlowTracker {
    var flows: map<FlowKey, FlowState>
    var windowPkts: nat
    var windowBytes: nat
    var windowSyns: nat
    var windowDstPorts: map<nat, nat>
    var windowStart: real
    const windowSize: real
    ghost var samples: seq<Sample>

    function Abs(): Tracker
      reads this
    {
      Tracker(flows, Window(windowPkts, windowBytes, windowSyns, windowDstPorts, windowStart))
    }

    /** The state is the one the updates so far produce. */
    ghost predicate Valid()
      reads this
    {
      Abs() == Run(windowSize, samples)
    }

    constructor (windowSize: real)
      ensures Valid() && this.windowSize == windowSize && samples == []
    {
      this.windowSize, samples := windowSize, [];
      flows, windowPkts, windowBytes, windowSyns, windowDstPorts, windowStart := map[], 0, 0, 0, map[], 0.0;
    }

    method Update(meta: PacketMeta) returns (feat: Option<FeatureRecord>)
      requires Valid()
      modifies this
      ensures Valid() && samples == old(samples) + [SampleOf(meta)]
      ensures feat == if Closes(windowSize, Run(windowSize, old(samples)), SampleOf(meta))
                      then Some(FeatureRecord(meta, Record(Run(windowSize, old(samples)), SampleOf(meta)))) else None
    {
      var features := Apply(SampleOf(meta));
      feat := match features case None => None case Some(f) => Some(FeatureRecord(meta, f));
    }

    method UpdateFlow(m: Sample)
      modifies this`flows
      ensures flows == old(flows)[m.key := TouchedFlow(old(flows), m)]
    {
      var flow := if m.key in flows then flows[m.key] else FlowState(0, 0, 0, m.timestamp, m.timestamp, []);
      flow := flow.(pktCount := flow.pktCount + 1, byteCount := flow.byteCount + m.ipLen, lastSeen := m.timestamp);
      if m.syn {
        flow := flow.(synCount := flow.synCount + 1);
      }
      if m.key.dstPort !in flow.dstPortsSeen {
        flow := flow.(dstPortsSeen := flow.dstPortsSeen + [m.key.dstPort]);
      }
      flows := flows[m.key := flow];
    }

    method UpdateWindow(m: Sample)
      modifies this`windowPkts, this`windowBytes, this`windowSyns, this`windowDstPorts, this`windowStart
      ensures Abs().window == TouchedWindow(old(Abs().window), m)
    {
      if windowStart == 0.0 {
        windowStart := m.timestamp;
      }
      windowPkts := windowPkts + 1;
      windowBytes := windowBytes + m.ipLen;
      if m.syn {
        windowSyns := windowSyns + 1;
      }
      windowDstPorts := windowDstPorts[m.key.dstPort := PortCount(windowDstPorts, m.key.dstPort) + 1];
    }

    /** The record of the window that `m` closes, and the reset for the next one. */
    method CloseWindow(m: Sample) returns (features: Features)
      requires m.key in flows
      modifies this`flows, this`windowPkts, this`windowBytes, this`windowSyns, this`windowDstPorts, this`windowStart
      ensures Abs() == Tracker(Kept(old(flows), m.timestamp), Window(0, 0, 0, map[], m.timestamp))
      ensures var e := AtLeastMilli(m.timestamp - old(windowStart));
              features == FeaturesOf(m, old(Abs().window), old(flows)[m.key], e)
    {
      var e, f := AtLeastMilli(m.timestamp - windowStart), flows[m.key];
      features := Features(
        m.timestamp, PerSecond(windowPkts, e), PerSecond(windowBytes * 8, e) / 1000000.0, PerSecond(windowSyns, e),
        |windowDstPorts|, f.lastSeen - f.firstSeen, f.pktCount, f.byteCount, |f.dstPortsSeen| > 10, |f.dstPortsSeen|);
      windowPkts, windowBytes, windowSyns, windowDstPorts := 0, 0, 0, map[];
      windowStart := m.timestamp;
      flows := map k | k in flows && m.timestamp - flows[k].lastSeen < IDLE_LIMIT :: flows[k];
      assert flows == Kept(old(flows), m.timestamp);
    }

    method Apply(m: Sample) returns (features: Option<Features>)
      requires Valid()
      modifies this
      ensures Valid() && samples == old(samples) + [m]
      ensures features == if Closes(windowSize, Run(windowSize, old(samples)), m)
                          then Some(Record(Run(windowSize, old(samples)), m)) else None
    {
      RunSnoc(windowSize, samples, m);
      samples := samples + [m];
      UpdateFlow(m);
      UpdateWindow(m);
      features := None;
      if m.timestamp - windowStart >= windowSize {
        var closed := CloseWindow(m);
        features := Some(closed);
      }
    }
  }

  /** The record one parsed packet makes the tracker emit, if any: its own metadata with the features. */
  function EmittedBy(samples: seq<Sample>, meta: PacketMeta): seq<FeatureRecord> {
    var t, m := Run(1.0, samples), SampleOf(meta);
    if Closes(1.0, t, m) then [FeatureRecord(meta, Record(t, m))] else []
  }

  /** The records a replay emits, in order. */
  function Emitted(start: real, ps: seq<WirePacket>): seq<FeatureRecord> {
    if ps == [] then []
    else
      var past := ps[..|ps| - 1];
      Emitted(start, past) +
        match ps[|ps| - 1].parsed
        case None => []
        case Some(meta) =>
          EmittedBy(Metas(start, RawsOf(past)), meta.(timestamp := ClockAfter(start, RawsOf(ps)).now))
  }

  function FeaturesIn(records: seq<FeatureRecord>): seq<Features> {
    if records == [] then [] else FeaturesIn(records[..|records| - 1]) + [records[|records| - 1].features]
  }

  lemma FeaturesSnoc(records: seq<FeatureRecord>, r: FeatureRecord)
    ensures FeaturesIn(records + [r]) == FeaturesIn(records) + [r.features]
  {
    assert (records + [r])[..|records|] == records;
  }

  lemma EmittedByFeatures(records: seq<FeatureRecord>, samples: seq<Sample>, meta: PacketMeta)
    requires FeaturesIn(records) == Records(1.0, samples)
    ensures FeaturesIn(records + EmittedBy(samples, meta)) == Records(1.0, samples + [SampleOf(meta)])
  {
    var t, m := Run(1.0, samples), SampleOf(meta);
    RunSnoc(1.0, samples, m);
    if Closes(1.0, t, m) {
      FeaturesSnoc(records, FeatureRecord(meta, Record(t, m)));
    } else {
      assert records + [] == records;
      assert Records(1.0, samples) + [] == Records(1.0, samples);
    }
  }

  lemma MetasOfRaws(start: real, ps: seq<WirePacket>)
    requires ps != []
    ensures var past, now := RawsOf(ps[..|ps| - 1]), ClockAfter(start, RawsOf(ps)).now;
            Metas(start, RawsOf(ps)) == Metas(start, past) +
              match ps[|ps| - 1].parsed case None => [] case Some(m) => [SampleOf(m.(timestamp := now))]
  {
    MetasSnoc(start, RawsOf(ps[..|ps| - 1]), RawOf(ps[|ps| - 1]));
  }

  /** Their features are those of the windows that the tracker's updates close. */
  lemma {:induction false} EmittedFeatures(start: real, ps: seq<WirePacket>)
    ensures FeaturesIn(Emitted(start, ps)) == Records(1.0, Metas(start, RawsOf(ps)))
  {
    if ps != [] {
      var past, p := ps[..|ps| - 1], ps[|ps| - 1];
      EmittedFeatures(start, past);
      MetasOfRaws(start, ps);
      if p.parsed.Some? {
        var meta := p.parsed.value.(timestamp := ClockAfter(start, RawsOf(ps)).now);
        EmittedByFeatures(Emitted(start, past), Metas(start, RawsOf(past)), meta);
      } else {
        assert Emitted(start, ps) == Emitted(start, past);
        assert Metas(start, RawsOf(ps)) == Metas(start, RawsOf(past));
      }
    }
  }

  lemma RawsSnoc(ps: seq<WirePacket>, i: nat)
    requires i < |ps|
    ensures RawsOf(ps[..i + 1]) == RawsOf(ps[..i]) + [RawOf(ps[i])]
  {
    assert ps[..i + 1][..i] == ps[..i];
  }

  /** The replay loop over a captured packet sequence (the files in order, as often as they are replayed):
      the tracker sees the parsed packets at their simulated times, and every record it emits is sent. */
  method Replay(start: real, packets: seq<WirePacket>) returns (tracker: FlowTracker, sent: seq<FeatureRecord>)
    ensures fresh(tracker) && tracker.Valid() && tracker.windowSize == 1.0
    ensures tracker.samples == Metas(start, RawsOf(packets))
    ensures sent == Emitted(start, packets)
    ensures FeaturesIn(sent) == Records(1.0, tracker.samples)
  {
    tracker := new FlowTracker(1.0);
    sent := [];
    var clock := Clock(start, None);
    for i := 0 to |packets|
      invariant fresh(tracker) && tracker.Valid() && tracker.windowSize == 1.0
      invariant clock == ClockAfter(start, RawsOf(packets[..i]))
      invariant tracker.samples == Metas(start, RawsOf(packets[..i]))
      invariant sent == Emitted(start, packets[..i])
    {
      var p := packets[i];
      assert packets[..i + 1][..i] == packets[..i];
      RawsSnoc(packets, i);
      ClockStep(start, RawsOf(packets[..i]), RawOf(p));
      MetasSnoc(start, RawsOf(packets[..i]), RawOf(p));
      clock := Clock(clock.now + Gap(clock.prev, p.rawTs), Some(p.rawTs));
      sent := Feed(tracker, p.parsed, clock.now, sent);
    }
    assert packets[..|packets|] == packets;
    EmittedFeatures(start, packets);
  }

  /** One turn of the loop body: a packet that does not parse only advances the clock. */
  method Feed(tracker: FlowTracker, parsed: Option<PacketMeta>, now: real, sent: seq<FeatureRecord>)
      returns (sent': seq<FeatureRecord>)
    requires tracker.Valid() && tracker.windowSize == 1.0
    modifies tracker
    ensures tracker.Valid()
    ensures sent' == sent +
              match parsed case None => [] case Some(m) => EmittedBy(old(tracker.samples), m.(timestamp := now))
    ensures tracker.samples == old(tracker.samples) +
              match parsed case None => [] case Some(m) => [SampleOf(m).(timestamp := now)]
  {
    sent' := sent;
    if parsed.Some? {
      var meta := parsed.value.(timestamp := now);
      var feat := tracker.Update(meta);
      if feat.Some? {
        sent' := sent + [feat.value];
      }
    }
  }
}
