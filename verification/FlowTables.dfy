/** assembler/flow_session_tables.py: the bounded LRU table and the flow assembler on top of it. */
module FlowTables {
  import opened Wrappers
  import opened Lru
  import opened Sequences

  /** Parsed packet metadata; `ipLen` is absent when the parser did not set it. */
  datatype Meta = Meta(srcIp: string, dstIp: string, srcPort: int, dstPort: int, protocol: string, ipLen: Option<int>)
  {
    function Len(): int {
      match ipLen case None => 0 case Some(n) => n
    }
  }

  datatype FlowKey = FlowKey(ip1: string, port1: int, ip2: string, port2: int, protocol: string)

  // ----- The flow key -----

  /** The order `sorted` puts strings in: by code point, a prefix first. */
  predicate Leq(a: string, b: string) {
    if a == "" then true
    else if b == "" then false
    else if a[0] != b[0] then a[0] < b[0]
    else Leq(a[1..], b[1..])
  }

  function MakeKey(meta: Meta): FlowKey {
    var (ip1, ip2) := if Leq(meta.srcIp, meta.dstIp) then (meta.srcIp, meta.dstIp) else (meta.dstIp, meta.srcIp);
    var (port1, port2) := if meta.srcPort <= meta.dstPort then (meta.srcPort, meta.dstPort)
                                                          else (meta.dstPort, meta.srcPort);
    FlowKey(ip1, port1, ip2, port2, meta.protocol)
  }

  lemma {:induction false} LeqIsTotalOrder(a: string, b: string)
    ensures Leq(a, b) || Leq(b, a)
    ensures Leq(a, b) && Leq(b, a) ==> a == b
  {
    if a != "" && b != "" && a[0] == b[0] {
      LeqIsTotalOrder(a[1..], b[1..]);
      assert a == [a[0]] + a[1..] && b == [b[0]] + b[1..];
    }
  }

  predicate SamePair<T(==)>(a: T, b: T, c: T, d: T) {
    (a == c && b == d) || (a == d && b == c)
  }

  /** Two packets fall in one flow exactly when they agree on the protocol, on the unordered pair of
      addresses and on the unordered pair of ports.  The two pairs are sorted separately, so A:1 -> B:2 and
      A:2 -> B:1 fall in one flow as well. */
  lemma SameFlowIff(p: Meta, q: Meta)
    ensures MakeKey(p) == MakeKey(q) <==>
              && p.protocol == q.protocol
              && SamePair(p.srcIp, p.dstIp, q.srcIp, q.dstIp)
              && SamePair(p.srcPort, p.dstPort, q.srcPort, q.dstPort)
  {
    LeqIsTotalOrder(p.srcIp, p.dstIp);
    LeqIsTotalOrder(q.srcIp, q.dstIp);
  }

  // ----- What one packet does -----

  /** The counters of a flow; `origin` is the packet the flow was created for. */
  datatype Stats = Stats(packetCount: nat, byteCount: int, firstSeen: real, lastSeen: real, origin: Meta)

  datatype Table = Table(order: seq<FlowKey>, stats: map<FlowKey, Stats>, evicted: nat)

  /** An accepted packet and the time it was processed at. */
  datatype Packet = Packet(meta: Meta, now: real)
  {
    function Key(): FlowKey { MakeKey(meta) }
  }

  ghost predicate WellFormed(t: Table) {
    Distinct(t.order) && Elems(t.order) == t.stats.Keys
  }

  function EvictOldest(t: Table): Table {
    if t.order == [] then t else Table(t.order[1..], t.stats - {t.order[0]}, t.evicted + 1)
  }

  function Opened(maxSize: int, t: Table, key: FlowKey, meta: Meta, now: real): Table {
    if key in t.stats then
      Table(Touch(t.order, key), t.stats[key := t.stats[key].(lastSeen := now)], t.evicted)
    else
      var room := if |t.order| >= maxSize then EvictOldest(t) else t;
      Table(room.order + [key], room.stats[key := Stats(0, 0, now, now, meta)], room.evicted)
  }

  function Counted(t: Table, key: FlowKey, len: int): Table {
    if key in t.stats then
      var s := t.stats[key];
      t.(stats := t.stats[key := s.(packetCount := s.packetCount + 1, byteCount := s.byteCount + len)])
    else t
  }

  function Feed(maxSize: int, t: Table, p: Packet): Table {
    Counted(Opened(maxSize, t, p.Key(), p.meta, p.now), p.Key(), p.meta.Len())
  }

  function Run(maxSize: int, ps: seq<Packet>): Table {
    if ps == [] then Table([], map[], 0)
    else Feed(maxSize, Run(maxSize, ps[..|ps| - 1]), ps[|ps| - 1])
  }

  lemma RunSnoc(maxSize: int, ps: seq<Packet>, p: Packet)
    ensures Run(maxSize, ps + [p]) == Feed(maxSize, Run(maxSize, ps), p)
  {
    assert (ps + [p])[..|ps|] == ps;
  }

  function KeysOf(ps: seq<Packet>): seq<FlowKey> {
    seq(|ps|, i requires 0 <= i < |ps| => ps[i].Key())
  }

  lemma EvictOldestWellFormed(t: Table)
    requires WellFormed(t)
    ensures WellFormed(EvictOldest(t)) && EvictOldest(t).stats.Keys <= t.stats.Keys
  {
    if t.order != [] {
      ElemsTail(t.order);
    }
  }

  lemma FeedOrder(maxSize: int, t: Table, p: Packet)
    requires WellFormed(t)
    ensures var t' := Feed(maxSize, t, p);
            WellFormed(t') && t'.order == Apply(maxSize, t.order, GetOrCreate(p.Key())) && p.Key() in t'.stats
  {
    var k := p.Key();
    assert k in t.order <==> k in Elems(t.order);
    if k in t.stats {
      ElemsTouch(t.order, k);
    } else {
      EvictOldestWellFormed(t);
      var room := if |t.order| >= maxSize then EvictOldest(t) else t;
      ElemsSnoc(room.order, k);
    }
  }

  lemma KeysSnoc(maxSize: int, ps: seq<Packet>, p: Packet)
    ensures Keys(maxSize, KeysOf(ps + [p])) == Apply(maxSize, Keys(maxSize, KeysOf(ps)), GetOrCreate(p.Key()))
  {
    var trace := KeysOf(ps) + [p.Key()];
    assert KeysOf(ps + [p]) == trace;
    assert trace[..|trace| - 1] == KeysOf(ps);
  }

  /** The table's keys are those of the LRU order of the flow keys seen, so `LruMeaning`, `SurvivesIff`,
      `NotResetBetween` and `Inclusion` speak about flows. */
  lemma {:induction false} RunOrder(maxSize: int, ps: seq<Packet>)
    ensures WellFormed(Run(maxSize, ps))
    ensures Run(maxSize, ps).order == Keys(maxSize, KeysOf(ps))
  {
    if ps != [] {
      var past, p := ps[..|ps| - 1], ps[|ps| - 1];
      assert ps == past + [p];
      RunOrder(maxSize, past);
      RunSnoc(maxSize, past, p);
      FeedOrder(maxSize, Run(maxSize, past), p);
      KeysSnoc(maxSize, past, p);
    }
  }

  predicate Misses(t: Table, p: Packet) { p.Key() !in t.stats }

  // ----- What the counters of a live flow mean -----

  ghost predicate Live(maxSize: int, ps: seq<Packet>, k: FlowKey) {
    k in Run(maxSize, ps).stats
  }

  /** Packet `i` is the one that last created the flow of key `k`. */
  ghost predicate IsBirth(maxSize: int, ps: seq<Packet>, k: FlowKey, i: nat) {
    && i < |ps| && ps[i].Key() == k && !Live(maxSize, ps[..i], k)
    && forall j | i < j < |ps| && ps[j].Key() == k :: Live(maxSize, ps[..j], k)
  }

  function OfKey(ps: seq<Packet>, k: FlowKey): seq<Packet> {
    if ps == [] then []
    else OfKey(ps[..|ps| - 1], k) + (if ps[|ps| - 1].Key() == k then [ps[|ps| - 1]] else [])
  }

  /** The lengths of the packets that carry one. */
  function Bytes(ps: seq<Packet>): int {
    if ps == [] then 0
    else Bytes(ps[..|ps| - 1]) + match ps[|ps| - 1].meta.ipLen case None => 0 case Some(n) => n
  }

  /** What a flow made of exactly these packets, in this order, should record. */
  function Totals(ps: seq<Packet>): Stats
    requires ps != []
  {
    Stats(|ps|, Bytes(ps), ps[0].now, ps[|ps| - 1].now, ps[0].meta)
  }

  lemma OthersUntouched(maxSize: int, t: Table, p: Packet, k: FlowKey)
    requires k != p.Key() && k in Feed(maxSize, t, p).stats
    ensures k in t.stats && Feed(maxSize, t, p).stats[k] == t.stats[k]
  {
  }

  lemma BirthInLonger(maxSize: int, past: seq<Packet>, p: Packet, k: FlowKey, i: nat)
    requires i < |past|
    requires p.Key() == k ==> Live(maxSize, past, k)
    ensures IsBirth(maxSize, past + [p], k, i) <==> IsBirth(maxSize, past, k, i)
  {
    var ps := past + [p];
    assert ps[..i] == past[..i] && ps[..|past|] == past;
    assert forall j | 0 <= j < |past| :: ps[j] == past[j] && ps[..j] == past[..j];
  }

  lemma BirthNow(maxSize: int, past: seq<Packet>, p: Packet)
    requires !Live(maxSize, past, p.Key())
    ensures IsBirth(maxSize, past + [p], p.Key(), |past|)
  {
    assert (past + [p])[..|past|] == past;
  }

  lemma {:induction false} BirthExists(maxSize: int, ps: seq<Packet>, k: FlowKey) returns (i: nat)
    requires Live(maxSize, ps, k)
    ensures IsBirth(maxSize, ps, k, i)
  {
    var past, p := ps[..|ps| - 1], ps[|ps| - 1];
    assert ps == past + [p];
    if p.Key() == k && !Live(maxSize, past, k) {
      i := |past|;
      BirthNow(maxSize, past, p);
    } else {
      if p.Key() != k {
        OthersUntouched(maxSize, Run(maxSize, past), p, k);
      }
      i := BirthExists(maxSize, past, k);
      BirthInLonger(maxSize, past, p, k, i);
    }
  }

  lemma LastPacketOfFlow(maxSize: int, past: seq<Packet>, p: Packet, i: nat)
    requires i < |past| && Live(maxSize, past, p.Key())
    requires OfKey(past[i..], p.Key()) != []
    requires Run(maxSize, past).stats[p.Key()] == Totals(OfKey(past[i..], p.Key()))
    ensures var ps := past + [p];
            && Live(maxSize, ps, p.Key()) && OfKey(ps[i..], p.Key()) != []
            && Run(maxSize, ps).stats[p.Key()] == Totals(OfKey(ps[i..], p.Key()))
  {
    var ps, k := past + [p], p.Key();
    assert ps[..|ps| - 1] == past;
    assert ps[i..] == past[i..] + [p];
    OfKeySnoc(past[i..], p, k);
    TotalsSnoc(OfKey(past[i..], k), p);
    CountedFlow(maxSize, Run(maxSize, past), p);
  }

  lemma FirstPacketOfFlow(maxSize: int, past: seq<Packet>, p: Packet)
    requires !Live(maxSize, past, p.Key())
    ensures var ps := past + [p];
            && Live(maxSize, ps, p.Key()) && OfKey(ps[|past|..], p.Key()) == [p]
            && Run(maxSize, ps).stats[p.Key()] == Totals([p])
  {
    var ps := past + [p];
    assert ps[..|ps| - 1] == past;
    assert ps[|past|..] == [] + [p];
    OfKeySnoc([], p, p.Key());
    FreshFlow(maxSize, Run(maxSize, past), p);
  }

  lemma PacketOfAnotherFlow(maxSize: int, past: seq<Packet>, p: Packet, k: FlowKey, i: nat)
    requires i < |past| && p.Key() != k && Live(maxSize, past + [p], k)
    ensures Live(maxSize, past, k)
    ensures Run(maxSize, past + [p]).stats[k] == Run(maxSize, past).stats[k]
    ensures OfKey((past + [p])[i..], k) == OfKey(past[i..], k)
  {
    var ps := past + [p];
    assert ps[..|ps| - 1] == past;
    assert ps[i..] == past[i..] + [p];
    OfKeySnoc(past[i..], p, k);
    OthersUntouched(maxSize, Run(maxSize, past), p, k);
  }

  /** A live flow's counters are those of its packets since its latest creation, its times those of the first
      and last of them, and its recorded end points those of the first. */
  lemma {:induction false} LiveFlowMeaning(maxSize: int, ps: seq<Packet>, k: FlowKey, i: nat)
    requires Live(maxSize, ps, k) && IsBirth(maxSize, ps, k, i)
    ensures OfKey(ps[i..], k) != []
    ensures Run(maxSize, ps).stats[k] == Totals(OfKey(ps[i..], k))
  {
    var past, p := ps[..|ps| - 1], ps[|ps| - 1];
    assert ps == past + [p];
    if i == |past| {
      FirstPacketOfFlow(maxSize, past, p);
    } else {
      assert ps[..|past|] == past;
      BirthInLonger(maxSize, past, p, k, i);
      if p.Key() == k {
        LiveFlowMeaning(maxSize, past, k, i);
        LastPacketOfFlow(maxSize, past, p, i);
      } else {
        PacketOfAnotherFlow(maxSize, past, p, k, i);
        LiveFlowMeaning(maxSize, past, k, i);
      }
    }
  }

  lemma OfKeySnoc(ps: seq<Packet>, p: Packet, k: FlowKey)
    ensures OfKey(ps + [p], k) == OfKey(ps, k) + if p.Key() == k then [p] else []
  {
    assert (ps + [p])[..|ps|] == ps;
  }

  lemma FreshFlow(maxSize: int, t: Table, p: Packet)
    requires Misses(t, p)
    ensures p.Key() in Feed(maxSize, t, p).stats && Feed(maxSize, t, p).stats[p.Key()] == Totals([p])
  {
    assert Bytes([p]) == Bytes([p][..0]) + p.meta.Len();
  }

  lemma CountedFlow(maxSize: int, t: Table, p: Packet)
    requires !Misses(t, p)
    ensures var s := t.stats[p.Key()];
            && p.Key() in Feed(maxSize, t, p).stats
            && Feed(maxSize, t, p).stats[p.Key()]
               == Stats(s.packetCount + 1, s.byteCount + p.meta.Len(), s.firstSeen, p.now, s.origin)
  {
  }

  lemma TotalsSnoc(ps: seq<Packet>, p: Packet)
    requires ps != []
    ensures var s := Totals(ps);
            Totals(ps + [p]) == Stats(s.packetCount + 1, s.byteCount + p.meta.Len(), s.firstSeen, p.now, s.origin)
  {
    assert (ps + [p])[..|ps|] == ps;
  }

  // ----- Conservation -----

  /** The two counters of a flow; every statement below holds for either. */
  datatype Measure = PacketTotal | ByteTotal

  function Of(m: Measure, p: Packet): int {
    if m == PacketTotal then 1 else match p.meta.ipLen case None => 0 case Some(n) => n
  }

  function LoadAt(m: Measure, k: FlowKey, stats: map<FlowKey, Stats>): int {
    if k !in stats then 0 else if m == PacketTotal then stats[k].packetCount else stats[k].byteCount
  }

  /** The counters of the listed flows, summed. */
  function LiveLoad(m: Measure, order: seq<FlowKey>, stats: map<FlowKey, Stats>): int {
    if order == [] then 0 else LoadAt(m, order[0], stats) + LiveLoad(m, order[1..], stats)
  }

  predicate Evicts(maxSize: int, t: Table, p: Packet) {
    Misses(t, p) && |t.order| >= maxSize && t.order != []
  }

  /** The counter of the flow that packet `p` pushes out, if any. */
  function Dropped(m: Measure, maxSize: int, t: Table, p: Packet): int {
    if Evicts(maxSize, t, p) then LoadAt(m, t.order[0], t.stats) else 0
  }

  /** The counters of the flows dropped so far, each taken when it was dropped. */
  function LostLoad(m: Measure, maxSize: int, ps: seq<Packet>): int {
    if ps == [] then 0
    else
      var past := ps[..|ps| - 1];
      LostLoad(m, maxSize, past) + Dropped(m, maxSize, Run(maxSize, past), ps[|ps| - 1])
  }

  function Total(m: Measure, ps: seq<Packet>): int {
    if ps == [] then 0 else Total(m, ps[..|ps| - 1]) + Of(m, ps[|ps| - 1])
  }

  function Creations(maxSize: int, ps: seq<Packet>): nat {
    if ps == [] then 0
    else Creations(maxSize, ps[..|ps| - 1]) + if Misses(Run(maxSize, ps[..|ps| - 1]), ps[|ps| - 1]) then 1 else 0
  }

  lemma {:induction false} LiveLoadSnoc(m: Measure, order: seq<FlowKey>, k: FlowKey, stats: map<FlowKey, Stats>)
    ensures LiveLoad(m, order + [k], stats) == LiveLoad(m, order, stats) + LoadAt(m, k, stats)
  {
    if order == [] {
      assert ([] + [k])[1..] == [];
    } else {
      assert (order + [k])[1..] == order[1..] + [k];
      LiveLoadSnoc(m, order[1..], k, stats);
    }
  }

  lemma {:induction false} LiveLoadFrame(m: Measure, order: seq<FlowKey>, s1: map<FlowKey, Stats>,
                                         s2: map<FlowKey, Stats>)
    requires forall i | 0 <= i < |order| :: LoadAt(m, order[i], s1) == LoadAt(m, order[i], s2)
    ensures LiveLoad(m, order, s1) == LiveLoad(m, order, s2)
  {
    if order != [] {
      LiveLoadFrame(m, order[1..], s1, s2);
    }
  }

  lemma {:induction false} LiveLoadWithout(m: Measure, order: seq<FlowKey>, k: FlowKey, stats: map<FlowKey, Stats>)
    requires Distinct(order) && k in order
    ensures LiveLoad(m, order, stats) == LiveLoad(m, Without(order, k), stats) + LoadAt(m, k, stats)
  {
    var first, rest := order[0], order[1..];
    if first == k {
      assert k !in rest;
      assert Without(order, k) == rest;
    } else {
      LiveLoadWithout(m, rest, k, stats);
      assert Without(order, k) == [first] + Without(rest, k);
      assert Without(order, k)[1..] == Without(rest, k);
    }
  }

  /** What counting packet `p` does, once its key stands at the end of the order after `rest`. */
  lemma CountAtEnd(m: Measure, rest: seq<FlowKey>, p: Packet, before: map<FlowKey, Stats>, after: map<FlowKey, Stats>)
    requires LoadAt(m, p.Key(), after) == LoadAt(m, p.Key(), before) + Of(m, p)
    requires forall i | 0 <= i < |rest| :: LoadAt(m, rest[i], after) == LoadAt(m, rest[i], before)
    ensures LiveLoad(m, rest + [p.Key()], after)
         == LiveLoad(m, rest, before) + LoadAt(m, p.Key(), before) + Of(m, p)
  {
    LiveLoadSnoc(m, rest, p.Key(), after);
    LiveLoadFrame(m, rest, before, after);
  }

  /** How `Feed` splits the new order into the other flows and the packet's own, and what it changes. */
  lemma FeedFacts(m: Measure, maxSize: int, t: Table, p: Packet) returns (rest: seq<FlowKey>)
    requires WellFormed(t)
    ensures rest == if Misses(t, p) then MakeRoom(maxSize, t.order) else Without(t.order, p.Key())
    ensures var t' := Feed(maxSize, t, p);
            && t'.order == rest + [p.Key()]
            && LoadAt(m, p.Key(), t'.stats) == LoadAt(m, p.Key(), t.stats) + Of(m, p)
            && forall i | 0 <= i < |rest| :: LoadAt(m, rest[i], t'.stats) == LoadAt(m, rest[i], t.stats)
  {
    rest := if Misses(t, p) then MakeRoom(maxSize, t.order) else Without(t.order, p.Key());
    var t' := Feed(maxSize, t, p);
    var drop := |t.order| - |rest|;
    forall i | 0 <= i < |rest|
      ensures LoadAt(m, rest[i], t'.stats) == LoadAt(m, rest[i], t.stats)
    {
      assert rest[i] in rest;
      assert rest[i] in Elems(t.order);
      if Misses(t, p) {
        assert rest[i] == t.order[i + drop];
      }
    }
  }

  lemma FeedLoad(m: Measure, maxSize: int, t: Table, p: Packet)
    requires WellFormed(t)
    ensures var t' := Feed(maxSize, t, p);
            LiveLoad(m, t'.order, t'.stats) + Dropped(m, maxSize, t, p) == LiveLoad(m, t.order, t.stats) + Of(m, p)
  {
    var rest := FeedFacts(m, maxSize, t, p);
    CountAtEnd(m, rest, p, t.stats, Feed(maxSize, t, p).stats);
    if !Misses(t, p) {
      assert p.Key() in Elems(t.order);
      LiveLoadWithout(m, t.order, p.Key(), t.stats);
    }
  }

  lemma FeedCreations(maxSize: int, t: Table, p: Packet)
    requires WellFormed(t)
    ensures var t' := Feed(maxSize, t, p);
            t'.evicted + |t'.order| == t.evicted + |t.order| + if Misses(t, p) then 1 else 0
  {
    assert p.Key() in t.order <==> p.Key() in Elems(t.order);
    WithoutDistinct(t.order, p.Key());
  }

  /** No accepted packet is lost or counted twice: live plus evicted counters, packets or bytes, make up the
      whole run.  Every creation is either live or counted as evicted. */
  lemma {:induction false} Conservation(m: Measure, maxSize: int, ps: seq<Packet>)
    ensures var t := Run(maxSize, ps);
            && LiveLoad(m, t.order, t.stats) + LostLoad(m, maxSize, ps) == Total(m, ps)
            && (m == PacketTotal ==> Total(m, ps) == |ps|)
            && t.evicted + |t.order| == Creations(maxSize, ps)
  {
    if ps != [] {
      var past, p := ps[..|ps| - 1], ps[|ps| - 1];
      Conservation(m, maxSize, past);
      RunOrder(maxSize, past);
      FeedLoad(m, maxSize, Run(maxSize, past), p);
      FeedCreations(maxSize, Run(maxSize, past), p);
    }
  }

  /** A flow is not reset between two of its packets while fewer other flows than the capacity appear. */
  lemma FlowNotReset(maxSize: int, ps: seq<Packet>, i: nat, j: nat)
    requires i < j < |ps| && ps[i].Key() == ps[j].Key()
    requires |Elems(KeysOf(ps)[i + 1..j]) - {ps[i].Key()}| < Capacity(maxSize)
    ensures Live(maxSize, ps[..j], ps[j].Key())
  {
    NotResetBetween(maxSize, KeysOf(ps), i, j);
    RunOrder(maxSize, ps[..j]);
    assert KeysOf(ps)[..j] == KeysOf(ps[..j]);
    var t := Run(maxSize, ps[..j]);
    assert ps[j].Key() in Elems(t.order);
  }

  // ----- The classes -----

  function Now(currentTime: Option<real>, clock: real): real {
    match currentTime case None => clock case Some(t) => t
  }

  /** The mutable record of one flow. */
  class FlowEntry {
    var packetCount: nat
    var byteCount: int
    var firstSeen: real
    var lastSeen: real
    const origin: Meta

    constructor (origin: Meta)
      ensures packetCount == 0 && byteCount == 0 && this.origin == origin
    {
      this.origin, packetCount, byteCount := origin, 0, 0;
    }

    function AsStats(): Stats
      reads this
    {
      Stats(packetCount, byteCount, firstSeen, lastSeen, origin)
    }
  }

  ghost function StatsOf(table: map<FlowKey, FlowEntry>): map<FlowKey, Stats>
    reads table.Values
  {
    map k | k in table :: table[k].AsStats()
  }

  class BoundedTable {
    const maxSize: int
    const ttlSeconds: real
    var order: seq<FlowKey>
    var table: map<FlowKey, FlowEntry>
    var evictedCount: nat

    ghost predicate Valid()
      reads this
    {
      && Distinct(order) && Elems(order) == table.Keys
      && (forall j, k | j in table && k in table && j != k :: table[j] != table[k])
    }

    ghost function Abs(): Table
      reads this, table.Values
    {
      Table(order, StatsOf(table), evictedCount)
    }

    constructor (maxSize: int, ttlSeconds: real)
      ensures Valid() && Abs() == Table([], map[], 0)
      ensures this.maxSize == maxSize && this.ttlSeconds == ttlSeconds
      ensures table == map[]
    {
      this.maxSize, this.ttlSeconds, order, table, evictedCount := maxSize, ttlSeconds, [], map[], 0;
    }

    method EvictLru()
      requires Valid()
      modifies this
      ensures Valid() && Abs() == EvictOldest(old(Abs()))
      ensures table == if old(order) == [] then old(table) else old(table) - {old(order)[0]}
    {
      if order != [] {
        ElemsTail(order);
        assert order[0] in order;
        table, order := table - {order[0]}, order[1..];
        evictedCount := evictedCount + 1;
        assert StatsOf(table) == old(StatsOf(table)) - {old(order)[0]};
      }
    }

    /** Removes the entries idle for longer than the time to live; the others keep their place. */
    method EvictExpired(currentTime: real)
      requires Valid()
      modifies this
      ensures Valid() && evictedCount + |order| == old(evictedCount + |order|)
      ensures forall k :: k in table <==>
                k in old(table) && currentTime - old(table)[k].lastSeen <= ttlSeconds
      ensures forall k | k in table :: table[k] == old(table)[k]
      ensures SubSeq(order, old(order))
    {
      var expired := [];
      for i := 0 to |order|
        modifies {}
        invariant Distinct(expired) && Elems(expired) <= Elems(order[..i])
        invariant forall k | k in order[..i] :: k in expired <==> currentTime - table[k].lastSeen > ttlSeconds
      {
        var k := order[i];
        assert order[..i + 1] == order[..i] + [k] && k !in order[..i];
        assert k in Elems(order);
        ghost var seen := order[..i];
        assert k !in Elems(seen);
        assert k in expired <==> k in Elems(expired);
        if currentTime - table[k].lastSeen > ttlSeconds {
          ElemsSnoc(expired, k);
          expired := expired + [k];
        }
      }
      assert order[..|order|] == order;
      Remove(expired);
    }

    /** `del self.table[k]` for each key of a listing without repetition. */
    method Remove(keys: seq<FlowKey>)
      requires Valid() && Distinct(keys) && Elems(keys) <= table.Keys
      modifies this
      ensures Valid() && evictedCount + |order| == old(evictedCount + |order|)
      ensures table == old(table) - Elems(keys) && SubSeq(order, old(order))
    {
      SubSeqRefl(order);
      for i := 0 to |keys|
        invariant Valid() && evictedCount + |order| == old(evictedCount + |order|)
        invariant table == old(table) - Elems(keys[..i]) && SubSeq(order, old(order))
      {
        assert keys[..i + 1] == keys[..i] + [keys[i]];
        ElemsPrefix(keys, i);
        ghost var shorter := order;
        RemoveOne(keys[i]);
        SubSeqDrop(shorter, old(order), keys[i]);
      }
      assert keys[..|keys|] == keys;
    }

    method RemoveOne(k: FlowKey)
      requires Valid() && k in table
      modifies this
      ensures Valid() && order == Without(old(order), k) && table == old(table) - {k}
      ensures evictedCount + |order| == old(evictedCount + |order|)
    {
      assert k in Elems(order);
      WithoutDistinct(order, k);
      order, table := Without(order, k), table - {k};
      evictedCount := evictedCount + 1;
      assert Elems(order) == table.Keys;
    }

    /** Returns the entry of `key`, now the most recently used one, creating it (for the packet `meta`)
        and dropping the least recently used entry of a full table if it is missing. */
    method GetOrCreate(key: FlowKey, meta: Meta, currentTime: Option<real>, clock: real) returns (entry: FlowEntry)
      requires Valid()
      modifies this, if key in table then {table[key]} else {}
      ensures Valid() && key in table && table[key] == entry
      ensures Abs() == Opened(maxSize, old(Abs()), key, meta, Now(currentTime, clock))
      ensures if key in old(table) then table == old(table) else fresh(entry)
    {
      if key in table {
        entry := Reuse(key, Now(currentTime, clock));
      } else {
        if |order| >= maxSize {
          EvictLru();
        }
        entry := Create(key, meta, Now(currentTime, clock));
      }
    }

    method Reuse(key: FlowKey, now: real) returns (entry: FlowEntry)
      requires Valid() && key in table
      modifies this`order, table[key]
      ensures Valid() && entry == table[key]
      ensures var s := old(StatsOf(table));
              Abs() == Table(Touch(old(order), key), s[key := s[key].(lastSeen := now)], evictedCount)
    {
      ElemsTouch(order, key);
      order := Touch(order, key);
      entry := table[key];
      entry.lastSeen := now;
      assert StatsOf(table) == old(StatsOf(table))[key := old(StatsOf(table))[key].(lastSeen := now)];
    }

    method Create(key: FlowKey, meta: Meta, now: real) returns (entry: FlowEntry)
      requires Valid() && key !in table
      modifies this
      ensures Valid() && table == old(table)[key := entry] && fresh(entry)
      ensures Abs() == Table(old(order) + [key], old(StatsOf(table))[key := Stats(0, 0, now, now, meta)], evictedCount)
      ensures evictedCount == old(evictedCount)
    {
      entry := new FlowEntry(meta);
      entry.firstSeen := now;
      entry.lastSeen := now;
      ElemsSnoc(order, key);
      order := order + [key];
      table := table[key := entry];
      assert StatsOf(table) == old(StatsOf(table))[key := Stats(0, 0, now, now, meta)];
    }

    method Get(key: FlowKey) returns (entry: FlowEntry?)
      requires Valid()
      modifies this`order
      ensures Valid() && order == Apply(maxSize, old(order), Lru.Get(key))
      ensures entry == if key in table then table[key] else null
    {
      assert key in order <==> key in Elems(order);
      entry := null;
      if key in table {
        ElemsTouch(order, key);
        order := Touch(order, key);
        entry := table[key];
      }
    }
  }

  class FlowAssembler {
    const flows: BoundedTable
    ghost var packets: seq<Packet>

    /** The flow table is the one the accepted packets produce. */
    ghost predicate Valid()
      reads this, flows, flows.table.Values
    {
      flows.Valid() && flows.Abs() == Run(flows.maxSize, packets)
    }

    constructor (maxFlows: int)
      ensures Valid() && fresh(flows) && packets == []
      ensures flows.maxSize == maxFlows && flows.ttlSeconds == 300.0
    {
      flows := new BoundedTable(maxFlows, 300.0);
      packets := [];
    }

    /** Counts a packet on its flow; a missing packet or one without a protocol is ignored. */
    method ProcessPacketMeta(meta: Option<Meta>, currentTime: Option<real>, clock: real) returns (flow: FlowEntry?)
      requires Valid()
      modifies this, flows, flows.table.Values
      ensures Valid()
      ensures flow == null <==> meta == None || meta.value.protocol == ""
      ensures flow == null ==> packets == old(packets) && flows.Abs() == old(flows.Abs())
      ensures flow != null ==>
                && packets
                   == old(packets) + [Packet(meta.value, if currentTime.Some? then currentTime.value else clock)]
                && MakeKey(meta.value) in flows.table && flow == flows.table[MakeKey(meta.value)]
    {
      if meta == None || meta.value.protocol == "" {
        return null;
      }
      ghost var p := Packet(meta.value, Now(currentTime, clock));
      RunSnoc(flows.maxSize, packets, p);
      flow := CountOnFlow(MakeKey(meta.value), meta.value, currentTime, clock);
      packets := packets + [p];
    }

    method CountOnFlow(key: FlowKey, meta: Meta, currentTime: Option<real>, clock: real) returns (flow: FlowEntry)
      requires flows.Valid()
      modifies flows, flows.table.Values
      ensures flows.Valid() && key in flows.table && flow == flows.table[key]
      ensures flows.Abs()
           == Counted(Opened(flows.maxSize, old(flows.Abs()), key, meta, Now(currentTime, clock)), key, meta.Len())
    {
      flow := flows.GetOrCreate(key, meta, currentTime, clock);
      Count(flow, key, meta.Len());
    }

    /** Adds one packet to the entry of `key`. */
    method Count(entry: FlowEntry, key: FlowKey, len: int)
      requires flows.Valid() && key in flows.table && flows.table[key] == entry
      modifies entry
      ensures flows.Abs() == Counted(old(flows.Abs()), key, len)
    {
      ghost var before := StatsOf(flows.table);
      entry.packetCount := entry.packetCount + 1;
      entry.byteCount := entry.byteCount + len;
      ghost var s := before[key];
      assert StatsOf(flows.table)
          == before[key := s.(packetCount := s.packetCount + 1, byteCount := s.byteCount + len)];
    }
  }
}
