/** ingest/pcap_reader.py: a producer thread feeding a bounded queue, and a consumer taking from it.

  The threads share the queue, whose operations are atomic, and the stop flag.  The producer's turn for one
  packet has two atomic steps, the pressure check and the put, and the consumer may act in between.  A run
  is any sequence of steps the two threads can take.
 */
module PcapReader {
  import opened Sequences
  import opened Quotients

  /** What the queue carries: packets, named by their position in the capture, and the end marker. */
  datatype Item = Packet(index: nat) | Eof

  /** Where the producer is: between packets, about to put a packet it has let through at the queue length it
      checked, past its loop and about to put the end marker, or done. */
  datatype Phase = Reading | Putting(index: nat, checked: nat) | Closing | Done

  /** What became of a packet: not let through at its check, refused by a full queue, or enqueued; the last two with
      the queue length its put found. */
  datatype Outcome = Sampled | Refused(found: nat) | Enqueued(found: nat)

  /** One packet: its position, the queue length at its check, and its outcome. */
  datatype Fate = Fate(index: nat, checked: nat, outcome: Outcome)

  /** `read` packets have been counted so far; `fates` records what became of each, in order; `broken` says
      whether the producer left its loop because the sampling step of a packet could not be computed. */
  datatype State = State(phase: Phase, read: nat, dropped: nat, queue: seq<Item>, delivered: seq<Item>,
                         fates: seq<Fate>, broken: bool)

  /** The queue bound (none unless positive), the keep-one-in-`k` sampling step (0 if the rate gives none) and
      the number of packets in the capture. */
  datatype Config = Config(bound: int, k: nat, capture: nat)

  function Abs(x: real): real {
    if x < 0.0 then -x else x
  }

  /** The size of `int(1.0 / rate)`: a packet count is a multiple of a negative number exactly if it is one of
      the positive.  Zero stands for a division that fails, either of them. */
  function KeepOneIn(rate: real): (k: nat)
    ensures k >= 1 <==> 0.0 < Abs(rate) <= 1.0
    ensures rate != 0.0 ==> k as real <= Abs(1.0 / rate) < k as real + 1.0
  {
    if rate == 0.0 then 0
    else
      var r := Abs(1.0 / rate);
      assert r * Abs(rate) == 1.0 by { InverseSize(rate); }
      assert r != 0.0;
      assert Abs(rate) <= 1.0 <==> r >= 1.0 by { InverseOrder(Abs(rate), r); }
      r.Floor
  }

  lemma InverseSize(rate: real)
    requires rate != 0.0
    ensures Abs(1.0 / rate) * Abs(rate) == 1.0
  {
    assert 1.0 / rate * rate == 1.0;
    if rate < 0.0 {
      assert (1.0 / rate) * (-rate) == -1.0;
    }
  }

  lemma InverseOrder(x: real, r: real)
    requires x > 0.0 && r > 0.0 && r * x == 1.0
    ensures x <= 1.0 <==> r >= 1.0
  {
    assert r - 1.0 == r * (1.0 - x);
    if x <= 1.0 {
      assert r * (1.0 - x) >= 0.0;
    } else {
      assert r * (x - 1.0) > 0.0;
    }
  }

  // ----- The steps -----

  datatype Event =
    | Check          // the producer counts a packet and checks the pressure
    | Put            // the producer puts the packet it let through, or drops it if the queue is full
    | Stop           // the producer sees the stop flag, or the end of the capture, and leaves its loop
    | PutEof         // the producer puts the end marker
    | GiveUp         // the producer's timed put of the end marker runs out
    | Take           // the consumer takes an item

  function Init(): State { State(Reading, 0, 0, [], [], [], false) }

  predicate UnderPressure(c: Config, s: State) {
    10 * |s.queue| > 8 * c.bound
  }

  predicate Full(c: Config, s: State) {
    c.bound > 0 && |s.queue| >= c.bound
  }

  predicate Enabled(c: Config, s: State, e: Event) {
    match e
    case Check => s.phase == Reading && s.read < c.capture
    case Put => s.phase.Putting?
    case Stop => s.phase == Reading
    case PutEof => s.phase == Closing && !Full(c, s)
    case GiveUp => s.phase == Closing
    case Take => s.queue != []
  }

  function Next(c: Config, s: State, e: Event): State
    requires Enabled(c, s, e)
  {
    match e
    case Check =>
      var above := UnderPressure(c, s);
      if above && c.k == 0 then
        s.(phase := Closing, read := s.read + 1, broken := true)
      else if above && (s.read + 1) % c.k != 0 then
        s.(read := s.read + 1, dropped := s.dropped + 1, fates := s.fates + [Fate(s.read, |s.queue|, Sampled)])
      else
        s.(phase := Putting(s.read, |s.queue|), read := s.read + 1)
    case Put =>
      var i, checked, found := s.phase.index, s.phase.checked, |s.queue|;
      if Full(c, s) then
        s.(phase := Reading, dropped := s.dropped + 1, fates := s.fates + [Fate(i, checked, Refused(found))])
      else
        s.(phase := Reading, queue := s.queue + [Packet(i)], fates := s.fates + [Fate(i, checked, Enqueued(found))])
    case Stop => s.(phase := Closing)
    case PutEof => s.(phase := Done, queue := s.queue + [Eof])
    case GiveUp => s.(phase := Done)
    case Take => s.(queue := s.queue[1..], delivered := s.delivered + [s.queue[0]])
  }

  ghost predicate IsRun(c: Config, run: seq<State>) {
    && run != [] && run[0] == Init()
    && forall i | 0 <= i < |run| - 1 :: exists e :: Enabled(c, run[i], e) && run[i + 1] == Next(c, run[i], e)
  }

  // ----- What holds in every reachable state -----

  function Packets(items: seq<Item>): seq<nat> {
    if items == [] then []
    else Packets(items[..|items| - 1]) +
         match items[|items| - 1] case Packet(i) => [i] case Eof => []
  }

  /** The packets of the fates that were enqueued. */
  function Kept(fates: seq<Fate>): seq<nat> {
    if fates == [] then []
    else Kept(fates[..|fates| - 1]) + if fates[|fates| - 1].outcome.Enqueued? then [fates[|fates| - 1].index] else []
  }

  /** The end marker is not among the items, or is the last one and the producer is done. */
  ghost predicate EofLast(items: seq<Item>, phase: Phase) {
    forall i | 0 <= i < |items| && items[i].Eof? :: i == |items| - 1 && phase == Done
  }

  /** The packets whose fate is decided: all that were counted, but for one in the producer's hand or lost with
      the loop. */
  function Decided(s: State): int {
    if s.phase.Putting? || s.broken then s.read - 1 else s.read
  }

  /** The queue length `n` is above 80 % of the bound. */
  predicate Above(c: Config, n: nat) {
    10 * n > 8 * c.bound
  }

  /** What becomes of packet `i` and why: at or below 80 % it is enqueued; above it is turned away exactly if the
      sampling step does not divide its count, and is otherwise enqueued, unless the queue has become full. */
  predicate FateOk(c: Config, f: Fate, i: nat) {
    && f.index == i
    && (Above(c, f.checked) ==> c.k >= 1)
    && (f.outcome.Sampled? <==> Above(c, f.checked) && c.k >= 1 && (i + 1) % c.k != 0)
    && (f.outcome.Refused? ==> Above(c, f.checked) && c.bound > 0 && f.outcome.found == c.bound)
    && (f.outcome.Enqueued? && c.bound > 0 ==> f.outcome.found < c.bound)
  }

  ghost predicate FatesOk(c: Config, fates: seq<Fate>) {
    forall i | 0 <= i < |fates| :: FateOk(c, fates[i], i)
  }

  /** The queue and the consumer together hold what was kept. */
  ghost predicate QueueOk(c: Config, s: State) {
    && (c.bound > 0 ==> |s.queue| <= c.bound)
    && EofLast(s.delivered + s.queue, s.phase)
    && Packets(s.delivered + s.queue) == Kept(s.fates)
    && |Kept(s.fates)| + s.dropped == |s.fates|
  }

  /** The packet in the producer's hand: the queue has not grown since it was checked. */
  ghost predicate HandOk(c: Config, s: State) {
    s.phase.Putting? ==>
      && s.phase.index == s.read - 1
      && |s.queue| <= s.phase.checked
      && (Above(c, s.phase.checked) ==> c.k >= 1 && s.read % c.k == 0)
  }

  ghost predicate Inv(c: Config, s: State) {
    && s.read <= c.capture && |s.fates| == Decided(s)
    && FatesOk(c, s.fates) && QueueOk(c, s) && HandOk(c, s)
    && (s.broken ==> c.k == 0 && (s.phase == Closing || s.phase == Done))
  }

  lemma PacketsSnoc(items: seq<Item>, x: Item)
    ensures Packets(items + [x]) == Packets(items) + match x case Packet(i) => [i] case Eof => []
  {
    assert (items + [x])[..|items|] == items;
  }

  lemma KeptSnoc(fates: seq<Fate>, f: Fate)
    ensures Kept(fates + [f]) == Kept(fates) + if f.outcome.Enqueued? then [f.index] else []
  {
    assert (fates + [f])[..|fates|] == fates;
  }

  lemma FatesSnoc(c: Config, fates: seq<Fate>, f: Fate)
    requires FatesOk(c, fates) && FateOk(c, f, |fates|)
    ensures FatesOk(c, fates + [f])
  {
    forall i | 0 <= i <= |fates|
      ensures FateOk(c, (fates + [f])[i], i)
    {
      if i < |fates| {
        assert FateOk(c, fates[i], i);
      }
    }
  }

  lemma CheckKeepsInv(c: Config, s: State)
    requires Enabled(c, s, Check) && Inv(c, s)
    ensures Inv(c, Next(c, s, Check))
  {
    var f := Fate(s.read, |s.queue|, Sampled);
    if UnderPressure(c, s) && c.k >= 1 && (s.read + 1) % c.k != 0 {
      FatesSnoc(c, s.fates, f);
      KeptSnoc(s.fates, f);
      assert Kept(s.fates) + [] == Kept(s.fates);
    }
  }

  lemma PutKeepsQueue(c: Config, s: State)
    requires Enabled(c, s, Put) && Inv(c, s)
    ensures QueueOk(c, Next(c, s, Put))
  {
    var i, items, found := s.phase.index, s.delivered + s.queue, |s.queue|;
    KeptSnoc(s.fates, Fate(i, s.phase.checked, if Full(c, s) then Refused(found) else Enqueued(found)));
    if !Full(c, s) {
      PacketsSnoc(items, Packet(i));
      assert s.delivered + (s.queue + [Packet(i)]) == items + [Packet(i)];
    } else {
      assert Kept(s.fates) + [] == Kept(s.fates);
    }
  }

  lemma PutKeepsInv(c: Config, s: State)
    requires Enabled(c, s, Put) && Inv(c, s)
    ensures Inv(c, Next(c, s, Put))
  {
    PutKeepsQueue(c, s);
    FatesSnoc(c, s.fates, Fate(s.phase.index, s.phase.checked,
                               if Full(c, s) then Refused(|s.queue|) else Enqueued(|s.queue|)));
  }

  lemma PutEofKeepsInv(c: Config, s: State)
    requires Enabled(c, s, PutEof) && Inv(c, s)
    ensures Inv(c, Next(c, s, PutEof))
  {
    PacketsSnoc(s.delivered + s.queue, Eof);
    assert s.delivered + (s.queue + [Eof]) == s.delivered + s.queue + [Eof];
    assert Packets(s.delivered + s.queue) + [] == Packets(s.delivered + s.queue);
  }

  lemma TakeKeepsInv(c: Config, s: State)
    requires Enabled(c, s, Take) && Inv(c, s)
    ensures Inv(c, Next(c, s, Take))
  {
    assert (s.delivered + [s.queue[0]]) + s.queue[1..] == s.delivered + s.queue;
  }

  lemma StepKeepsInv(c: Config, s: State, e: Event)
    requires Enabled(c, s, e) && Inv(c, s)
    ensures Inv(c, Next(c, s, e))
  {
    match e
    case Check => CheckKeepsInv(c, s);
    case Put => PutKeepsInv(c, s);
    case PutEof => PutEofKeepsInv(c, s);
    case Take => TakeKeepsInv(c, s);
    case _ =>
  }

  lemma {:induction false} RunKeepsInv(c: Config, run: seq<State>, n: nat)
    requires IsRun(c, run) && n < |run|
    ensures Inv(c, run[n])
  {
    if n == 0 {
      assert Init().delivered + Init().queue == [];
    } else {
      RunKeepsInv(c, run, n - 1);
      var e :| Enabled(c, run[n - 1], e) && run[n - 1 + 1] == Next(c, run[n - 1], e);
      StepKeepsInv(c, run[n - 1], e);
    }
  }

  // ----- The properties -----

  /** Every packet read is dropped, queued, delivered, or the one in the producer's hand, save for one that ends
      the loop when its sampling step cannot be computed; the queue never exceeds its bound; and the end marker
      comes after every packet that was kept. */
  lemma Conservation(c: Config, run: seq<State>, n: nat)
    requires IsRun(c, run) && n < |run|
    ensures var s := run[n];
            && s.read == s.dropped + |Packets(s.delivered + s.queue)| + (if s.phase.Putting? || s.broken then 1 else 0)
            && (s.broken ==> c.k == 0)
            && (c.bound > 0 ==> |s.queue| <= c.bound)
            && EofLast(s.delivered + s.queue, s.phase)
  {
    RunKeepsInv(c, run, n);
  }

  /** The positions 0, 1, ..., n - 1. */
  function Upto(n: nat): seq<nat> {
    if n == 0 then [] else Upto(n - 1) + [n - 1]
  }

  lemma {:induction false} KeptIsSubSeq(fates: seq<Fate>)
    requires forall i | 0 <= i < |fates| :: fates[i].index == i
    ensures SubSeq(Kept(fates), Upto(|fates|))
  {
    if fates != [] {
      var past, f := fates[..|fates| - 1], fates[|fates| - 1];
      KeptIsSubSeq(past);
      if f.outcome.Enqueued? {
        SubSeqSnoc(Kept(past), Upto(|past|), f.index);
      } else {
        SubSeqWeakenEnd(Kept(past), Upto(|past|), f.index);
        assert Kept(fates) == Kept(past);
      }
    }
  }

  /** What the consumer got, followed by what is queued, is an in-order subsequence of the packets read. */
  lemma DeliveredInOrder(c: Config, run: seq<State>, n: nat)
    requires IsRun(c, run) && n < |run|
    ensures var s := run[n]; SubSeq(Packets(s.delivered + s.queue), Upto(|s.fates|))
    ensures |run[n].fates| <= run[n].read <= c.capture
  {
    RunKeepsInv(c, run, n);
    KeptIsSubSeq(run[n].fates);
  }

  // ----- Where the queue lengths come from -----

  /** State `m` of the run is the one in which packet `i` was checked, with this queue length. */
  ghost predicate CheckedIn(run: seq<State>, m: nat, i: nat, length: nat) {
    m < |run| && run[m].phase == Reading && run[m].read == i && |run[m].queue| == length
  }

  /** State `p` of the run is the one in which packet `i` was about to be put, with this queue length. */
  ghost predicate PutIn(run: seq<State>, p: nat, i: nat, length: nat) {
    p < |run| && run[p].phase.Putting? && run[p].phase.index == i && |run[p].queue| == length
  }

  /** The queue lengths of a fate are those of states before `n`. */
  ghost predicate Observed(run: seq<State>, n: nat, f: Fate) {
    && (exists m: nat | m < n :: CheckedIn(run, m, f.index, f.checked))
    && (f.outcome.Sampled? || exists p: nat | p < n :: PutIn(run, p, f.index, f.outcome.found))
  }

  ghost predicate AllObserved(run: seq<State>, n: nat)
    requires n < |run|
  {
    && (forall i | 0 <= i < |run[n].fates| :: Observed(run, n, run[n].fates[i]))
    && (run[n].phase.Putting? ==>
          exists m: nat | m < n :: CheckedIn(run, m, run[n].phase.index, run[n].phase.checked))
  }

  lemma StillObserved(run: seq<State>, n: nat, f: Fate)
    requires Observed(run, n, f)
    ensures Observed(run, n + 1, f)
  {
    var m: nat :| m < n && CheckedIn(run, m, f.index, f.checked);
    assert m < n + 1;
    if !f.outcome.Sampled? {
      var p: nat :| p < n && PutIn(run, p, f.index, f.outcome.found);
      assert p < n + 1;
    }
  }

  lemma StepObserved(c: Config, run: seq<State>, n: nat, e: Event)
    requires n + 1 < |run| && AllObserved(run, n) && Enabled(c, run[n], e) && run[n + 1] == Next(c, run[n], e)
    ensures AllObserved(run, n + 1)
  {
    var s, s' := run[n], run[n + 1];
    forall i | 0 <= i < |s'.fates|
      ensures Observed(run, n + 1, s'.fates[i])
    {
      if i < |s.fates| {
        assert s'.fates[i] == s.fates[i];
        StillObserved(run, n, s.fates[i]);
      } else if e == Check {
        assert CheckedIn(run, n, s.read, |s.queue|);
      } else {
        assert PutIn(run, n, s.phase.index, |s.queue|);
      }
    }
    if s'.phase.Putting? {
      if e == Check {
        assert CheckedIn(run, n, s.read, |s.queue|);
      } else {
        var m: nat :| m < n && CheckedIn(run, m, s.phase.index, s.phase.checked);
        assert m < n + 1;
      }
    }
  }

  lemma {:induction false} RunObserved(c: Config, run: seq<State>, n: nat)
    requires IsRun(c, run) && n < |run|
    ensures AllObserved(run, n)
  {
    if n > 0 {
      RunObserved(c, run, n - 1);
      var e :| Enabled(c, run[n - 1], e) && run[n - 1 + 1] == Next(c, run[n - 1], e);
      StepObserved(c, run, n - 1, e);
    }
  }

  /** What becomes of every packet of every run, and why: checked at or below 80 % of the bound it is enqueued;
      checked above, it is turned away exactly if the sampling step does not divide its count, and is otherwise
      put, unless the queue is then full.  The lengths are those the queue had in the run. */
  lemma FateMeaning(c: Config, run: seq<State>, n: nat, i: nat)
    requires IsRun(c, run) && n < |run| && i < |run[n].fates|
    ensures var f := run[n].fates[i];
            && f.index == i
            && (10 * f.checked <= 8 * c.bound ==> f.outcome.Enqueued?)
            && (10 * f.checked > 8 * c.bound ==>
                  && c.k >= 1
                  && (f.outcome.Sampled? <==> (i + 1) % c.k != 0)
                  && (f.outcome.Refused? ==> f.outcome.found == c.bound)
                  && (f.outcome.Enqueued? && c.bound > 0 ==> f.outcome.found < c.bound))
    ensures Observed(run, n, run[n].fates[i])
  {
    RunKeepsInv(c, run, n);
    RunObserved(c, run, n);
    assert FateOk(c, run[n].fates[i], i);
  }

  /** A packet is dropped only if the queue was above 80 % of its bound when it was checked. */
  lemma DropsOnlyUnderPressure(c: Config, run: seq<State>, n: nat, i: nat)
    requires IsRun(c, run) && n < |run| && i < |run[n].fates|
    ensures run[n].fates[i].index == i
    ensures !run[n].fates[i].outcome.Enqueued? ==> 10 * run[n].fates[i].checked > 8 * c.bound
  {
    FateMeaning(c, run, n, i);
  }

  /** The packets among `from`, ..., `to - 1` that were enqueued. */
  function EnqueuedCount(fates: seq<Fate>, from: nat, to: nat): nat
    requires from <= to <= |fates|
  {
    if from == to then 0
    else EnqueuedCount(fates, from, to - 1) + if fates[to - 1].outcome.Enqueued? then 1 else 0
  }

  /** At most one position in `k` consecutive ones is a multiple of `k`: counted from the last multiple. */
  lemma {:induction false} MultiplesAreSparse(fates: seq<Fate>, k: nat, from: nat, to: nat)
    requires k >= 1 && from <= to <= |fates|
    requires forall i | from <= i < to && fates[i].outcome.Enqueued? :: (i + 1) % k == 0
    ensures EnqueuedCount(fates, from, to) <= to / k - from / k
  {
    if from < to {
      MultiplesAreSparse(fates, k, from, to - 1);
      NextQuotient(to - 1, k);
    }
  }

  lemma FatesAreSampled(c: Config, fates: seq<Fate>, from: nat, to: nat)
    requires FatesOk(c, fates) && from < to <= |fates|
    requires forall i | from <= i < to :: 10 * fates[i].checked > 8 * c.bound
    ensures c.k >= 1 && EnqueuedCount(fates, from, to) <= (to - from + c.k - 1) / c.k
  {
    assert FateOk(c, fates[from], from);
    forall i | from <= i < to && fates[i].outcome.Enqueued?
      ensures (i + 1) % c.k == 0
    {
      assert FateOk(c, fates[i], i);
    }
    MultiplesAreSparse(fates, c.k, from, to);
    QuotientSpread(from, to, c.k);
  }

  /** Among any n consecutive packets that all arrive above 80 % of the bound, at most ceil(n / k) are enqueued, and
      none without a sampling step. */
  lemma SamplingBound(c: Config, run: seq<State>, n: nat, from: nat, to: nat)
    requires IsRun(c, run) && n < |run| && from <= to <= |run[n].fates|
    requires forall i | from <= i < to :: 10 * run[n].fates[i].checked > 8 * c.bound
    ensures var count := EnqueuedCount(run[n].fates, from, to);
            if c.k == 0 then from == to && count == 0 else count <= (to - from + c.k - 1) / c.k
  {
    if from < to {
      assert FatesOk(c, run[n].fates) by { RunKeepsInv(c, run, n); }
      FatesAreSampled(c, run[n].fates, from, to);
    } else if c.k >= 1 {
      QuotientSpread(from, to, c.k);
    }
  }
}
