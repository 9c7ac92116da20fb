/** The alert correlator of alerting/correlator.py.

  `AlertCorrelator` keeps two structures in step: the alerts seen lately in arrival order, and an index
  from an IP address to the references of the alerts that mention it.  Both are trimmed lazily, from the
  front only.  The functions on `State` say what one call does; the lemmas below them say what a whole
  run means, in terms of the arrival history alone.

  An absent address (no flow, or an empty string) is the empty string: the source treats both as false.
 */
module Correlator {
  import opened Sequences
  import opened Wrappers

  datatype FlowId = FlowId(srcIp: string, dstIp: string)

  /** One alert as the global deque records it. */
  datatype Entry = Entry(ts: real, id: string, src: string, dst: string)

  /** One alert as a per-address deque records it. */
  datatype Ref = Ref(ts: real, id: string)

  datatype State = State(index: map<string, seq<Ref>>, recent: seq<Entry>)

  const CAP := 20

  // ----- What one call does -----

  function Deque(index: map<string, seq<Ref>>, ip: string): seq<Ref> {
    if ip in index then index[ip] else []
  }

  function DropOld(q: seq<Ref>, cutoff: real): seq<Ref> {
    if q != [] && q[0].ts < cutoff then DropOld(q[1..], cutoff) else q
  }

  function Prune(index: map<string, seq<Ref>>, ip: string, cutoff: real): map<string, seq<Ref>> {
    if ip != "" && ip in index then
      var q := DropOld(index[ip], cutoff);
      if q == [] then index - {ip} else index[ip := q]
    else
      index
  }

  function Evict(st: State, cutoff: real): State
    decreases |st.recent|
  {
    if st.recent != [] && st.recent[0].ts < cutoff then
      var e := st.recent[0];
      Evict(State(Prune(Prune(st.index, e.src, cutoff), e.dst, cutoff), st.recent[1..]), cutoff)
    else
      st
  }

  function Lookup(index: map<string, seq<Ref>>, ip: string, cutoff: real): set<string> {
    if ip != "" && ip in index then set r | r in index[ip] && r.ts >= cutoff :: r.id else {}
  }

  function Push(index: map<string, seq<Ref>>, ip: string, r: Ref): map<string, seq<Ref>> {
    if ip == "" then index else index[ip := Deque(index, ip) + [r]]
  }

  /** The ids gathered for alert `a`, before the cap, in state `st`. */
  function Collected(window: real, st: State, a: Entry): set<string> {
    var cutoff := a.ts - window;
    var index := Evict(st, cutoff).index;
    Lookup(index, a.src, cutoff) + Lookup(index, a.dst, cutoff)
  }

  function Insert(st: State, a: Entry): State {
    var r := Ref(a.ts, a.id);
    State(Push(Push(st.index, a.src, r), a.dst, r), st.recent + [a])
  }

  function Step(window: real, st: State, a: Entry): State {
    Insert(Evict(st, a.ts - window), a)
  }

  function Run(window: real, history: seq<Entry>): State {
    if history == [] then State(map[], [])
    else Step(window, Run(window, history[..|history| - 1]), history[|history| - 1])
  }

  // ----- The reference: a scan over every alert that ever arrived -----

  predicate Shares(e: Entry, a: Entry) {
    || (a.src != "" && (e.src == a.src || e.dst == a.src))
    || (a.dst != "" && (e.src == a.dst || e.dst == a.dst))
  }

  function LinearScan(window: real, history: seq<Entry>, a: Entry): set<string> {
    set e | e in history && e.ts >= a.ts - window && Shares(e, a) :: e.id
  }

  ghost predicate NoLaterThan(history: seq<Entry>, ts: real) {
    forall e | e in history :: e.ts <= ts
  }

  /** The ids the cap lets through: distinct, all collected, and all of them or twenty. */
  ghost predicate CappedPick(added: seq<string>, collected: set<string>) {
    && |added| == (if |collected| > 20 then 20 else |collected|)
    && (forall x | x in added :: x in collected)
    && Distinct(added)
  }

  // ----- Projection of the arrival order onto one address -----

  /** What alert `e` adds to the deque of `ip`: two references when it is both source and destination. */
  function RefsOf(e: Entry, ip: string): seq<Ref> {
    (if e.src == ip then [Ref(e.ts, e.id)] else []) + (if e.dst == ip then [Ref(e.ts, e.id)] else [])
  }

  function Proj(es: seq<Entry>, ip: string): seq<Ref> {
    if es == [] then [] else RefsOf(es[0], ip) + Proj(es[1..], ip)
  }

  function Fresh(q: seq<Ref>, c: real): seq<Ref> {
    if q == [] then [] else (if q[0].ts >= c then [q[0]] else []) + Fresh(q[1..], c)
  }

  ghost predicate IsSuffix<T>(a: seq<T>, b: seq<T>) {
    |a| <= |b| && a == b[|b| - |a|..]
  }

  lemma {:induction false} ProjAppend(es: seq<Entry>, e: Entry, ip: string)
    ensures Proj(es + [e], ip) == Proj(es, ip) + RefsOf(e, ip)
  {
    if es == [] {
      assert es + [e] == [e] && [e][1..] == [];
      assert Proj([e], ip) == RefsOf(e, ip) + [];
    } else {
      assert (es + [e])[1..] == es[1..] + [e] && (es + [e])[0] == es[0];
      ProjAppend(es[1..], e, ip);
      ConcatAssoc(RefsOf(es[0], ip), Proj(es[1..], ip), RefsOf(e, ip));
    }
  }

  lemma {:induction false} ProjMembers(es: seq<Entry>, ip: string, r: Ref)
    ensures r in Proj(es, ip) <==> exists e :: e in es && (e.src == ip || e.dst == ip) && r == Ref(e.ts, e.id)
  {
    if es != [] {
      ProjMembers(es[1..], ip, r);
      assert es == [es[0]] + es[1..];
    }
  }

  lemma {:induction false} FreshAppend(q: seq<Ref>, r: seq<Ref>, c: real)
    ensures Fresh(q + r, c) == Fresh(q, c) + Fresh(r, c)
  {
    if q == [] {
      assert q + r == r;
    } else {
      assert (q + r)[1..] == q[1..] + r && (q + r)[0] == q[0];
      FreshAppend(q[1..], r, c);
      ConcatAssoc(if q[0].ts >= c then [q[0]] else [], Fresh(q[1..], c), Fresh(r, c));
    }
  }

  lemma {:induction false} FreshMembers(q: seq<Ref>, c: real, r: Ref)
    ensures r in Fresh(q, c) <==> r in q && r.ts >= c
  {
    if q != [] {
      FreshMembers(q[1..], c, r);
      assert q == [q[0]] + q[1..];
    }
  }

  lemma {:induction false} DropOldFacts(q: seq<Ref>, cutoff: real)
    ensures IsSuffix(DropOld(q, cutoff), q)
    ensures DropOld(q, cutoff) != [] ==> DropOld(q, cutoff)[0].ts >= cutoff
    ensures forall c :: cutoff <= c ==> Fresh(DropOld(q, cutoff), c) == Fresh(q, c)
  {
    if q != [] && q[0].ts < cutoff {
      DropOldFacts(q[1..], cutoff);
      forall c | cutoff <= c
        ensures Fresh(DropOld(q, cutoff), c) == Fresh(q, c)
      {
        assert Fresh(q, c) == Fresh(q[1..], c);
      }
    }
  }

  lemma PruneDeque(index: map<string, seq<Ref>>, ip: string, cutoff: real, other: string)
    ensures Deque(Prune(index, ip, cutoff), other)
         == if other == ip && ip != "" then DropOld(Deque(index, other), cutoff) else Deque(index, other)
  {
  }

  // ----- What holds of every run, whatever the order of arrival -----

  /** The shape of the two structures: the global deque is a suffix of the arrival order, each address's
      deque is a suffix of the projection of the global deque, and no empty deque is kept. */
  ghost predicate Shape(history: seq<Entry>, st: State) {
    && IsSuffix(st.recent, history)
    && "" !in st.index
    && (forall ip | ip in st.index :: st.index[ip] != [])
    && (forall ip | ip != "" :: IsSuffix(Deque(st.index, ip), Proj(st.recent, ip)))
  }

  lemma {:induction false} DropOldPassesFront(d: seq<Ref>, front: seq<Ref>, rest: seq<Ref>, cutoff: real)
    requires IsSuffix(d, front + rest)
    requires forall r | r in front :: r.ts < cutoff
    ensures IsSuffix(DropOld(d, cutoff), rest)
  {
    if |d| > |rest| {
      assert d[0] == (front + rest)[|front + rest| - |d|];
      assert d[0] in front;
      DropOldPassesFront(d[1..], front, rest, cutoff);
    } else {
      DropOldFacts(d, cutoff);
    }
  }

  lemma PruneHeadKeepsSuffix(index: map<string, seq<Ref>>, recent: seq<Entry>, cutoff: real, ip: string)
    requires recent != [] && recent[0].ts < cutoff && ip != ""
    requires IsSuffix(Deque(index, ip), Proj(recent, ip))
    ensures var e := recent[0];
            IsSuffix(Deque(Prune(Prune(index, e.src, cutoff), e.dst, cutoff), ip), Proj(recent[1..], ip))
  {
    var e := recent[0];
    PruneDeque(index, e.src, cutoff, ip);
    PruneDeque(Prune(index, e.src, cutoff), e.dst, cutoff, ip);
    var d, rest := Deque(index, ip), Proj(recent[1..], ip);
    if e.src == ip || e.dst == ip {
      DropOldPassesFront(d, RefsOf(e, ip), rest, cutoff);
      var d' := DropOld(d, cutoff);
      DropOldPassesFront(d', [], rest, cutoff) by { assert [] + rest == rest; }
      DropOldFacts(d, cutoff);
      assert DropOld(d', cutoff) == d';
    } else {
      assert Proj(recent, ip) == rest;
    }
  }

  lemma PruneKeys(index: map<string, seq<Ref>>, ip: string, cutoff: real)
    requires "" !in index && forall k | k in index :: index[k] != []
    ensures var index' := Prune(index, ip, cutoff); "" !in index' && forall k | k in index' :: index'[k] != []
  {
  }

  lemma {:induction false} EvictShape(history: seq<Entry>, st: State, cutoff: real)
    requires Shape(history, st)
    ensures Shape(history, Evict(st, cutoff))
    decreases |st.recent|
  {
    if st.recent != [] && st.recent[0].ts < cutoff {
      var e := st.recent[0];
      var i1 := Prune(st.index, e.src, cutoff);
      var next := State(Prune(i1, e.dst, cutoff), st.recent[1..]);
      PruneKeys(st.index, e.src, cutoff);
      PruneKeys(i1, e.dst, cutoff);
      forall ip | ip != ""
        ensures IsSuffix(Deque(next.index, ip), Proj(next.recent, ip))
      {
        PruneHeadKeepsSuffix(st.index, st.recent, cutoff, ip);
      }
      EvictShape(history, next, cutoff);
    }
  }

  lemma PushDeque(index: map<string, seq<Ref>>, e: Entry, ip: string)
    requires ip != ""
    ensures var r := Ref(e.ts, e.id);
            Deque(Push(Push(index, e.src, r), e.dst, r), ip) == Deque(index, ip) + RefsOf(e, ip)
  {
  }

  lemma InsertShape(history: seq<Entry>, st: State, a: Entry)
    requires Shape(history, st)
    ensures Shape(history + [a], Insert(st, a))
  {
    forall ip | ip != ""
      ensures IsSuffix(Deque(Insert(st, a).index, ip), Proj(st.recent + [a], ip))
    {
      PushDeque(st.index, a, ip);
      ProjAppend(st.recent, a, ip);
      SuffixAppend(Deque(st.index, ip), Proj(st.recent, ip), RefsOf(a, ip));
    }
    SuffixAppend(st.recent, history, [a]);
  }

  lemma SuffixAppend<T>(a: seq<T>, b: seq<T>, c: seq<T>)
    requires IsSuffix(a, b)
    ensures IsSuffix(a + c, b + c)
  {
  }

  /** Every run keeps the two structures in step, out-of-order timestamps included. */
  lemma {:induction false} RunShape(window: real, history: seq<Entry>)
    ensures Shape(history, Run(window, history))
  {
    if history != [] {
      var past, a := history[..|history| - 1], history[|history| - 1];
      RunShape(window, past);
      EvictShape(past, Run(window, past), a.ts - window);
      InsertShape(past, Evict(Run(window, past), a.ts - window), a);
      assert history == past + [a];
    }
  }

  lemma {:induction false} EvictKeepsFresh(st: State, cutoff: real, ip: string, c: real)
    requires cutoff <= c && ip != ""
    ensures Fresh(Deque(Evict(st, cutoff).index, ip), c) == Fresh(Deque(st.index, ip), c)
    decreases |st.recent|
  {
    if st.recent != [] && st.recent[0].ts < cutoff {
      var e := st.recent[0];
      var i1 := Prune(st.index, e.src, cutoff);
      var i2 := Prune(i1, e.dst, cutoff);
      PruneDeque(st.index, e.src, cutoff, ip);
      PruneDeque(i1, e.dst, cutoff, ip);
      DropOldFacts(Deque(st.index, ip), cutoff);
      DropOldFacts(Deque(i1, ip), cutoff);
      EvictKeepsFresh(State(i2, st.recent[1..]), cutoff, ip, c);
    }
  }

  /** Lazy eviction never loses a reference at or above the largest cutoff so far: above any bound `c` of
      the cutoffs, an address's deque is the whole history projected on that address. */
  lemma {:induction false} RunComplete(window: real, history: seq<Entry>, ip: string, c: real)
    requires ip != "" && NoLaterThan(history, c + window)
    ensures Fresh(Deque(Run(window, history).index, ip), c) == Fresh(Proj(history, ip), c)
  {
    if history != [] {
      var past, a := history[..|history| - 1], history[|history| - 1];
      assert history == past + [a];
      assert a in history && NoLaterThan(past, c + window);
      RunComplete(window, past, ip, c);
      StepFresh(window, past, Run(window, past), a, ip, c);
    }
  }

  lemma StepFresh(window: real, history: seq<Entry>, st: State, a: Entry, ip: string, c: real)
    requires ip != "" && a.ts - window <= c && Fresh(Deque(st.index, ip), c) == Fresh(Proj(history, ip), c)
    ensures Fresh(Deque(Step(window, st, a).index, ip), c) == Fresh(Proj(history + [a], ip), c)
  {
    EvictKeepsFresh(st, a.ts - window, ip, c);
    InsertFresh(history, Evict(st, a.ts - window), a, ip, c);
  }

  lemma InsertFresh(history: seq<Entry>, st: State, a: Entry, ip: string, c: real)
    requires ip != "" && Fresh(Deque(st.index, ip), c) == Fresh(Proj(history, ip), c)
    ensures Fresh(Deque(Insert(st, a).index, ip), c) == Fresh(Proj(history + [a], ip), c)
  {
    PushDeque(st.index, a, ip);
    ProjAppend(history, a, ip);
    FreshAppend(Deque(st.index, ip), RefsOf(a, ip), c);
    FreshAppend(Proj(history, ip), RefsOf(a, ip), c);
  }

  lemma {:induction false} SuffixOfSuffixMembers(history: seq<Entry>, st: State, ip: string, r: Ref)
    requires Shape(history, st) && ip in st.index && r in st.index[ip]
    ensures exists e :: e in history && (e.src == ip || e.dst == ip) && r == Ref(e.ts, e.id)
  {
    assert IsSuffix(Deque(st.index, ip), Proj(st.recent, ip));
    assert r in Proj(st.recent, ip);
    ProjMembers(st.recent, ip, r);
  }

  /** Soundness in any order: whatever is collected is the id of an earlier alert that shares an address
      with the new one and lies inside the new alert's window. */
  lemma CollectedIsSound(window: real, history: seq<Entry>, a: Entry)
    ensures Collected(window, Run(window, history), a) <= LinearScan(window, history, a)
  {
    var st := Evict(Run(window, history), a.ts - window);
    RunShape(window, history);
    EvictShape(history, Run(window, history), a.ts - window);
    forall id | id in Collected(window, Run(window, history), a)
      ensures id in LinearScan(window, history, a)
    {
      var ip, r :| ip in {a.src, a.dst} && ip in st.index && r in st.index[ip] && r.ts >= a.ts - window && r.id == id;
      SuffixOfSuffixMembers(history, st, ip, r);
      var e :| e in history && (e.src == ip || e.dst == ip) && r == Ref(e.ts, e.id);
      assert Shares(e, a);
    }
  }

  /** After the eviction for `a`, the deque of `ip` still holds what the history holds above the bound. */
  lemma KeptAbove(window: real, history: seq<Entry>, cutoff: real, ip: string, r: Ref, c: real)
    requires ip != "" && NoLaterThan(history, c + window) && cutoff <= c
    requires r in Proj(history, ip) && r.ts >= c
    ensures var index := Evict(Run(window, history), cutoff).index; ip in index && r in index[ip]
  {
    FreshMembers(Proj(history, ip), c, r);
    RunComplete(window, history, ip, c);
    EvictKeepsFresh(Run(window, history), cutoff, ip, c);
    FreshMembers(Deque(Evict(Run(window, history), cutoff).index, ip), c, r);
  }

  /** Completeness in any order: nothing at or above a bound of all the cutoffs so far is missed. */
  lemma CollectedIsCompleteAbove(window: real, history: seq<Entry>, a: Entry, e: Entry, c: real)
    requires NoLaterThan(history, c + window) && a.ts - window <= c
    requires e in history && Shares(e, a) && e.ts >= c
    ensures e.id in Collected(window, Run(window, history), a)
  {
    var ip := if a.src != "" && (e.src == a.src || e.dst == a.src) then a.src else a.dst;
    ProjMembers(history, ip, Ref(e.ts, e.id));
    KeptAbove(window, history, a.ts - window, ip, Ref(e.ts, e.id), c);
  }

  /** The index answers like a linear scan over all past alerts whenever the new alert is the latest so far. */
  lemma CollectedIsLinearScan(window: real, history: seq<Entry>, a: Entry)
    requires NoLaterThan(history, a.ts)
    ensures Collected(window, Run(window, history), a) == LinearScan(window, history, a)
  {
    CollectedIsSound(window, history, a);
    forall e | e in history && e.ts >= a.ts - window && Shares(e, a)
      ensures e.id in Collected(window, Run(window, history), a)
    {
      CollectedIsCompleteAbove(window, history, a, e, a.ts - window);
    }
  }

  /** A late alert can miss an earlier one: for every `late < latest` there is a run whose answer differs
      from the scan. */
  lemma LateAlertMisses(window: real, late: real, latest: real) returns (history: seq<Entry>, a: Entry)
    requires late < latest && late - window <= latest
    ensures history != [] && NoLaterThan(history, latest)
    ensures history[|history| - 1].ts == latest && a.ts == late
    ensures LinearScan(window, history, a) != Collected(window, Run(window, history), a)
  {
    var ip := "10.0.0.1";
    var first, second := Entry(late - window, "a", ip, ""), Entry(latest, "b", ip, "");
    history, a := [first, second], Entry(late, "c", ip, "");
    var s1 := AfterOne(window, first, ip);
    var cutoff := latest - window;
    assert DropOld(s1.index[ip], cutoff) == [];
    assert Prune(s1.index, ip, cutoff) == map[];
    assert Evict(s1, cutoff) == State(map[], []);
    var s2 := AfterOne(window, second, ip);
    assert history[..1] == [first];
    assert Run(window, history) == s2;
    assert Evict(s2, late - window) == s2;
    assert Collected(window, s2, a) == {"b"};
    assert first in history && Shares(first, a);
    assert "a" in LinearScan(window, history, a);
  }

  /** The state after a single alert with a source address only. */
  lemma AfterOne(window: real, e: Entry, ip: string) returns (st: State)
    requires ip != "" && e.src == ip && e.dst == ""
    ensures st == State(map[ip := [Ref(e.ts, e.id)]], [e])
    ensures st == Run(window, [e]) == Insert(State(map[], []), e)
  {
    st := Run(window, [e]);
    assert [e][..0] == [];
    assert Evict(Run(window, []), e.ts - window) == State(map[], []);
    assert Deque(map[], ip) + [Ref(e.ts, e.id)] == [Ref(e.ts, e.id)];
    assert st.recent == [] + [e] == [e];
  }

  ghost predicate LatestIs(history: seq<Entry>, ts: real) {
    (exists e :: e in history && e.ts == ts) && NoLaterThan(history, ts)
  }

  /** When the answer is the scan's on every run: `late` is the time of the new alert and `latest` that of the
      latest one before it.  The new alert must not be older, unless its window (a negative one) starts after
      all earlier alerts anyway. */
  lemma ExactIffLatest(window: real, late: real, latest: real)
    ensures late >= latest || late - window > latest <==>
              forall history, a: Entry :: LatestIs(history, latest) && a.ts == late ==>
                Collected(window, Run(window, history), a) == LinearScan(window, history, a)
  {
    if late >= latest || late - window > latest {
      forall history, a: Entry | LatestIs(history, latest) && a.ts == late
        ensures Collected(window, Run(window, history), a) == LinearScan(window, history, a)
      {
        if late >= latest {
          CollectedIsLinearScan(window, history, a);
        } else {
          CollectedIsSound(window, history, a);
          assert LinearScan(window, history, a) == {};
        }
      }
    } else {
      var history, a := LateAlertMisses(window, late, latest);
      assert history[|history| - 1] in history;
      assert LatestIs(history, latest);
    }
  }

  // ----- Memory: the index never holds more than two references per remembered alert -----

  function ProjTotal(ips: seq<string>, es: seq<Entry>): nat {
    if ips == [] then 0 else |Proj(es, ips[0])| + ProjTotal(ips[1..], es)
  }

  /** The references held under the listed addresses. */
  function IndexSize(index: map<string, seq<Ref>>, ips: seq<string>): nat {
    if ips == [] then 0 else |Deque(index, ips[0])| + IndexSize(index, ips[1..])
  }

  lemma {:induction false} ProjTotalCons(ips: seq<string>, es: seq<Entry>)
    requires es != [] && Distinct(ips)
    ensures ProjTotal(ips, es) ==
            ProjTotal(ips, es[1..]) + (if es[0].src in ips then 1 else 0) + (if es[0].dst in ips then 1 else 0)
  {
    if ips != [] {
      assert |Proj(es, ips[0])| == |RefsOf(es[0], ips[0])| + |Proj(es[1..], ips[0])|;
      assert ips == [ips[0]] + ips[1..];
      ProjTotalCons(ips[1..], es);
    }
  }

  lemma {:induction false} ProjTotalBound(ips: seq<string>, es: seq<Entry>)
    requires Distinct(ips)
    ensures ProjTotal(ips, es) <= 2 * |es|
  {
    if es != [] {
      ProjTotalCons(ips, es);
      ProjTotalBound(ips, es[1..]);
    } else if ips != [] {
      ProjTotalBound(ips[1..], es);
    }
  }

  lemma {:induction false} IndexWithinProjection(index: map<string, seq<Ref>>, ips: seq<string>, es: seq<Entry>)
    requires forall ip | ip in ips :: |Deque(index, ip)| <= |Proj(es, ip)|
    ensures IndexSize(index, ips) <= ProjTotal(ips, es)
  {
    if ips != [] {
      assert ips[0] in ips;
      IndexWithinProjection(index, ips[1..], es);
    }
  }

  /** However the addresses of the index are listed without repetition, their deques together hold at most
      two references per alert of the global deque. */
  lemma IndexSizeBound(window: real, history: seq<Entry>, ips: seq<string>)
    requires Distinct(ips)
    requires forall ip | ip in ips :: ip in Run(window, history).index
    ensures var st := Run(window, history); IndexSize(st.index, ips) <= 2 * |st.recent|
  {
    var st := Run(window, history);
    RunShape(window, history);
    forall ip | ip in ips
      ensures |Deque(st.index, ip)| <= |Proj(st.recent, ip)|
    {
      assert IsSuffix(Deque(st.index, ip), Proj(st.recent, ip));
    }
    IndexWithinProjection(st.index, ips, st.recent);
    ProjTotalBound(ips, st.recent);
  }

  // ----- Memory: what the window keeps -----

  lemma {:induction false} EvictDrops(st: State, cutoff: real) returns (k: nat)
    ensures k <= |st.recent| && Evict(st, cutoff).recent == st.recent[k..]
    ensures forall i | 0 <= i < k :: st.recent[i].ts < cutoff
    ensures k < |st.recent| ==> st.recent[k].ts >= cutoff
    decreases |st.recent|
  {
    k := 0;
    if st.recent != [] && st.recent[0].ts < cutoff {
      var e := st.recent[0];
      var next := State(Prune(Prune(st.index, e.src, cutoff), e.dst, cutoff), st.recent[1..]);
      k := EvictDrops(next, cutoff);
      k := k + 1;
    }
  }

  /** The global deque is the history without its first `k` alerts, all older than `c`. */
  ghost predicate DroppedOld(recent: seq<Entry>, history: seq<Entry>, k: nat, c: real) {
    && k <= |history| && recent == history[k..]
    && forall i | 0 <= i < k :: history[i].ts < c
  }

  lemma EvictDropsOld(history: seq<Entry>, st: State, k: nat, c: real, cutoff: real) returns (k': nat)
    requires DroppedOld(st.recent, history, k, c) && cutoff <= c
    ensures DroppedOld(Evict(st, cutoff).recent, history, k', c)
    ensures k' < |history| ==> history[k'].ts >= cutoff
  {
    var d := EvictDrops(st, cutoff);
    assert forall i | 0 <= i < |st.recent| :: st.recent[i] == history[k + i];
    k' := k + d;
    assert history[k..][d..] == history[k'..];
    forall i | 0 <= i < k'
      ensures history[i].ts < c
    {
      if i >= k {
        assert st.recent[i - k] == history[i];
      }
    }
  }

  lemma InsertKeepsDropped(history: seq<Entry>, st: State, k: nat, c: real, a: Entry)
    requires DroppedOld(st.recent, history, k, c)
    ensures DroppedOld(Insert(st, a).recent, history + [a], k, c)
  {
    assert (history + [a])[k..] == history[k..] + [a];
  }

  lemma StepDrops(window: real, past: seq<Entry>, a: Entry, k: nat, c: real) returns (k': nat)
    requires DroppedOld(Run(window, past).recent, past, k, c) && a.ts - window <= c
    ensures DroppedOld(Run(window, past + [a]).recent, past + [a], k', c)
  {
    var st := Run(window, past);
    k' := EvictDropsOld(past, st, k, c, a.ts - window);
    InsertKeepsDropped(past, Evict(st, a.ts - window), k', c, a);
    assert (past + [a])[..|past|] == past;
  }

  /** Whatever the order of arrival, what has been dropped from the global deque is below a bound of the cutoffs. */
  lemma {:induction false} RunDrops(window: real, history: seq<Entry>, c: real) returns (k: nat)
    requires forall i | 0 <= i < |history| :: history[i].ts <= c + window
    ensures DroppedOld(Run(window, history).recent, history, k, c)
  {
    k := 0;
    if history != [] {
      var n := |history| - 1;
      k := RunDrops(window, history[..n], c);
      k := StepDrops(window, history[..n], history[n], k, c);
      assert history == history[..n] + [history[n]];
    }
  }

  function InWindow(history: seq<Entry>, cutoff: real): seq<Entry> {
    if history == [] then []
    else InWindow(history[..|history| - 1], cutoff) +
         if history[|history| - 1].ts >= cutoff then [history[|history| - 1]] else []
  }

  ghost predicate Sorted(history: seq<Entry>) {
    forall i, j | 0 <= i < j < |history| :: history[i].ts <= history[j].ts
  }

  lemma {:induction false} WindowIsSuffix(history: seq<Entry>, cutoff: real, k: nat)
    requires k <= |history|
    requires forall i | 0 <= i < k :: history[i].ts < cutoff
    requires forall i | k <= i < |history| :: history[i].ts >= cutoff
    ensures InWindow(history, cutoff) == history[k..]
  {
    if history != [] {
      var n := |history| - 1;
      if k <= n {
        WindowIsSuffix(history[..n], cutoff, k);
        assert history[k..] == history[..n][k..] + [history[n]];
      } else {
        WindowIsSuffix(history[..n], cutoff, n);
        assert history[..n][n..] == [];
      }
    }
  }

  lemma {:induction false} AllFresh(q: seq<Ref>, c: real)
    requires forall r | r in q :: r.ts >= c
    ensures Fresh(q, c) == q
  {
    if q != [] {
      assert q[0] in q;
      AllFresh(q[1..], c);
    }
  }

  lemma {:induction false} WindowMembers(history: seq<Entry>, cutoff: real)
    ensures forall e | e in InWindow(history, cutoff) :: e.ts >= cutoff
  {
    if history != [] {
      WindowMembers(history[..|history| - 1], cutoff);
    }
  }

  lemma SortedFrom(history: seq<Entry>, cutoff: real, k: nat)
    requires Sorted(history) && k <= |history| && (k < |history| ==> history[k].ts >= cutoff)
    ensures forall i | k <= i < |history| :: history[i].ts >= cutoff
  {
  }

  lemma RecentIsWindow(window: real, history: seq<Entry>, ts: real)
    requires Sorted(history) && NoLaterThan(history, ts)
    ensures Evict(Run(window, history), ts - window).recent == InWindow(history, ts - window)
  {
    var cutoff := ts - window;
    var k := RunDrops(window, history, cutoff);
    k := EvictDropsOld(history, Run(window, history), k, cutoff, cutoff);
    SortedFrom(history, cutoff, k);
    WindowIsSuffix(history, cutoff, k);
  }

  lemma DequeIsFresh(history: seq<Entry>, st: State, ip: string, c: real)
    requires Shape(history, st) && ip != "" && forall e | e in st.recent :: e.ts >= c
    ensures Fresh(Deque(st.index, ip), c) == Deque(st.index, ip)
  {
    forall r | r in Deque(st.index, ip)
      ensures r.ts >= c
    {
      assert r in Proj(st.recent, ip);
      ProjMembers(st.recent, ip, r);
    }
    AllFresh(Deque(st.index, ip), c);
  }

  /** Nothing old is kept: for timestamps in order, once the correlator has evicted for a new alert of time `ts`,
      it remembers exactly the alerts of its window, and under each address exactly those that mention it. */
  lemma WindowIsRemembered(window: real, history: seq<Entry>, ts: real, ip: string)
    requires Sorted(history) && NoLaterThan(history, ts) && ip != ""
    ensures var cutoff, st := ts - window, Evict(Run(window, history), ts - window);
            && st.recent == InWindow(history, cutoff)
            && Deque(st.index, ip) == Fresh(Proj(history, ip), cutoff)
  {
    var cutoff, before := ts - window, Run(window, history);
    var st := Evict(before, cutoff);
    assert st.recent == InWindow(history, cutoff) by { RecentIsWindow(window, history, ts); }
    assert Fresh(Deque(st.index, ip), cutoff) == Deque(st.index, ip) by {
      RunShape(window, history);
      EvictShape(history, before, cutoff);
      WindowMembers(history, cutoff);
      DequeIsFresh(history, st, ip, cutoff);
    }
    assert Fresh(Deque(st.index, ip), cutoff) == Fresh(Deque(before.index, ip), cutoff) by {
      EvictKeepsFresh(before, cutoff, ip, cutoff);
    }
    assert Fresh(Deque(before.index, ip), cutoff) == Fresh(Proj(history, ip), cutoff) by {
      RunComplete(window, history, ip, cutoff);
    }
  }

  // ----- Alerts as the caller sees them -----

  /** One alert that was processed: its own time, id and flow. */
  datatype Sighting = Sighting(ts: real, id: string, flow: Option<FlowId>)

  function EntryOf(a: Sighting): Entry {
    match a.flow
    case None => Entry(a.ts, a.id, "", "")
    case Some(f) => Entry(a.ts, a.id, f.srcIp, f.dstIp)
  }

  function EntriesOf(sightings: seq<Sighting>): (entries: seq<Entry>)
    ensures |entries| == |sightings| && forall i | 0 <= i < |entries| :: entries[i] == EntryOf(sightings[i])
  {
    if sightings == [] then []
    else EntriesOf(sightings[..|sightings| - 1]) + [EntryOf(sightings[|sightings| - 1])]
  }

  /** The flows have a non-empty address in common, in either role. */
  predicate HaveCommonAddress(f: FlowId, g: FlowId) {
    || (f.srcIp != "" && (f.srcIp == g.srcIp || f.srcIp == g.dstIp))
    || (f.dstIp != "" && (f.dstIp == g.srcIp || f.dstIp == g.dstIp))
  }

  /** The ids of the earlier alerts in the window whose flow shares an address with `flow`. */
  function RelatedIds(window: real, sightings: seq<Sighting>, ts: real, flow: Option<FlowId>): set<string> {
    if flow.None? then {}
    else set b | b in sightings && b.ts >= ts - window && b.flow.Some? && HaveCommonAddress(b.flow.value, flow.value)
           :: b.id
  }

  ghost predicate NoneLaterThan(sightings: seq<Sighting>, ts: real) {
    forall b | b in sightings :: b.ts <= ts
  }

  lemma SharesIffCommonAddress(b: Sighting, a: Sighting)
    ensures Shares(EntryOf(b), EntryOf(a)) <==>
              a.flow.Some? && b.flow.Some? && HaveCommonAddress(b.flow.value, a.flow.value)
  {
  }

  lemma ScanFindsRelated(window: real, sightings: seq<Sighting>, a: Sighting)
    ensures LinearScan(window, EntriesOf(sightings), EntryOf(a)) == RelatedIds(window, sightings, a.ts, a.flow)
    ensures NoneLaterThan(sightings, a.ts) ==> NoLaterThan(EntriesOf(sightings), a.ts)
  {
    var entries, found := EntriesOf(sightings), RelatedIds(window, sightings, a.ts, a.flow);
    forall id | id in LinearScan(window, entries, EntryOf(a))
      ensures id in found
    {
      var e :| e in entries && e.ts >= a.ts - window && Shares(e, EntryOf(a)) && e.id == id;
      var i :| 0 <= i < |entries| && entries[i] == e;
      SharesIffCommonAddress(sightings[i], a);
      assert sightings[i] in sightings;
    }
    forall id | id in found
      ensures id in LinearScan(window, entries, EntryOf(a))
    {
      var b :| b in sightings && b.ts >= a.ts - window && b.flow.Some? && HaveCommonAddress(b.flow.value, a.flow.value)
                && b.id == id;
      var i :| 0 <= i < |sightings| && sightings[i] == b;
      SharesIffCommonAddress(b, a);
      assert entries[i] in entries;
    }
  }

  lemma EntriesSnoc(sightings: seq<Sighting>, a: Sighting)
    ensures EntriesOf(sightings + [a]) == EntriesOf(sightings) + [EntryOf(a)]
  {
    assert (sightings + [a])[..|sightings|] == sightings;
  }

  /** What `Process` needs of the lemmas above. */
  lemma ProcessMeaning(window: real, sightings: seq<Sighting>, a: Sighting)
    ensures Run(window, EntriesOf(sightings + [a])) == Step(window, Run(window, EntriesOf(sightings)), EntryOf(a))
    ensures var collected, related := Collected(window, Run(window, EntriesOf(sightings)), EntryOf(a)),
                                      RelatedIds(window, sightings, a.ts, a.flow);
            && collected <= related
            && (NoneLaterThan(sightings, a.ts) ==> collected == related)
  {
    var history := EntriesOf(sightings);
    EntriesSnoc(sightings, a);
    assert (history + [EntryOf(a)])[..|history|] == history;
    ScanFindsRelated(window, sightings, a);
    CollectedIsSound(window, history, EntryOf(a));
    if NoneLaterThan(sightings, a.ts) {
      CollectedIsLinearScan(window, history, EntryOf(a));
    }
  }

  /** What a capped pick of the collected ids is to the caller. */
  lemma PickMeaning(window: real, sightings: seq<Sighting>, a: Sighting, added: seq<string>)
    requires CappedPick(added, Collected(window, Run(window, EntriesOf(sightings)), EntryOf(a)))
    ensures var related := RelatedIds(window, sightings, a.ts, a.flow);
            && Distinct(added) && |added| <= 20 && (forall id | id in added :: id in related)
            && (NoneLaterThan(sightings, a.ts) ==> CappedPick(added, related))
  {
    ProcessMeaning(window, sightings, a);
  }

  // ----- The class -----

  class AlertRecord {
    const alertId: string
    const timestamp: real
    const flow: Option<FlowId>
    var relatedAlertIds: seq<string>

    constructor (alertId: string, timestamp: real, flow: Option<FlowId>)
      ensures this.alertId == alertId && this.timestamp == timestamp && this.flow == flow && relatedAlertIds == []
    {
      this.alertId, this.timestamp, this.flow, relatedAlertIds := alertId, timestamp, flow, [];
    }
  }

  /** `list(ids)[-20:]` for an arbitrary listing of the set. */
  method Cap(ids: set<string>) returns (capped: seq<string>)
    ensures CappedPick(capped, ids)
  {
    var listing: seq<string> := [];
    var rest := ids;
    while rest != {}
      invariant rest <= ids && |listing| + |rest| == |ids|
      invariant forall x | x in listing :: x in ids && x !in rest
      invariant forall i, j | 0 <= i < j < |listing| :: listing[i] != listing[j]
      decreases rest
    {
      var x :| x in rest;
      listing := listing + [x];
      rest := rest - {x};
    }
    capped := if |ids| > CAP then listing[|listing| - CAP..] else listing;
  }

  /** The ids in one deque that are inside the window. */
  method GatherIds(q: seq<Ref>, cutoff: real) returns (ids: set<string>)
    ensures ids == set r | r in q && r.ts >= cutoff :: r.id
  {
    ids := {};
    for i := 0 to |q|
      invariant ids == set r | r in q[..i] && r.ts >= cutoff :: r.id
    {
      assert q[..i + 1] == q[..i] + [q[i]];
      if q[i].ts >= cutoff {
        ids := ids + {q[i].id};
      }
    }
    assert q[..|q|] == q;
  }

  class AlertCorrelator {
    const timeWindow: real
    var ipToAlerts: map<string, seq<Ref>>
    var recentAlerts: seq<Entry>
    /** Every alert processed, in order. */
    ghost var sightings: seq<Sighting>

    ghost predicate Valid()
      reads this
    {
      State(ipToAlerts, recentAlerts) == Run(timeWindow, EntriesOf(sightings))
    }

    constructor (timeWindow: real)
      ensures Valid() && sightings == [] && this.timeWindow == timeWindow
    {
      this.timeWindow, ipToAlerts, recentAlerts, sightings := timeWindow, map[], [], [];
    }

    /** Pops the references of `ip` below the cutoff, and the deque itself once it is empty. */
    method PruneIp(ip: string, cutoff: real)
      modifies this`ipToAlerts
      ensures ipToAlerts == Prune(old(ipToAlerts), ip, cutoff)
    {
      if ip != "" && ip in ipToAlerts {
        while ipToAlerts[ip] != [] && ipToAlerts[ip][0].ts < cutoff
          invariant ip in ipToAlerts && ipToAlerts == old(ipToAlerts)[ip := ipToAlerts[ip]]
          invariant DropOld(ipToAlerts[ip], cutoff) == DropOld(old(ipToAlerts)[ip], cutoff)
          decreases |ipToAlerts[ip]|
        {
          ipToAlerts := ipToAlerts[ip := ipToAlerts[ip][1..]];
        }
        if ipToAlerts[ip] == [] {
          ipToAlerts := ipToAlerts - {ip};
        }
      }
    }

    method EvictOld(cutoff: real)
      modifies this`ipToAlerts, this`recentAlerts
      ensures State(ipToAlerts, recentAlerts) == Evict(old(State(ipToAlerts, recentAlerts)), cutoff)
    {
      while recentAlerts != [] && recentAlerts[0].ts < cutoff
        invariant Evict(State(ipToAlerts, recentAlerts), cutoff) == Evict(old(State(ipToAlerts, recentAlerts)), cutoff)
        decreases |recentAlerts|
      {
        var e := recentAlerts[0];
        recentAlerts := recentAlerts[1..];
        PruneIp(e.src, cutoff);
        PruneIp(e.dst, cutoff);
      }
    }

    method Related(src: string, dst: string, cutoff: real) returns (ids: set<string>)
      ensures ids == Lookup(ipToAlerts, src, cutoff) + Lookup(ipToAlerts, dst, cutoff)
    {
      ids := {};
      if src != "" && src in ipToAlerts {
        ids := GatherIds(ipToAlerts[src], cutoff);
      }
      if dst != "" && dst in ipToAlerts {
        var more := GatherIds(ipToAlerts[dst], cutoff);
        ids := ids + more;
      }
    }

    method Remember(a: Entry)
      modifies this`ipToAlerts, this`recentAlerts
      ensures State(ipToAlerts, recentAlerts) == Insert(old(State(ipToAlerts, recentAlerts)), a)
    {
      if a.src != "" {
        ipToAlerts := ipToAlerts[a.src := Deque(ipToAlerts, a.src) + [Ref(a.ts, a.id)]];
      }
      if a.dst != "" {
        ipToAlerts := ipToAlerts[a.dst := Deque(ipToAlerts, a.dst) + [Ref(a.ts, a.id)]];
      }
      recentAlerts := recentAlerts + [a];
    }

    /** Evicts, looks the related ids up, caps them and remembers the alert. */
    method Correlate(a: Entry, cutoff: real) returns (capped: seq<string>)
      requires cutoff == a.ts - timeWindow
      modifies this`ipToAlerts, this`recentAlerts
      ensures State(ipToAlerts, recentAlerts) == Step(timeWindow, old(State(ipToAlerts, recentAlerts)), a)
      ensures CappedPick(capped, Collected(timeWindow, old(State(ipToAlerts, recentAlerts)), a))
    {
      EvictOld(cutoff);
      var related := Related(a.src, a.dst, cutoff);
      capped := Cap(related);
      Remember(a);
    }

    /** Correlates one alert.  It keeps the related ids it had and gains distinct ids, at most twenty, of earlier
        alerts inside its window whose flow shares a non-empty address with its own; when no earlier alert is
        newer, as many of all those as the cap allows. */
    method Process(alert: AlertRecord)
      requires Valid()
      modifies this, alert
      ensures Valid() && sightings == old(sightings) + [Sighting(alert.timestamp, alert.alertId, alert.flow)]
      ensures |old(alert.relatedAlertIds)| <= |alert.relatedAlertIds|
      ensures alert.relatedAlertIds[..|old(alert.relatedAlertIds)|] == old(alert.relatedAlertIds)
      ensures var added := alert.relatedAlertIds[|old(alert.relatedAlertIds)|..];
              var related := RelatedIds(timeWindow, old(sightings), alert.timestamp, alert.flow);
              && Distinct(added) && |added| <= 20 && (forall id | id in added :: id in related)
              && (NoneLaterThan(old(sightings), alert.timestamp) ==> CappedPick(added, related))
      ensures CappedPick(alert.relatedAlertIds[|old(alert.relatedAlertIds)|..],
                         Collected(timeWindow, Run(timeWindow, EntriesOf(old(sightings))),
                                   EntryOf(Sighting(alert.timestamp, alert.alertId, alert.flow))))
    {
      var cutoff := alert.timestamp - timeWindow;
      var (src, dst) := match alert.flow case None => ("", "") case Some(f) => (f.srcIp, f.dstIp);
      var capped := Correlate(Entry(alert.timestamp, alert.alertId, src, dst), cutoff);
      ghost var seen := Sighting(alert.timestamp, alert.alertId, alert.flow);
      ProcessMeaning(timeWindow, sightings, seen);
      PickMeaning(timeWindow, sightings, seen, capped);
      alert.relatedAlertIds := alert.relatedAlertIds + capped;
      sightings := sightings + [seen];
    }
  }
}
