/** What the key order of assembler/flow_session_tables.py's `BoundedTable` means.

  The order of the table's keys (least recently used first) is a function of the operations alone.  The
  functions here follow the code one operation at a time; `LruMeaning`, `SurvivesIff` and `Inclusion` say
  what the result is in terms of the whole trace.
 */
module Lru {
  import opened Sequences

  datatype Op<K> = GetOrCreate(key: K) | Get(key: K)

  function LastN<T>(xs: seq<T>, n: nat): seq<T> {
    if |xs| <= n then xs else xs[|xs| - n..]
  }

  // ----- One operation -----

  /** The number of keys the table holds at most: a bound below one still leaves room for one key. */
  function Capacity(maxSize: int): nat {
    if maxSize < 1 then 1 else maxSize
  }

  function Touch<K(==,!new)>(order: seq<K>, k: K): seq<K> {
    Without(order, k) + [k]
  }

  function MakeRoom<K>(maxSize: int, order: seq<K>): seq<K> {
    if |order| >= maxSize && order != [] then order[1..] else order
  }

  function Apply<K(==,!new)>(maxSize: int, order: seq<K>, op: Op<K>): seq<K> {
    if op.key in order then Touch(order, op.key)
    else if op.Get? then order
    else MakeRoom(maxSize, order) + [op.key]
  }

  function Order<K(==,!new)>(maxSize: int, ops: seq<Op<K>>): seq<K> {
    if ops == [] then [] else Apply(maxSize, Order(maxSize, ops[..|ops| - 1]), ops[|ops| - 1])
  }

  /** The order after calling get_or_create on each key of a trace. */
  function Keys<K(==,!new)>(maxSize: int, trace: seq<K>): seq<K> {
    if trace == [] then []
    else Apply(maxSize, Keys(maxSize, trace[..|trace| - 1]), GetOrCreate(trace[|trace| - 1]))
  }

  lemma {:induction false} OrderIsBounded<K(!new)>(maxSize: int, ops: seq<Op<K>>)
    ensures Distinct(Order(maxSize, ops)) && |Order(maxSize, ops)| <= Capacity(maxSize)
  {
    if ops != [] {
      var order := Order(maxSize, ops[..|ops| - 1]);
      OrderIsBounded(maxSize, ops[..|ops| - 1]);
      WithoutDistinct(order, ops[|ops| - 1].key);
    }
  }

  lemma ElemsTouch<T(!new)>(xs: seq<T>, x: T)
    requires Distinct(xs) && x in Elems(xs)
    ensures Distinct(Touch(xs, x)) && Elems(Touch(xs, x)) == Elems(xs)
  {
    WithoutDistinct(xs, x);
    assert x in xs;
  }

  // ----- The reference: recency in the whole trace -----

  /** The distinct keys of the trace, least recently accessed first. */
  function Recency<K(==,!new)>(trace: seq<K>): seq<K> {
    if trace == [] then [] else Touch(Recency(trace[..|trace| - 1]), trace[|trace| - 1])
  }

  function LastIndex<K(==,!new)>(trace: seq<K>, k: K): (i: nat)
    requires k in trace
    ensures i < |trace| && trace[i] == k
    ensures forall j | i < j < |trace| :: trace[j] != k
  {
    if trace[|trace| - 1] == k then |trace| - 1
    else assert trace == trace[..|trace| - 1] + [trace[|trace| - 1]]; LastIndex(trace[..|trace| - 1], k)
  }

  ghost predicate ByLastAccess<K(!new)>(trace: seq<K>, r: seq<K>) {
    && (forall x | x in r :: x in trace)
    && (forall i, j | 0 <= i < j < |r| :: LastIndex(trace, r[i]) < LastIndex(trace, r[j]))
  }

  lemma ByLastAccessCons<K(!new)>(trace: seq<K>, x: K, r: seq<K>)
    requires x in trace && ByLastAccess(trace, r)
    requires forall y | y in r :: LastIndex(trace, x) < LastIndex(trace, y)
    ensures ByLastAccess(trace, [x] + r)
  {
  }

  lemma {:induction false} WithoutKeepsOrder<K(!new)>(trace: seq<K>, r: seq<K>, k: K)
    requires ByLastAccess(trace, r)
    ensures ByLastAccess(trace, Without(r, k))
  {
    if r != [] {
      var first, rest := r[0], r[1..];
      assert forall i | 0 <= i < |rest| :: rest[i] == r[i + 1];
      WithoutKeepsOrder(trace, rest, k);
      if first == k {
        assert Without(r, k) == Without(rest, k);
      } else {
        forall y | y in Without(rest, k)
          ensures LastIndex(trace, first) < LastIndex(trace, y)
        {
          assert y in rest;
        }
        ByLastAccessCons(trace, first, Without(rest, k));
      }
    }
  }

  lemma OneMoreAccess<K(!new)>(past: seq<K>, w: seq<K>, k: K)
    requires ByLastAccess(past, w) && k !in w
    ensures ByLastAccess(past + [k], w + [k])
  {
    var trace := past + [k];
    forall x | x in w
      ensures LastIndex(trace, x) == LastIndex(past, x)
    {
      assert trace[..|trace| - 1] == past;
    }
  }

  /** `Recency` lists each key of the trace once, in the order of last occurrence. */
  lemma {:induction false} RecencyMeaning<K(!new)>(trace: seq<K>)
    ensures Distinct(Recency(trace))
    ensures Elems(Recency(trace)) == Elems(trace)
    ensures ByLastAccess(trace, Recency(trace))
  {
    if trace != [] {
      var past, k := trace[..|trace| - 1], trace[|trace| - 1];
      var r := Recency(past);
      RecencyMeaning(past);
      WithoutDistinct(r, k);
      WithoutKeepsOrder(past, r, k);
      OneMoreAccess(past, Without(r, k), k);
      assert trace == past + [k];
      forall x
        ensures x in Recency(trace) <==> x in trace
      {
        assert x in r <==> x in Elems(r);
        assert x in past <==> x in Elems(past);
      }
    }
  }

  /** The table holds exactly the most recently accessed distinct keys, oldest first. */
  lemma {:induction false} LruMeaning<K(!new)>(maxSize: int, trace: seq<K>)
    ensures Keys(maxSize, trace) == LastN(Recency(trace), Capacity(maxSize))
  {
    if trace != [] {
      var past, k := trace[..|trace| - 1], trace[|trace| - 1];
      LruMeaning(maxSize, past);
      RecencyMeaning(past);
      AccessKeepsLastN(maxSize, Recency(past), k);
    }
  }

  lemma LastNOf<K(!new)>(a: seq<K>, b: seq<K>, n: nat)
    requires |b| <= n && (a == [] || |b| == n)
    ensures LastN(a + b, n) == b
  {
  }

  /** A hit: `t` is the table, `a` the older keys it no longer holds. */
  lemma HitKeepsLastN<K(!new)>(a: seq<K>, t: seq<K>, k: K, c: nat)
    requires Distinct(t) && k in t && k !in a
    requires |t| <= c && (a == [] || |t| == c)
    ensures LastN(Touch(a + t, k), c) == Touch(t, k)
  {
    WithoutConcat(a, t, k);
    WithoutDistinct(t, k);
    assert Touch(a + t, k) == a + Touch(t, k);
    LastNOf(a, Touch(t, k), c);
  }

  lemma MissKeepsLastN<K(!new)>(a: seq<K>, t: seq<K>, k: K, c: nat)
    requires k !in t && 0 < c
    requires |t| <= c && (a == [] || |t| == c)
    ensures LastN(Touch(a + t, k), c) == (if |t| >= c then t[1..] else t) + [k]
  {
    WithoutConcat(a, t, k);
    var w := Without(a, k);
    if |t| < c {
      assert Touch(a + t, k) == [] + (t + [k]);
      LastNOf([], t + [k], c);
    } else {
      assert w + t + [k] == (w + [t[0]]) + (t[1..] + [k]);
      LastNOf(w + [t[0]], t[1..] + [k], c);
    }
  }

  lemma DistinctSplit<K(!new)>(a: seq<K>, t: seq<K>)
    requires Distinct(a + t)
    ensures Distinct(t) && forall k | k in t :: k !in a
  {
    var r := a + t;
    assert forall i | 0 <= i < |t| :: t[i] == r[|a| + i];
    assert forall i | 0 <= i < |a| :: a[i] == r[i];
  }

  lemma AccessKeepsLastN<K(!new)>(maxSize: int, r: seq<K>, k: K)
    requires Distinct(r)
    ensures Apply(maxSize, LastN(r, Capacity(maxSize)), GetOrCreate(k)) == LastN(Touch(r, k), Capacity(maxSize))
  {
    var t, c := LastN(r, Capacity(maxSize)), Capacity(maxSize);
    var a := r[..|r| - |t|];
    assert r == a + t;
    DistinctSplit(a, t);
    if k in t {
      HitKeepsLastN(a, t, k, c);
      assert Apply(maxSize, t, GetOrCreate(k)) == Touch(t, k);
    } else {
      MissKeepsLastN(a, t, k, c);
      assert Apply(maxSize, t, GetOrCreate(k)) == (if |t| >= c then t[1..] else t) + [k];
    }
  }

  /** The accesses a mixed trace makes: every get_or_create, and every get of a key the table holds. */
  function Accesses<K(==,!new)>(maxSize: int, ops: seq<Op<K>>): seq<K> {
    if ops == [] then []
    else
      var past, op := ops[..|ops| - 1], ops[|ops| - 1];
      Accesses(maxSize, past) + if op.GetOrCreate? || op.key in Order(maxSize, past) then [op.key] else []
  }

  /** With get calls in between the table holds exactly the most recently accessed distinct keys all the same: a
      get that hits counts as an access, one that misses does nothing. */
  lemma {:induction false} OrderMeaning<K(!new)>(maxSize: int, ops: seq<Op<K>>)
    ensures Order(maxSize, ops) == LastN(Recency(Accesses(maxSize, ops)), Capacity(maxSize))
  {
    if ops != [] {
      var past, op := ops[..|ops| - 1], ops[|ops| - 1];
      var order, trace := Order(maxSize, past), Accesses(maxSize, past);
      OrderMeaning(maxSize, past);
      if op.GetOrCreate? || op.key in order {
        RecencyMeaning(trace);
        AccessKeepsLastN(maxSize, Recency(trace), op.key);
        assert (trace + [op.key])[..|trace|] == trace;
      } else {
        assert trace + [] == trace;
      }
    }
  }

  /** The distinct keys accessed after the last access to `k`. */
  function KeysAfter<K(==,!new)>(trace: seq<K>, k: K): set<K>
    requires k in trace
  {
    Elems(trace[LastIndex(trace, k) + 1..])
  }

  lemma {:induction false} DistinctCount<K(!new)>(xs: seq<K>)
    requires Distinct(xs)
    ensures |Elems(xs)| == |xs|
  {
    if xs != [] {
      DistinctCount(xs[1..]);
      assert xs == [xs[0]] + xs[1..];
      assert Elems(xs) == {xs[0]} + Elems(xs[1..]);
    }
  }

  lemma SameElem<K(!new)>(xs: seq<K>, ys: seq<K>, x: K)
    requires Elems(xs) == Elems(ys)
    ensures x in xs <==> x in ys
  {
    assert x in xs <==> x in Elems(xs);
    assert x in ys <==> x in Elems(ys);
  }

  lemma InTail<K(!new)>(xs: seq<K>, m: nat, from: nat)
    requires from <= m < |xs|
    ensures xs[m] in xs[from..]
  {
    assert xs[from..][m - from] == xs[m];
  }

  lemma LaterInRecency<K(!new)>(trace: seq<K>, i: nat)
    requires i < |Recency(trace)|
    ensures Recency(trace)[i] in trace
    ensures KeysAfter(trace, Recency(trace)[i]) == Elems(Recency(trace)[i + 1..])
    ensures |KeysAfter(trace, Recency(trace)[i])| == |Recency(trace)| - i - 1
  {
    RecencyMeaning(trace);
    var r := Recency(trace);
    var k := r[i];
    SameElem(trace, r, k);
    var li := LastIndex(trace, k);
    forall x | x in KeysAfter(trace, k)
      ensures x in r[i + 1..]
    {
      SameElem(trace, r, x);
      var m :| 0 <= m < |r| && r[m] == x;
      assert LastIndex(trace, x) > li;
      InTail(r, m, i + 1);
    }
    var tail := r[i + 1..];
    forall x | x in tail
      ensures x in trace[li + 1..]
    {
      var m :| i < m < |r| && r[m] == x;
      InTail(trace, LastIndex(trace, x), li + 1);
    }
    DistinctCount(r[i + 1..]);
  }

  /** A key is in the table exactly when fewer distinct keys than the capacity followed its last access. */
  lemma SurvivesIff<K(!new)>(maxSize: int, trace: seq<K>, k: K)
    ensures k in Keys(maxSize, trace) <==> k in trace && |KeysAfter(trace, k)| < Capacity(maxSize)
  {
    LruMeaning(maxSize, trace);
    RecencyMeaning(trace);
    SameElem(trace, Recency(trace), k);
    var r, c := Recency(trace), Capacity(maxSize);
    if k in trace {
      var i :| 0 <= i < |r| && r[i] == k;
      LaterInRecency(trace, i);
      if |r| - i - 1 < c && |r| > c {
        assert r[|r| - c..][i - (|r| - c)] == k;
      }
    }
  }

  /** Between two accesses to one key, at positions `i` and `j`, fewer distinct other keys than the
      capacity leave that key in the table. */
  lemma NotResetBetween<K(!new)>(maxSize: int, trace: seq<K>, i: nat, j: nat)
    requires i < j < |trace| && trace[i] == trace[j]
    requires |Elems(trace[i + 1..j]) - {trace[i]}| < Capacity(maxSize)
    ensures trace[j] in Keys(maxSize, trace[..j])
  {
    var past, k := trace[..j], trace[i];
    assert past[i] == k;
    var between := Elems(trace[i + 1..j]) - {k};
    forall x | x in KeysAfter(past, k)
      ensures x in between
    {
      var m :| LastIndex(past, k) < m < j && past[m] == x;
      assert x == trace[i + 1..j][m - i - 1];
    }
    SubsetSize(KeysAfter(past, k), between);
    SurvivesIff(maxSize, past, k);
  }

  // ----- Inclusion: a larger table always holds what a smaller one holds -----

  /** One operation keeps the small table's order a subsequence of the large table's. */
  lemma ApplyKeepsInclusion<K(!new)>(m: int, n: int, small: seq<K>, large: seq<K>, op: Op<K>)
    requires m <= n && Distinct(small) && Distinct(large)
    requires SubSeq(small, large)
    requires |small| == (if |large| < Capacity(m) then |large| else Capacity(m))
    requires |large| <= Capacity(n)
    ensures var small', large' := Apply(m, small, op), Apply(n, large, op);
            SubSeq(small', large') && |small'| == if |large'| < Capacity(m) then |large'| else Capacity(m)
  {
    var k := op.key;
    WithoutDistinct(small, k);
    WithoutDistinct(large, k);
    SubSeqLength(small, large);
    if k in small {
      SubSeqMembers(small, large, k);
      SubSeqWithout(small, large, k);
      SubSeqSnoc(Without(small, k), Without(large, k), k);
    } else if k in large {
      SubSeqWithout(small, large, k);
      assert SubSeq(small, Without(large, k));
      if op.GetOrCreate? {
        assert |small| == Capacity(m);
        SubSeqTail(small, Without(large, k));
        SubSeqSnoc(small[1..], Without(large, k), k);
      } else {
        SubSeqWeakenEnd(small, Without(large, k), k);
      }
    } else if op.GetOrCreate? {
      if small != [] {
        SubSeqTail(small, large);
      }
      SubSeqSnoc(MakeRoom(m, small), MakeRoom(n, large), k);
    }
  }

  /** On one trace of get_or_create and get calls, a table of size m <= n holds, at every step, a
      subsequence of what the table of size n holds, and as many keys as its own bound allows. */
  lemma {:induction false} Inclusion<K(!new)>(m: int, n: int, ops: seq<Op<K>>)
    requires m <= n
    ensures SubSeq(Order(m, ops), Order(n, ops))
    ensures |Order(m, ops)| == if |Order(n, ops)| < Capacity(m) then |Order(n, ops)| else Capacity(m)
  {
    if ops != [] {
      var past := ops[..|ops| - 1];
      Inclusion(m, n, past);
      OrderIsBounded(m, past);
      OrderIsBounded(n, past);
      ApplyKeepsInclusion(m, n, Order(m, past), Order(n, past), ops[|ops| - 1]);
    }
  }
}
