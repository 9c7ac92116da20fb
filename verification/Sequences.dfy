/** Sequences without repetition, and subsequences. */
module Sequences {
  lemma ConcatAssoc<T>(a: seq<T>, b: seq<T>, c: seq<T>)
    ensures a + (b + c) == a + b + c
  {
  }

  // ----- Sequences without repetition -----

  ghost predicate Distinct<T>(xs: seq<T>) {
    forall i, j | 0 <= i < j < |xs| :: xs[i] != xs[j]
  }

  function Without<T(==,!new)>(xs: seq<T>, x: T): (r: seq<T>)
    ensures forall y :: y in r <==> y in xs && y != x
    ensures x !in xs ==> r == xs
    ensures |r| <= |xs|
  {
    if xs == [] then [] else (if xs[0] == x then [] else [xs[0]]) + Without(xs[1..], x)
  }

  lemma {:induction false} WithoutConcat<T(!new)>(xs: seq<T>, ys: seq<T>, x: T)
    ensures Without(xs + ys, x) == Without(xs, x) + Without(ys, x)
  {
    if xs == [] {
      assert xs + ys == ys;
    } else {
      assert (xs + ys)[1..] == xs[1..] + ys;
      WithoutConcat(xs[1..], ys, x);
    }
  }

  lemma DistinctCons<T(!new)>(x: T, ys: seq<T>)
    requires Distinct(ys) && x !in ys
    ensures Distinct([x] + ys)
  {
  }

  lemma {:induction false} WithoutDistinct<T(!new)>(xs: seq<T>, x: T)
    requires Distinct(xs)
    ensures Distinct(Without(xs, x))
    ensures |Without(xs, x)| == if x in xs then |xs| - 1 else |xs|
  {
    if xs != [] {
      var rest := Without(xs[1..], x);
      WithoutDistinct(xs[1..], x);
      assert xs[0] !in xs[1..];
      if xs[0] == x {
        assert Without(xs, x) == rest;
      } else {
        DistinctCons(xs[0], rest);
        assert x in xs <==> x in xs[1..];
      }
    }
  }

  function Elems<T(!new)>(xs: seq<T>): set<T> {
    set x | x in xs
  }

  lemma ElemsTail<T(!new)>(xs: seq<T>)
    requires Distinct(xs) && xs != []
    ensures Distinct(xs[1..]) && Elems(xs[1..]) == Elems(xs) - {xs[0]}
  {
    assert xs == [xs[0]] + xs[1..];
    assert xs[0] !in xs[1..];
  }

  lemma ElemsSnoc<T(!new)>(xs: seq<T>, x: T)
    requires Distinct(xs) && x !in Elems(xs)
    ensures Distinct(xs + [x]) && Elems(xs + [x]) == Elems(xs) + {x}
  {
    assert forall y :: y in xs ==> y in Elems(xs);
  }

  lemma ElemsPrefix<T(!new)>(xs: seq<T>, i: nat)
    requires Distinct(xs) && i < |xs|
    ensures xs[i] in Elems(xs) && xs[i] !in Elems(xs[..i])
    ensures Elems(xs[..i + 1]) == Elems(xs[..i]) + {xs[i]}
  {
    assert xs[..i + 1] == xs[..i] + [xs[i]];
    assert xs[i] in xs;
  }

  // ----- Sizes of sets -----

  lemma SubsetSize<T>(a: set<T>, b: set<T>)
    requires a <= b
    ensures |a| <= |b|
  {
    assert b == a + (b - a);
  }

  lemma UnionSize<T>(a: set<T>, b: set<T>)
    ensures |a + b| <= |a| + |b|
  {
    assert a + b == a + (b - a);
    SubsetSize(b - a, b);
  }

  lemma DifferenceSize<T>(a: set<T>, b: set<T>)
    requires b <= a
    ensures |a - b| == |a| - |b|
  {
    assert a == (a - b) + b;
  }

  lemma {:induction false} SubsetOfSize<T>(s: set<T>, n: nat) returns (r: set<T>)
    requires n <= |s|
    ensures r <= s && |r| == n
  {
    if |s| == n {
      r := s;
    } else {
      var x :| x in s;
      r := SubsetOfSize(s - {x}, n);
    }
  }

  // ----- Subsequences -----

  /** `xs` is obtained from `ys` by dropping elements. */
  predicate SubSeq<T(==,!new)>(xs: seq<T>, ys: seq<T>) {
    if xs == [] then true
    else if ys == [] then false
    else if xs[0] == ys[0] then SubSeq(xs[1..], ys[1..])
    else SubSeq(xs, ys[1..])
  }

  lemma {:induction false} SubSeqMembers<T(!new)>(xs: seq<T>, ys: seq<T>, x: T)
    requires SubSeq(xs, ys) && x in xs
    ensures x in ys
  {
    assert xs == [xs[0]] + xs[1..] && ys == [ys[0]] + ys[1..];
    if xs[0] == ys[0] {
      if x != xs[0] {
        SubSeqMembers(xs[1..], ys[1..], x);
      }
    } else {
      SubSeqMembers(xs, ys[1..], x);
    }
  }

  lemma {:induction false} SubSeqLength<T(!new)>(xs: seq<T>, ys: seq<T>)
    requires SubSeq(xs, ys)
    ensures |xs| <= |ys| && (|xs| == |ys| ==> xs == ys)
  {
    if xs != [] {
      if xs[0] == ys[0] {
        SubSeqLength(xs[1..], ys[1..]);
      } else {
        SubSeqLength(xs, ys[1..]);
      }
    }
  }

  lemma {:induction false} SubSeqTail<T(!new)>(xs: seq<T>, ys: seq<T>)
    requires xs != [] && SubSeq(xs, ys)
    ensures SubSeq(xs[1..], ys[1..]) && SubSeq(xs[1..], ys)
    decreases |ys|, 0
  {
    if xs[0] == ys[0] {
      if |xs| > 1 {
        SubSeqWeaken(xs[1..], ys[1..], ys[0]);
        assert [ys[0]] + ys[1..] == ys;
      }
    } else {
      SubSeqTail(xs, ys[1..]);
      SubSeqWeaken(xs[1..], ys[1..], ys[0]);
      assert [ys[0]] + ys[1..] == ys;
    }
  }

  lemma {:induction false} SubSeqWeaken<T(!new)>(xs: seq<T>, ys: seq<T>, y: T)
    requires SubSeq(xs, ys)
    ensures SubSeq(xs, [y] + ys)
    decreases |ys|, 1
  {
    assert ([y] + ys)[1..] == ys;
    if xs != [] && xs[0] == y {
      SubSeqTail(xs, ys);
    }
  }

  lemma {:induction false} SubSeqSnoc<T(!new)>(xs: seq<T>, ys: seq<T>, y: T)
    requires SubSeq(xs, ys)
    ensures SubSeq(xs + [y], ys + [y])
  {
    if ys == [] {
      assert xs + [y] == [y] && ys + [y] == [y];
    } else {
      assert (ys + [y])[1..] == ys[1..] + [y];
      if xs != [] && xs[0] == ys[0] {
        assert (xs + [y])[1..] == xs[1..] + [y];
        SubSeqSnoc(xs[1..], ys[1..], y);
      } else {
        SubSeqSnoc(xs, ys[1..], y);
        if (xs + [y])[0] == ys[0] {
          assert xs == [] && xs + [y] == [y];
        }
      }
    }
  }

  lemma {:induction false} SubSeqWithout<T(!new)>(xs: seq<T>, ys: seq<T>, x: T)
    requires SubSeq(xs, ys)
    ensures SubSeq(Without(xs, x), Without(ys, x))
  {
    if xs != [] {
      var xs', ys' := Without(xs[1..], x), Without(ys[1..], x);
      if xs[0] == ys[0] {
        SubSeqWithout(xs[1..], ys[1..], x);
        if xs[0] == x {
          assert Without(xs, x) == xs' && Without(ys, x) == ys';
        } else {
          assert ([xs[0]] + xs')[1..] == xs' && ([ys[0]] + ys')[1..] == ys';
        }
      } else {
        SubSeqWithout(xs, ys[1..], x);
        if ys[0] == x {
          assert Without(ys, x) == ys';
        } else {
          SubSeqWeaken(Without(xs, x), ys', ys[0]);
        }
      }
    }
  }

  lemma {:induction false} SubSeqWeakenEnd<T(!new)>(xs: seq<T>, ys: seq<T>, y: T)
    requires SubSeq(xs, ys)
    ensures SubSeq(xs, ys + [y])
  {
    if xs != [] {
      assert (ys + [y])[1..] == ys[1..] + [y];
      if xs[0] == ys[0] {
        SubSeqWeakenEnd(xs[1..], ys[1..], y);
      } else {
        SubSeqWeakenEnd(xs, ys[1..], y);
      }
    }
  }

  lemma {:induction false} SubSeqRefl<T(!new)>(xs: seq<T>)
    ensures SubSeq(xs, xs)
  {
    if xs != [] {
      SubSeqRefl(xs[1..]);
    }
  }

  lemma {:induction false} SubSeqPrefix<T(!new)>(xs: seq<T>, more: seq<T>, ys: seq<T>)
    requires SubSeq(xs + more, ys)
    ensures SubSeq(xs, ys)
  {
    if xs != [] {
      assert (xs + more)[1..] == xs[1..] + more;
      if xs[0] == ys[0] {
        SubSeqPrefix(xs[1..], more, ys[1..]);
      } else {
        SubSeqPrefix(xs, more, ys[1..]);
      }
    }
  }

  lemma {:induction false} SubSeqDrop<T(!new)>(xs: seq<T>, ys: seq<T>, x: T)
    requires SubSeq(xs, ys)
    ensures SubSeq(Without(xs, x), ys)
  {
    if xs != [] {
      if xs[0] == ys[0] {
        SubSeqDrop(xs[1..], ys[1..], x);
        if xs[0] == x {
          assert Without(xs, x) == Without(xs[1..], x) && ys == [ys[0]] + ys[1..];
          SubSeqWeaken(Without(xs, x), ys[1..], ys[0]);
        } else {
          assert Without(xs, x)[1..] == Without(xs[1..], x);
        }
      } else {
        SubSeqDrop(xs, ys[1..], x);
        assert ys == [ys[0]] + ys[1..];
        SubSeqWeaken(Without(xs, x), ys[1..], ys[0]);
      }
    }
  }

  lemma {:induction false} SubSeqConcat<T(!new)>(a: seq<T>, b: seq<T>, c: seq<T>)
    requires SubSeq(a, b)
    ensures SubSeq(a + c, b + c)
  {
    if c == [] {
      assert a + c == a && b + c == b;
    } else {
      SubSeqConcat(a, b, c[..|c| - 1]);
      SubSeqSnoc(a + c[..|c| - 1], b + c[..|c| - 1], c[|c| - 1]);
      assert a + c == a + c[..|c| - 1] + [c[|c| - 1]] && b + c == b + c[..|c| - 1] + [c[|c| - 1]];
    }
  }

  lemma {:induction false} SubSeqMore<T(!new)>(a: seq<T>, b: seq<T>, c: seq<T>)
    requires SubSeq(a, b)
    ensures SubSeq(a, b + c)
  {
    if c == [] {
      assert b + c == b;
    } else {
      SubSeqMore(a, b, c[..|c| - 1]);
      SubSeqWeakenEnd(a, b + c[..|c| - 1], c[|c| - 1]);
      assert b + c == b + c[..|c| - 1] + [c[|c| - 1]];
    }
  }
}
