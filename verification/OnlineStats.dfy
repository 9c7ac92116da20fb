/** features/online_stats.py: Welford's running variance and the Count-Min sketch. */
module OnlineStats {
  import opened Wrappers

  // ----- Welford: the recurrence and the reference -----

  datatype Moments = Moments(count: nat, mean: real, m2: real)

  function Updated(w: Moments, value: real): Moments {
    var count := w.count + 1;
    var delta := value - w.mean;
    var mean := w.mean + delta / count as real;
    Moments(count, mean, w.m2 + delta * (value - mean))
  }

  function MomentsOf(xs: seq<real>): Moments {
    if xs == [] then Moments(0, 0.0, 0.0) else Updated(MomentsOf(xs[..|xs| - 1]), xs[|xs| - 1])
  }

  function Variance(w: Moments): real {
    if w.count < 2 then 0.0 else w.m2 / (w.count - 1) as real
  }

  /** The sum of `f` over the inputs. */
  function Sum(f: real -> real, xs: seq<real>): real {
    if xs == [] then 0.0 else Sum(f, xs[..|xs| - 1]) + f(xs[|xs| - 1])
  }

  function Itself(): real -> real { x => x }

  function Times(a: real, b: real): real { a * b }

  function Sq(x: real): real { Times(x, x) }

  /** The squared deviation from `m`. */
  function Deviation(m: real): real -> real { x => Sq(x - m) }

  /** What Welford's state should say about the inputs. */
  ghost predicate Describes(w: Moments, xs: seq<real>) {
    && w.count == |xs|
    && |xs| as real * w.mean == Sum(Itself(), xs)
    && w.m2 == Sum(Deviation(w.mean), xs)
  }

  lemma SumSnoc(f: real -> real, xs: seq<real>, x: real)
    ensures Sum(f, xs + [x]) == Sum(f, xs) + f(x)
  {
    assert (xs + [x])[..|xs|] == xs;
  }

  lemma MomentsSnoc(xs: seq<real>, x: real)
    ensures MomentsOf(xs + [x]) == Updated(MomentsOf(xs), x)
  {
    assert (xs + [x])[..|xs|] == xs;
  }

  // ----- Welford: what the state means -----

  /** Moving the reference point of the deviations from `a` to `b`, for one more input. */
  lemma MoveAlgebra(n: real, s: real, x: real, a: real, b: real)
    ensures 2.0 * (a - b) * (s - n * a) + n * Sq(a - b) + Sq(x - b)
         == Sq(x - a) + 2.0 * (a - b) * (s + x - (n + 1.0) * a) + (n + 1.0) * Sq(a - b)
  {
    assert Sq(x - b) == Sq(x - a) + 2.0 * (a - b) * (x - a) + Sq(a - b);
    assert 2.0 * (a - b) * (s + x - (n + 1.0) * a)
        == 2.0 * (a - b) * (s - n * a) + 2.0 * (a - b) * (x - a);
  }

  /** What moving the reference point from `a` to `b` adds to the deviations of `n` inputs of sum `s`. */
  function Shift(n: real, s: real, a: real, b: real): real {
    2.0 * (a - b) * (s - n * a) + n * Sq(a - b)
  }

  lemma {:induction false} MoveDeviation(xs: seq<real>, a: real, b: real)
    ensures Sum(Deviation(b), xs) == Sum(Deviation(a), xs) + Shift(|xs| as real, Sum(Itself(), xs), a, b)
  {
    if xs != [] {
      var past, x := xs[..|xs| - 1], xs[|xs| - 1];
      assert xs == past + [x];
      MoveDeviation(past, a, b);
      SumSnoc(Itself(), past, x);
      SumSnoc(Deviation(a), past, x);
      SumSnoc(Deviation(b), past, x);
      MoveAlgebra(|past| as real, Sum(Itself(), past), x, a, b);
      assert |xs| as real == |past| as real + 1.0;
    }
  }

  /** One update, as arithmetic: `n` inputs of sum `s`, mean `a` and deviation `d`, then the input `x`. */
  lemma UpdateAlgebra(n: real, s: real, a: real, x: real, b: real, d: real)
    requires n >= 0.0 && n * a == s && b == a + (x - a) / (n + 1.0)
    ensures (n + 1.0) * b == s + x
    ensures d + (x - a) * (x - b) == d + Shift(n, s, a, b) + Sq(x - b)
  {
    var e := b - a;
    assert (n + 1.0) * e == x - a;
    assert (n + 1.0) * b == (n + 1.0) * a + (n + 1.0) * e;
    assert x - b == n * e;
    assert n * Sq(a - b) == e * (n * e) == e * (x - b);
    assert Shift(n, s, a, b) == n * Sq(a - b);
  }

  lemma StepDescribes(w: Moments, xs: seq<real>, x: real)
    requires Describes(w, xs)
    ensures Describes(Updated(w, x), xs + [x])
  {
    var w' := Updated(w, x);
    assert |xs + [x]| as real == |xs| as real + 1.0;
    UpdateAlgebra(|xs| as real, Sum(Itself(), xs), w.mean, x, w'.mean, w.m2);
    MoveDeviation(xs, w.mean, w'.mean);
    SumSnoc(Itself(), xs, x);
    SumSnoc(Deviation(w'.mean), xs, x);
  }

  /** After any inputs the count, mean and m2 are the number of inputs, their mean and the sum of their
      squared deviations from it. */
  lemma {:induction false} WelfordMeaning(xs: seq<real>)
    ensures Describes(MomentsOf(xs), xs)
  {
    if xs != [] {
      var past, x := xs[..|xs| - 1], xs[|xs| - 1];
      assert xs == past + [x];
      WelfordMeaning(past);
      MomentsSnoc(past, x);
      StepDescribes(MomentsOf(past), past, x);
    }
  }

  lemma SkipThenSnoc(xs: seq<real>, y: real, i: nat)
    requires i < |xs|
    ensures (xs + [y])[..i] + (xs + [y])[i + 1..] == xs[..i] + xs[i + 1..] + [y]
  {
    assert (xs + [y])[..i] == xs[..i];
    assert (xs + [y])[i + 1..] == xs[i + 1..] + [y];
  }

  lemma {:induction false} SumWithout(f: real -> real, ys: seq<real>, i: nat)
    requires i < |ys|
    ensures Sum(f, ys) == Sum(f, ys[..i] + ys[i + 1..]) + f(ys[i])
  {
    var init, y := ys[..|ys| - 1], ys[|ys| - 1];
    assert ys == init + [y];
    SumSnoc(f, init, y);
    if i == |init| {
      assert ys[..i] + ys[i + 1..] == init;
    } else {
      SumWithout(f, init, i);
      SkipThenSnoc(init, y, i);
      SumSnoc(f, init[..i] + init[i + 1..], y);
    }
  }

  lemma TakenOut(ys: seq<real>, i: nat)
    requires i < |ys|
    ensures multiset(ys[..i] + ys[i + 1..]) == multiset(ys) - multiset{ys[i]}
  {
    assert ys == ys[..i] + [ys[i]] + ys[i + 1..];
  }

  lemma {:induction false} SumOfPermutation(f: real -> real, xs: seq<real>, ys: seq<real>)
    requires multiset(xs) == multiset(ys)
    ensures |xs| == |ys| && Sum(f, xs) == Sum(f, ys)
  {
    assert |xs| == |multiset(xs)| && |ys| == |multiset(ys)|;
    if xs != [] {
      var past, x := xs[..|xs| - 1], xs[|xs| - 1];
      assert xs == past + [x];
      assert x in multiset(ys);
      var i :| 0 <= i < |ys| && ys[i] == x;
      TakenOut(xs, |past|);
      TakenOut(ys, i);
      assert past + xs[|past| + 1..] == past;
      SumOfPermutation(f, past, ys[..i] + ys[i + 1..]);
      SumWithout(f, ys, i);
      SumSnoc(f, past, x);
    }
  }

  lemma Cancel(n: real, a: real, b: real)
    requires n > 0.0 && n * a == n * b
    ensures a == b
  {
    assert n * (a - b) == 0.0;
  }

  /** The inputs, in any order, determine the state. */
  lemma DescriptionIsUnique(v: Moments, xs: seq<real>, w: Moments, ys: seq<real>)
    requires xs != [] && multiset(xs) == multiset(ys)
    requires Describes(v, xs) && Describes(w, ys)
    ensures v == w
  {
    SumOfPermutation(Itself(), xs, ys);
    Cancel(|xs| as real, v.mean, w.mean);
    SumOfPermutation(Deviation(v.mean), xs, ys);
  }

  /** The result does not depend on the order of the inputs. */
  lemma WelfordIsOrderIndependent(xs: seq<real>, ys: seq<real>)
    requires multiset(xs) == multiset(ys)
    ensures MomentsOf(xs) == MomentsOf(ys)
  {
    assert |xs| == |multiset(xs)| && |ys| == |multiset(ys)|;
    if xs != [] {
      WelfordMeaning(xs);
      WelfordMeaning(ys);
      DescriptionIsUnique(MomentsOf(xs), xs, MomentsOf(ys), ys);
    }
  }

  lemma PositiveProduct(a: real, b: real)
    requires (a > 0.0 && b > 0.0) || (a < 0.0 && b < 0.0)
    ensures Times(a, b) > 0.0
  {
  }

  ghost predicate AllEqual(xs: seq<real>, m: real) {
    forall i | 0 <= i < |xs| :: xs[i] == m
  }

  lemma DeviationSign(m: real, x: real)
    ensures if x == m then Deviation(m)(x) == 0.0 else Deviation(m)(x) > 0.0
  {
    if x != m {
      PositiveProduct(x - m, x - m);
    }
  }

  /** Deviations sum to zero exactly when every input is the reference point, and to more otherwise. */
  lemma {:induction false} NoDeviationIff(xs: seq<real>, m: real)
    ensures if AllEqual(xs, m) then Sum(Deviation(m), xs) == 0.0 else Sum(Deviation(m), xs) > 0.0
  {
    if xs != [] {
      var past, x := xs[..|xs| - 1], xs[|xs| - 1];
      assert xs == past + [x];
      NoDeviationIff(past, m);
      SumSnoc(Deviation(m), past, x);
      DeviationSign(m, x);
      assert AllEqual(xs, m) <==> AllEqual(past, m) && x == m;
    }
  }

  lemma {:induction false} SumOfEqual(xs: seq<real>, x: real)
    requires AllEqual(xs, x)
    ensures Sum(Itself(), xs) == |xs| as real * x
  {
    if xs != [] {
      var past := xs[..|xs| - 1];
      SumOfEqual(past, x);
      assert xs == past + [x];
      SumSnoc(Itself(), past, x);
      assert |xs| as real * x == |past| as real * x + x;
    }
  }

  lemma Quotient(a: real, b: real)
    requires a >= 0.0 && b > 0.0
    ensures if a == 0.0 then a / b == 0.0 else a / b > 0.0
  {
    assert a / b * b == a;
  }

  /** From two inputs on, the variance is zero exactly when all inputs are equal, and positive otherwise. */
  lemma ZeroVarianceIff(w: Moments, xs: seq<real>)
    requires |xs| >= 2 && Describes(w, xs)
    ensures if AllEqual(xs, xs[0]) then Variance(w) == 0.0 else Variance(w) > 0.0
  {
    NoDeviationIff(xs, w.mean);
    if AllEqual(xs, xs[0]) {
      SumOfEqual(xs, xs[0]);
      Cancel(|xs| as real, w.mean, xs[0]);
    }
    Quotient(w.m2, (w.count - 1) as real);
  }

  /** The variance is the sample variance: times one less than the number of inputs, it is the sum of their squared
      deviations from the mean; a single input has none. */
  lemma VarianceMeaning(w: Moments, xs: seq<real>)
    requires Describes(w, xs)
    ensures |xs| >= 2 ==> Variance(w) * (|xs| as real - 1.0) == Sum(Deviation(w.mean), xs)
    ensures |xs| < 2 ==> Variance(w) == 0.0
  {
    if |xs| >= 2 {
      assert (w.count - 1) as real == |xs| as real - 1.0;
      QuotientTimes(w.m2, |xs| as real - 1.0);
    }
  }

  lemma QuotientTimes(a: real, b: real)
    requires b != 0.0
    ensures a / b * b == a
  {
  }

  class Welford {
    var count: nat
    var mean: real
    var m2: real

    function Abs(): Moments
      reads this
    {
      Moments(count, mean, m2)
    }

    constructor ()
      ensures Abs() == MomentsOf([])
    {
      count, mean, m2 := 0, 0.0, 0.0;
    }

    method Update(value: real)
      modifies this
      ensures Abs() == Updated(old(Abs()), value)
    {
      count := count + 1;
      var delta := value - mean;
      mean := mean + delta / count as real;
      var delta2 := value - mean;
      m2 := m2 + delta * delta2;
    }

    function GetVariance(): (v: real)
      reads this
      ensures v == Variance(Abs())
    {
      if count < 2 then 0.0 else m2 / (count - 1) as real
    }
  }

  // ----- Count-Min: the reference -----

  datatype Item = Item(name: string, count: int)

  /** The hash of the sketch: row `i` sends an item to a column. */
  type Hash = (string, nat) -> nat

  /** The count added under items that row `i` sends to column `j`. */
  function Mass(hash: Hash, width: nat, items: seq<Item>, i: nat, j: nat): int
    requires width > 0
  {
    if items == [] then 0
    else
      var last := items[|items| - 1];
      Mass(hash, width, items[..|items| - 1], i, j) + if hash(last.name, i) % width == j then last.count else 0
  }

  function TotalCount(items: seq<Item>): int {
    if items == [] then 0 else TotalCount(items[..|items| - 1]) + items[|items| - 1].count
  }

  function TrueCount(items: seq<Item>, name: string): int {
    if items == [] then 0
    else TrueCount(items[..|items| - 1], name) +
         if items[|items| - 1].name == name then items[|items| - 1].count else 0
  }

  /** The count added under other items that row `i` confuses with `name`. */
  function Colliding(hash: Hash, width: nat, items: seq<Item>, i: nat, name: string): int
    requires width > 0
  {
    if items == [] then 0
    else
      var last := items[|items| - 1];
      Colliding(hash, width, items[..|items| - 1], i, name) +
        if last.name != name && hash(last.name, i) % width == hash(name, i) % width then last.count else 0
  }

  ghost predicate NonNegative(items: seq<Item>) {
    forall k | 0 <= k < |items| :: items[k].count >= 0
  }

  /** No other added item shares the cell of `name` in row `i`. */
  ghost predicate Isolates(hash: Hash, width: nat, items: seq<Item>, i: nat, name: string)
    requires width > 0
  {
    forall k | 0 <= k < |items| :: items[k].name == name || hash(items[k].name, i) % width != hash(name, i) % width
  }

  /** The cell of `name` holds its own count plus that of the items it collides with. */
  lemma {:induction false} CellSplits(hash: Hash, width: nat, items: seq<Item>, i: nat, name: string)
    requires width > 0
    ensures Mass(hash, width, items, i, hash(name, i) % width)
         == TrueCount(items, name) + Colliding(hash, width, items, i, name)
    ensures Isolates(hash, width, items, i, name) ==> Colliding(hash, width, items, i, name) == 0
  {
    if items != [] {
      CellSplits(hash, width, items[..|items| - 1], i, name);
    }
  }

  lemma {:induction false} CountsOrdered(hash: Hash, width: nat, items: seq<Item>, i: nat, name: string)
    requires width > 0 && NonNegative(items)
    ensures 0 <= Colliding(hash, width, items, i, name)
    ensures 0 <= TrueCount(items, name)
    ensures forall j :: 0 <= Mass(hash, width, items, i, j) <= TotalCount(items)
  {
    if items != [] {
      CountsOrdered(hash, width, items[..|items| - 1], i, name);
    }
  }

  function RowSum(hash: Hash, width: nat, items: seq<Item>, i: nat, columns: nat): int
    requires width > 0
  {
    if columns == 0 then 0
    else RowSum(hash, width, items, i, columns - 1) + Mass(hash, width, items, i, columns - 1)
  }

  lemma {:induction false} RowSumSnoc(hash: Hash, width: nat, items: seq<Item>, i: nat, columns: nat)
    requires width > 0 && items != []
    ensures var last := items[|items| - 1];
            RowSum(hash, width, items, i, columns) == RowSum(hash, width, items[..|items| - 1], i, columns)
              + if hash(last.name, i) % width < columns then last.count else 0
  {
    if columns > 0 {
      RowSumSnoc(hash, width, items, i, columns - 1);
    }
  }

  lemma {:induction false} RowSumEmpty(hash: Hash, width: nat, i: nat, columns: nat)
    requires width > 0
    ensures RowSum(hash, width, [], i, columns) == 0
  {
    if columns > 0 {
      RowSumEmpty(hash, width, i, columns - 1);
    }
  }

  /** Every row of the sketch sums to the total count. */
  lemma {:induction false} RowSumsToTotal(hash: Hash, width: nat, items: seq<Item>, i: nat)
    requires width > 0
    ensures RowSum(hash, width, items, i, width) == TotalCount(items)
  {
    if items == [] {
      RowSumEmpty(hash, width, i, width);
    } else {
      RowSumsToTotal(hash, width, items[..|items| - 1], i);
      RowSumSnoc(hash, width, items, i, width);
    }
  }

  /** The smallest of the item's cells over the first `depth` rows; none for a sketch without rows. */
  function Estimate(hash: Hash, width: nat, items: seq<Item>, depth: nat, name: string): Option<int>
    requires width > 0
  {
    if depth == 0 then None
    else
      var cell := Mass(hash, width, items, depth - 1, hash(name, depth - 1) % width);
      match Estimate(hash, width, items, depth - 1, name)
      case None => Some(cell)
      case Some(m) => Some(if cell < m then cell else m)
  }

  /** For non-negative adds the estimate is between the true count and the total, at most the true count plus
      the colliding count of any one row, and exact if some row isolates the item. */
  lemma {:induction false} EstimateBounds(hash: Hash, width: nat, items: seq<Item>, depth: nat, name: string)
    requires width > 0 && NonNegative(items) && depth > 0
    ensures var e := Estimate(hash, width, items, depth, name);
            && e.Some?
            && TrueCount(items, name) <= e.value <= TotalCount(items)
            && (forall i: nat | i < depth ::
                  e.value <= TrueCount(items, name) + Colliding(hash, width, items, i, name))
            && ((exists i: nat :: i < depth && Isolates(hash, width, items, i, name)) ==>
                  e.value == TrueCount(items, name))
  {
    CellSplits(hash, width, items, depth - 1, name);
    CountsOrdered(hash, width, items, depth - 1, name);
    if depth > 1 {
      EstimateBounds(hash, width, items, depth - 1, name);
    }
  }

  /** `row` is row `i` of the sketch after the adds `items`. */
  ghost predicate IsRow(hash: Hash, width: nat, row: seq<int>, i: nat, items: seq<Item>) {
    width > 0 && |row| == width && forall j: nat | j < width :: row[j] == Mass(hash, width, items, i, j)
  }

  lemma RowSnoc(hash: Hash, width: nat, row: seq<int>, i: nat, items: seq<Item>, item: Item)
    requires IsRow(hash, width, row, i, items)
    ensures var index := hash(item.name, i) % width;
            IsRow(hash, width, row[index := row[index] + item.count], i, items + [item])
  {
    assert (items + [item])[..|items|] == items;
  }

  class CountMinSketch {
    const width: nat
    const depth: nat
    const hash: Hash
    var table: seq<seq<int>>
    var totalCount: int
    ghost var items: seq<Item>

    /** Each cell holds the count of the items its row sends to its column. */
    ghost predicate Valid()
      reads this
    {
      && width > 0 && |table| == depth
      && totalCount == TotalCount(items)
      && forall i: nat | i < depth :: IsRow(hash, width, table[i], i, items)
    }

    constructor (width: nat, depth: nat, hash: Hash)
      requires width > 0
      ensures Valid() && items == []
      ensures this.width == width && this.depth == depth && this.hash == hash
    {
      this.width, this.depth, this.hash, totalCount, items := width, depth, hash, 0, [];
      table := seq(depth, _ => seq(width, _ => 0));
    }

    method Add(name: string, count: int)
      requires Valid()
      modifies this
      ensures Valid() && items == old(items) + [Item(name, count)]
    {
      table := AddToRows(table, name, count, items);
      totalCount := totalCount + count;
      items := items + [Item(name, count)];
      assert items[..|items| - 1] == old(items);
    }

    method AddToRows(rows: seq<seq<int>>, name: string, count: int, ghost before: seq<Item>)
        returns (rows': seq<seq<int>>)
      requires width > 0 && |rows| == depth
      requires forall i: nat | i < depth :: IsRow(hash, width, rows[i], i, before)
      ensures |rows'| == depth
      ensures forall i: nat | i < depth :: IsRow(hash, width, rows'[i], i, before + [Item(name, count)])
    {
      rows' := rows;
      ghost var after := before + [Item(name, count)];
      for i := 0 to depth
        invariant |rows'| == depth
        invariant forall k: nat | k < i :: IsRow(hash, width, rows'[k], k, after)
        invariant forall k: nat | i <= k < depth :: IsRow(hash, width, rows'[k], k, before)
      {
        var row, index := rows'[i], hash(name, i) % width;
        assert IsRow(hash, width, row, i, before);
        RowSnoc(hash, width, row, i, before, Item(name, count));
        rows' := rows'[i := row[index := row[index] + count]];
      }
    }

    method Get(name: string) returns (minCount: Option<int>)
      requires Valid()
      ensures minCount == Estimate(hash, width, items, depth, name)
    {
      minCount := None;
      for i := 0 to depth
        invariant minCount == Estimate(hash, width, items, i, name)
      {
        assert IsRow(hash, width, table[i], i, items);
        var cell := table[i][hash(name, i) % width];
        minCount := match minCount case None => Some(cell) case Some(m) => Some(if cell < m then cell else m);
      }
    }
  }
}
