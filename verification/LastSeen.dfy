/** Tables that remember when each key was last seen and are swept of stale ones from time to time.

  The flow map of the ingestor, the destinations of the DDoS extractor and the pairs of the beaconing extractor
  are all of this kind.  `SeenIff` says what such a table holds in terms of the whole history.
 */
module LastSeen {
  import opened Wrappers

  /** What a sweep keeps: the keys last seen at or after a bound, or strictly after it. */
  datatype Sweep = KeepFrom(bound: real) | KeepAfter(bound: real)

  predicate Keeps(w: Sweep, at: real) {
    match w
    case KeepFrom(bound) => at >= bound
    case KeepAfter(bound) => at > bound
  }

  /** One step: its time, the key it touches, if any, and the sweep that follows, if any. */
  datatype Step<K> = Step(key: Option<K>, at: real, sweep: Option<Sweep>)

  function Touched<K>(m: map<K, real>, step: Step<K>): map<K, real> {
    match step.key case None => m case Some(k) => m[k := step.at]
  }

  function Swept<K>(m: map<K, real>, sweep: Option<Sweep>): map<K, real> {
    match sweep case None => m case Some(w) => map k | k in m && Keeps(w, m[k]) :: m[k]
  }

  function Seen<K>(steps: seq<Step<K>>): map<K, real> {
    if steps == [] then map[]
    else
      var last := steps[|steps| - 1];
      Swept(Touched(Seen(steps[..|steps| - 1]), last), last.sweep)
  }

  // ----- What the table holds -----

  ghost predicate NeverTouched<K>(steps: seq<Step<K>>, k: K) {
    forall j | 0 <= j < |steps| :: steps[j].key != Some(k)
  }

  ghost predicate IsLastTouch<K>(steps: seq<Step<K>>, k: K, i: nat) {
    i < |steps| && steps[i].key == Some(k) && forall j | i < j < |steps| :: steps[j].key != Some(k)
  }

  /** Every sweep since step `i` keeps what was last seen then. */
  ghost predicate Survives<K>(steps: seq<Step<K>>, i: nat)
    requires i < |steps|
  {
    forall e | i <= e < |steps| && steps[e].sweep.Some? :: Keeps(steps[e].sweep.value, steps[i].at)
  }

  lemma {:induction false} SeenNever<K>(steps: seq<Step<K>>, k: K)
    requires NeverTouched(steps, k)
    ensures k !in Seen(steps)
  {
    if steps != [] {
      SeenNever(steps[..|steps| - 1], k);
    }
  }

  lemma {:induction false} SeenLast<K>(steps: seq<Step<K>>, k: K, i: nat)
    requires IsLastTouch(steps, k, i)
    ensures k in Seen(steps) <==> Survives(steps, i)
    ensures k in Seen(steps) ==> Seen(steps)[k] == steps[i].at
  {
    var init, n := steps[..|steps| - 1], |steps| - 1;
    if i < n {
      SeenLast(init, k, i);
      assert Survives(steps, i)
        <==> Survives(init, i) && (steps[n].sweep.Some? ==> Keeps(steps[n].sweep.value, steps[i].at));
    }
  }

  lemma {:induction false} LastTouch<K>(steps: seq<Step<K>>, k: K) returns (i: nat)
    requires !NeverTouched(steps, k)
    ensures IsLastTouch(steps, k, i)
  {
    var n := |steps| - 1;
    if steps[n].key == Some(k) {
      i := n;
    } else {
      i := LastTouch(steps[..n], k);
    }
  }

  /** On every history a key is in the table exactly if it was touched and every sweep since its last touch
      keeps the time of that touch; and that time is what the table holds for it. */
  lemma SeenIff<K>(steps: seq<Step<K>>, k: K)
    ensures k in Seen(steps) <==> exists i: nat :: IsLastTouch(steps, k, i) && Survives(steps, i)
    ensures k in Seen(steps) ==> exists i: nat :: IsLastTouch(steps, k, i) && Seen(steps)[k] == steps[i].at
  {
    if NeverTouched(steps, k) {
      SeenNever(steps, k);
    } else {
      var i := LastTouch(steps, k);
      SeenLast(steps, k, i);
    }
  }
}
