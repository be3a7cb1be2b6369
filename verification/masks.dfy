/** Boolean masks and numpy boolean indexing (`a[mask]`): the row filter that
    splits a dataset into its treated and control parts. */
module Masks {
  import opened Stats

  /** The mask `z == v`, elementwise. */
  function Mask<T(==)>(z: seq<T>, v: T): (m: seq<bool>)
    ensures |m| == |z|
  {
    seq(|z|, i requires 0 <= i < |z| => z[i] == v)
  }

  /** Number of `true` entries (`np.sum(mask)`). */
  function Count(m: seq<bool>): nat
    decreases |m|
  {
    if |m| == 0 then 0 else Count(m[..|m| - 1]) + (if m[|m| - 1] then 1 else 0)
  }

  /** Boolean indexing `s[m]`: the entries whose mask bit is set, in order. */
  function Select<T>(s: seq<T>, m: seq<bool>): (r: seq<T>)
    requires |s| == |m|
    ensures |r| == Count(m)
    decreases |s|
  {
    if |s| == 0 then []
    else
      var k := |s| - 1;
      Select(s[..k], m[..k]) + (if m[k] then [s[k]] else [])
  }

  /** Positions of the `true` entries (`np.nonzero(mask)`), in increasing order. */
  function Indices(m: seq<bool>): seq<nat>
    decreases |m|
  {
    if |m| == 0 then []
    else
      var k := |m| - 1;
      Indices(m[..k]) + (if m[k] then [k] else [])
  }

  /** No value appears twice in `s`. */
  predicate Distinct<T(==)>(s: seq<T>) {
    forall a, b :: 0 <= a < b < |s| ==> s[a] != s[b]
  }

  /** `idx` lists positions below `n` in strictly increasing order. */
  predicate StrictlyIncreasingBelow(idx: seq<nat>, n: nat) {
    (forall k :: 0 <= k < |idx| ==> idx[k] < n)
    && (forall a, b :: 0 <= a < b < |idx| ==> idx[a] < idx[b])
  }

  /** `sub` is the subsequence of `full` at the positions where `m` is set,
      in their original order. */
  ghost predicate PicksRows<T>(sub: seq<T>, full: seq<T>, m: seq<bool>)
    requires |full| == |m|
  {
    var idx := Indices(m);
    IndicesExact(m);
    |sub| == |idx| && forall k :: 0 <= k < |sub| ==> sub[k] == full[idx[k]]
  }

  /** `Indices(m)` is increasing, in range, and holds exactly the set
      positions of `m`; there are `Count(m)` of them. */
  lemma {:induction false} IndicesExact(m: seq<bool>)
    ensures |Indices(m)| == Count(m)
    ensures StrictlyIncreasingBelow(Indices(m), |m|)
    ensures forall i :: 0 <= i < |m| ==> (i in Indices(m) <==> m[i])
    decreases |m|
  {
    if |m| > 0 {
      var k := |m| - 1;
      IndicesExact(m[..k]);
      forall i | 0 <= i < k
        ensures m[..k][i] == m[i]
      {
      }
    }
  }

  /** Boolean indexing picks exactly the rows at `Indices(m)`, in order. */
  lemma {:induction false} SelectPicksRows<T>(s: seq<T>, m: seq<bool>)
    requires |s| == |m|
    ensures |Select(s, m)| == Count(m)
    ensures PicksRows(Select(s, m), s, m)
    decreases |s|
  {
    IndicesExact(m);
    if |s| > 0 {
      var k := |s| - 1;
      SelectPicksRows(s[..k], m[..k]);
      IndicesExact(m[..k]);
      var idx := Indices(m[..k]);
      var sel := Select(s[..k], m[..k]);
      forall j | 0 <= j < |sel|
        ensures Select(s, m)[j] == s[Indices(m)[j]]
      {
        assert Select(s, m)[j] == sel[j];
        assert Indices(m)[j] == idx[j];
        assert idx[j] < k;
      }
    }
  }

  /** A mask that is everywhere set keeps every entry. */
  lemma {:induction false} SelectAll<T>(s: seq<T>, m: seq<bool>)
    requires |s| == |m|
    requires forall i :: 0 <= i < |m| ==> m[i]
    ensures Select(s, m) == s
    ensures Count(m) == |m|
    decreases |s|
  {
    if |s| > 0 {
      var k := |s| - 1;
      SelectAll(s[..k], m[..k]);
      assert s[..k] + [s[k]] == s;
    }
  }

  lemma MaskPrefix<T>(z: seq<T>, v: T, k: nat)
    requires k <= |z|
    ensures Mask(z, v)[..k] == Mask(z[..k], v)
  {
  }

  /** Positions where `z` takes two different values are counted separately:
      the two masks together never count more than `|z|` entries, and exactly
      `|z|` when `z` takes no other value. */
  lemma {:induction false} CountTwoValues<T>(z: seq<T>, a: T, b: T)
    requires a != b
    ensures Count(Mask(z, a)) + Count(Mask(z, b)) <= |z|
    ensures (forall i :: 0 <= i < |z| ==> z[i] == a || z[i] == b)
            ==> Count(Mask(z, a)) + Count(Mask(z, b)) == |z|
    decreases |z|
  {
    if |z| > 0 {
      var k := |z| - 1;
      MaskPrefix(z, a, k);
      MaskPrefix(z, b, k);
      CountTwoValues(z[..k], a, b);
    }
  }

  /** Summing the selected entries is summing the vector with the unselected
      entries zeroed. */
  lemma {:induction false} SumSelect(y: seq<real>, m: seq<bool>, w: seq<real>)
    requires |y| == |m| == |w|
    requires forall i :: 0 <= i < |w| ==> (m[i] ==> w[i] == y[i]) && (!m[i] ==> w[i] == 0.0)
    ensures Sum(Select(y, m)) == Sum(w)
    decreases |y|
  {
    if |y| > 0 {
      var k := |y| - 1;
      SumSelect(y[..k], m[..k], w[..k]);
      var last: seq<real> := if m[k] then [y[k]] else [];
      SumAppend(Select(y[..k], m[..k]), last);
      assert Sum(last) == w[k] by {
        if m[k] {
          assert last[..0] == [];
        }
      }
    }
  }

  /** A vector holding `a` where the mask is set and 0 elsewhere sums to
      `a` times the number of set bits. */
  lemma {:induction false} SumOfIndicator(m: seq<bool>, ind: seq<real>, a: real)
    requires |ind| == |m|
    requires forall i :: 0 <= i < |m| ==> (m[i] ==> ind[i] == a) && (!m[i] ==> ind[i] == 0.0)
    ensures Sum(ind) == a * (Count(m) as real)
    decreases |m|
  {
    if |m| > 0 {
      var k := |m| - 1;
      SumOfIndicator(m[..k], ind[..k], a);
      var c := Count(m[..k]) as real;
      assert Sum(ind) == a * c + ind[k];
      assert Count(m) as real == c + (if m[k] then 1.0 else 0.0);
      assert a * (c + 1.0) == a * c + a;
    }
  }

  /** A value that never occurs is counted zero times. */
  lemma {:induction false} ZeroCountWhenAbsent<T>(q: seq<T>, v: T)
    requires forall i :: 0 <= i < |q| ==> q[i] != v
    ensures Count(Mask(q, v)) == 0
    decreases |q|
  {
    if |q| > 0 {
      var k := |q| - 1;
      MaskPrefix(q, v, k);
      ZeroCountWhenAbsent(q[..k], v);
    }
  }

  /** Filtering a constant vector leaves a constant vector. */
  lemma {:induction false} SelectOfConstant(s: seq<real>, m: seq<bool>, c: real)
    requires |s| == |m| && AllEqualTo(s, c)
    ensures AllEqualTo(Select(s, m), c)
    decreases |s|
  {
    if |s| > 0 {
      var k := |s| - 1;
      assert AllEqualTo(s[..k], c);
      SelectOfConstant(s[..k], m[..k], c);
    }
  }
}
