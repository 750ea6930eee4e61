/**
  `orderExprs` of lib/stmt.js: `stmt.sort((a, b) => a.w < b.w ? 1 : -1)`, a
  sort into non-increasing weight, so that `test`, which scans from the end,
  runs the lightest expression first. The engine's sort algorithm is not
  specified; the model sorts by insertion, which keeps the order of equal
  weights.
*/
module StmtOrder {
  import opened StmtTree

  /** Inserts `x` at the back of `ys` and moves it forward past every element
      the comparator puts after it (those lighter than `x`). */
  function InsertBack<T>(ys: seq<T>, x: T, w: T -> Weight): (r: seq<T>)
    ensures |r| == |ys| + 1
  {
    if |ys| == 0 then [x]
    else if Below(w(ys[|ys| - 1]), w(x)) then InsertBack(ys[..|ys| - 1], x, w) + [ys[|ys| - 1]]
    else ys + [x]
  }

  /** What `orderExprs` leaves in the array. */
  function Ordered<T>(xs: seq<T>, w: T -> Weight): (r: seq<T>)
    ensures |r| == |xs|
  {
    if |xs| == 0 then [] else InsertBack(Ordered(xs[..|xs| - 1], w), xs[|xs| - 1], w)
  }

  /** `orderExprs(stmt)`: the array sorted in place. */
  method OrderExprs<T>(a: array<T>, w: T -> Weight)
    modifies a
    ensures a[..] == Ordered(old(a[..]), w)
  {
    ghost var xs := a[..];
    var i := 0;
    while i < a.Length
      invariant 0 <= i <= a.Length
      invariant a[..i] == Ordered(xs[..i], w)
      invariant a[i..] == xs[i..]
    {
      assert a[i] == xs[i] by { assert a[i..][0] == a[i]; }
      Insert(a, i, w);
      assert xs[..i + 1][..i] == xs[..i];
      assert a[i + 1..] == xs[i + 1..];
      i := i + 1;
    }
    assert xs[..a.Length] == xs;
  }

  /** One pass of the sort: `a[i]` moves forward into the sorted prefix
      `a[..i]`. */
  method Insert<T>(a: array<T>, i: nat, w: T -> Weight)
    requires i < a.Length
    modifies a
    ensures a[..i + 1] == InsertBack(old(a[..i]), old(a[i]), w)
    ensures a[i + 1..] == old(a[i + 1..])
  {
    ghost var ys := a[..i];
    var x := a[i];
    var j := i;
    assert ys[..i] == ys && ys[i..] == [];
    assert InsertBack(ys, x, w) + [] == InsertBack(ys, x, w);
    while j > 0 && Below(w(a[j - 1]), w(x))
      invariant 0 <= j <= i
      invariant forall k :: 0 <= k < j ==> a[k] == ys[k]
      invariant forall k :: j < k <= i ==> a[k] == ys[k - 1]
      invariant forall k :: i < k < a.Length ==> a[k] == old(a[k])
      invariant InsertBack(ys, x, w) == InsertBack(ys[..j], x, w) + ys[j..]
    {
      ShiftStep(ys, x, w, j);
      a[j] := a[j - 1];
      j := j - 1;
    }
    InsertStop(ys, x, w, j);
    a[j] := x;
    assert a[..i + 1] == ys[..j] + [x] + ys[j..];
  }

  /** One step of the shifting loop. */
  lemma ShiftStep<T>(ys: seq<T>, x: T, w: T -> Weight, j: nat)
    requires 0 < j <= |ys| && Below(w(ys[j - 1]), w(x))
    ensures InsertBack(ys[..j], x, w) + ys[j..] == InsertBack(ys[..j - 1], x, w) + ys[j - 1..]
  {
    assert ys[..j][..j - 1] == ys[..j - 1];
    assert ys[j - 1..] == [ys[j - 1]] + ys[j..];
  }

  /** Where the shifting loop stops, `x` goes. */
  lemma InsertStop<T>(ys: seq<T>, x: T, w: T -> Weight, j: nat)
    requires j <= |ys| && (j == 0 || !Below(w(ys[j - 1]), w(x)))
    ensures InsertBack(ys[..j], x, w) == ys[..j] + [x]
  {
  }

  // ---------------------------------------------------------------------------
  // What the order promises

  /** Sorting only reorders: the result is a permutation of the input. */
  lemma {:induction false} OrderedPermutes<T>(xs: seq<T>, w: T -> Weight)
    ensures multiset(Ordered(xs, w)) == multiset(xs)
  {
    if |xs| > 0 {
      OrderedPermutes(xs[..|xs| - 1], w);
      InsertBackPermutes(Ordered(xs[..|xs| - 1], w), xs[|xs| - 1], w);
      assert xs == xs[..|xs| - 1] + [xs[|xs| - 1]];
    }
  }

  lemma {:induction false} InsertBackPermutes<T>(ys: seq<T>, x: T, w: T -> Weight)
    ensures multiset(InsertBack(ys, x, w)) == multiset(ys) + multiset{x}
  {
    if |ys| > 0 && Below(w(ys[|ys| - 1]), w(x)) {
      InsertBackPermutes(ys[..|ys| - 1], x, w);
      assert ys == ys[..|ys| - 1] + [ys[|ys| - 1]];
    }
  }

  /** Every weight is a number (no NaN). */
  predicate Numeric<T>(xs: seq<T>, w: T -> Weight) {
    forall i :: 0 <= i < |xs| ==> w(xs[i]).W?
  }

  /** No element is lighter than one after it. */
  predicate NonIncreasing<T>(xs: seq<T>, w: T -> Weight) {
    forall i, j :: 0 <= i < j < |xs| ==> !Below(w(xs[i]), w(xs[j]))
  }

  /** With numeric weights, the sorted array has non-increasing weights, so
      its last element (the one `test` runs first) is the lightest. */
  lemma {:induction false} OrderedSorted<T>(xs: seq<T>, w: T -> Weight)
    requires Numeric(xs, w)
    ensures NonIncreasing(Ordered(xs, w), w)
    ensures forall i :: 0 <= i < |xs| ==> !Below(w(Ordered(xs, w)[i]), w(Ordered(xs, w)[|xs| - 1]))
  {
    OrderedPermutes(xs, w);
    if |xs| > 0 {
      var init := xs[..|xs| - 1];
      assert forall i :: 0 <= i < |init| ==> init[i] == xs[i];
      OrderedSorted(init, w);
      OrderedPermutes(init, w);
      var ys := Ordered(init, w);
      forall i | 0 <= i < |ys| ensures w(ys[i]).W? {
        assert ys[i] in multiset(init);
      }
      InsertBackSorted(ys, xs[|xs| - 1], w);
    }
  }

  lemma {:induction false} InsertBackSorted<T>(ys: seq<T>, x: T, w: T -> Weight)
    requires Numeric(ys, w) && w(x).W? && NonIncreasing(ys, w)
    ensures NonIncreasing(InsertBack(ys, x, w), w)
  {
    if |ys| > 0 {
      var init := ys[..|ys| - 1];
      var last := ys[|ys| - 1];
      if Below(w(last), w(x)) {
        InsertBackSorted(init, x, w);
        InsertBackPermutes(init, x, w);
        var zs := InsertBack(init, x, w);
        forall i | 0 <= i < |zs| ensures !Below(w(zs[i]), w(last)) {
          assert zs[i] in multiset(init) + multiset{x};
          if zs[i] != x {
            assert zs[i] in init;
            var k :| 0 <= k < |init| && init[k] == zs[i];
            assert ys[k] == zs[i];
          }
        }
      }
    }
  }

  /** Sums are insensitive to the order of their terms. */
  lemma {:induction false} OrderedSum<T>(xs: seq<T>, w: T -> Weight)
    ensures SumW(Ordered(xs, w), w) == SumW(xs, w)
  {
    if |xs| > 0 {
      var init := xs[..|xs| - 1];
      OrderedSum(init, w);
      InsertBackSum(Ordered(init, w), xs[|xs| - 1], w);
      SumAppend(init, [xs[|xs| - 1]], w);
      assert xs == init + [xs[|xs| - 1]];
    }
  }

  lemma {:induction false} InsertBackSum<T>(ys: seq<T>, x: T, w: T -> Weight)
    ensures SumW(InsertBack(ys, x, w), w) == Plus(SumW(ys, w), w(x))
  {
    if |ys| == 0 {
    } else if Below(w(ys[|ys| - 1]), w(x)) {
      var init := ys[..|ys| - 1];
      InsertBackSum(init, x, w);
      SumAppend(InsertBack(init, x, w), [ys[|ys| - 1]], w);
      SumAppend(init, [ys[|ys| - 1]], w);
      assert ys == init + [ys[|ys| - 1]];
    } else {
      SumAppend(ys, [x], w);
    }
  }

  lemma {:induction false} SumAppend<T>(xs: seq<T>, ys: seq<T>, w: T -> Weight)
    ensures SumW(xs + ys, w) == Plus(SumW(xs, w), SumW(ys, w))
  {
    if |xs| == 0 {
      assert xs + ys == ys;
    } else {
      SumAppend(xs[1..], ys, w);
      assert (xs + ys)[1..] == xs[1..] + ys;
    }
  }
}
