/** Row-major index arithmetic of an N-dimensional grid: the extents' product,
    the positional weight of each axis, the offset `translate_index` accumulates,
    and the result `translate_index` returns. */
module GridIndex {

  /** The two ways translating a multi-index can fail. */
  datatype IndexError =
    | DimensionMismatch(got: nat, expected: nat)
    | OutOfBounds(index: nat, size: nat)

  /** Success or an index error; `:-` propagates the error as `?` does. */
  datatype Result<V> = Ok(value: V) | Err(error: IndexError) {
    predicate IsFailure() {
      Err?
    }

    function PropagateFailure<U>(): Result<U>
      requires Err?
    {
      Err(error)
    }

    function Extract(): V
      requires Ok?
    {
      value
    }
  }

  /** Product of a list of extents; the empty list has product 1. */
  function Product(s: seq<nat>): (p: nat)
  {
    if |s| == 0 then 1 else s[0] * Product(s[1..])
  }

  /** Positional weight of axis `i`: the product of the extents of all later axes. */
  function Weight(dims: seq<nat>, i: nat): (w: nat)
    requires i < |dims|
    ensures i == |dims| - 1 ==> w == 1
  {
    Product(dims[i + 1..])
  }

  /** Sum of `target[j] * Weight(dims, j)` over the first `k` axes: the value of
      the accumulator after `k` rounds of the translation loop. */
  function PartialOffset(target: seq<nat>, dims: seq<nat>, k: nat): (acc: nat)
    requires |target| == |dims| && k <= |target|
  {
    if k == 0 then 0
    else PartialOffset(target, dims, k - 1) + target[k - 1] * Weight(dims, k - 1)
  }

  /** The row-major offset `Σ target[i] * Weight(dims, i)` over all axes. */
  function Offset(target: seq<nat>, dims: seq<nat>): (offset: nat)
    requires |target| == |dims|
  {
    PartialOffset(target, dims, |target|)
  }

  /** Reference definition of C-order layout, independent of weights: the
      last coordinate varies fastest, and dropping it leaves the offset of the
      enclosing row, scaled by the last extent. */
  function RowMajor(target: seq<nat>, dims: seq<nat>): (offset: nat)
    requires |target| == |dims|
  {
    if |target| == 0 then 0
    else RowMajor(target[..|target| - 1], dims[..|dims| - 1]) * dims[|dims| - 1]
         + target[|target| - 1]
  }

  /** Every coordinate lies below its own axis' extent. */
  predicate InRange(target: seq<nat>, dims: seq<nat>)
  {
    |target| == |dims| && forall i :: 0 <= i < |target| ==> target[i] < dims[i]
  }

  /** What `translate_index` returns for a grid with `axes` axes, extents `dims`
      and a buffer of `size` cells: the length is checked first, then the
      offset is checked against the buffer length as a whole. */
  function Locate(target: seq<nat>, axes: nat, dims: seq<nat>, size: nat): (r: Result<nat>)
    requires axes == |dims|
    ensures r.Ok? ==> r.value < size
  {
    if |target| != axes then Err(DimensionMismatch(|target|, axes))
    else if Offset(target, dims) >= size then Err(OutOfBounds(Offset(target, dims), size))
    else Ok(Offset(target, dims))
  }

  /** A product is zero exactly when one of its extents is zero. */
  lemma {:induction false} ProductZero(s: seq<nat>)
    ensures Product(s) == 0 <==> exists i :: 0 <= i < |s| && s[i] == 0
  {
    if |s| > 0 {
      ProductZero(s[1..]);
      if Product(s[1..]) == 0 {
        var i :| 0 <= i < |s[1..]| && s[1..][i] == 0;
        assert s[i + 1] == 0;
      }
      if exists i :: 0 <= i < |s| && s[i] == 0 {
        var i :| 0 <= i < |s| && s[i] == 0;
        if i > 0 {
          assert s[1..][i - 1] == 0;
        }
      }
    }
  }

  /** Appending an extent multiplies the product by it. */
  lemma {:induction false} ProductAppend(s: seq<nat>, e: nat)
    ensures Product(s + [e]) == Product(s) * e
  {
    if |s| > 0 {
      assert (s + [e])[1..] == s[1..] + [e];
      ProductAppend(s[1..], e);
    } else {
      assert s + [e] == [e];
    }
  }

  /** Dropping the last axis divides every other axis' weight by the last extent. */
  lemma WeightSplit(dims: seq<nat>, i: nat)
    requires i + 1 < |dims|
    ensures Weight(dims, i) == Weight(dims[..|dims| - 1], i) * dims[|dims| - 1]
  {
    assert dims[i + 1..] == dims[..|dims| - 1][i + 1..] + [dims[|dims| - 1]];
    ProductAppend(dims[..|dims| - 1][i + 1..], dims[|dims| - 1]);
  }

  lemma {:induction false} PartialScale(target: seq<nat>, dims: seq<nat>, k: nat)
    requires |target| == |dims| > 0 && k < |dims|
    ensures PartialOffset(target, dims, k)
         == PartialOffset(target[..|target| - 1], dims[..|dims| - 1], k) * dims[|dims| - 1]
  {
    if k > 0 {
      var t', d', e := target[..|target| - 1], dims[..|dims| - 1], dims[|dims| - 1];
      PartialScale(target, dims, k - 1);
      WeightSplit(dims, k - 1);
      assert target[k - 1] == t'[k - 1];
      ScaleStep(PartialOffset(target, dims, k), PartialOffset(target, dims, k - 1),
                Weight(dims, k - 1), PartialOffset(t', d', k), PartialOffset(t', d', k - 1),
                target[k - 1], Weight(d', k - 1), e);
    }
  }

  /** The arithmetic of one round of PartialScale, kept apart from the sequences. */
  lemma ScaleStep(p: nat, pPrev: nat, w: nat, q: nat, qPrev: nat, b: nat, c: nat, e: nat)
    requires p == pPrev + b * w && pPrev == qPrev * e && w == c * e && q == qPrev + b * c
    ensures p == q * e
  {
  }

  /** The weighted sum computed by `translate_index` is the C-order offset. */
  lemma {:induction false} OffsetIsRowMajor(target: seq<nat>, dims: seq<nat>)
    requires |target| == |dims|
    ensures Offset(target, dims) == RowMajor(target, dims)
  {
    var n := |target|;
    if n > 0 {
      var t', d' := target[..n - 1], dims[..n - 1];
      PartialScale(target, dims, n - 1);
      OffsetIsRowMajor(t', d');
    }
  }

  lemma {:induction false} RowMajorBound(target: seq<nat>, dims: seq<nat>)
    requires InRange(target, dims)
    ensures RowMajor(target, dims) < Product(dims)
  {
    var n := |target|;
    if n > 0 {
      var t', d', e := target[..n - 1], dims[..n - 1], dims[n - 1];
      InRangePrefix(target, dims);
      RowMajorBound(t', d');
      assert d' + [e] == dims;
      ProductAppend(d', e);
      BoundStep(RowMajor(t', d'), Product(d'), target[n - 1], e);
    }
  }

  /** The arithmetic of one round of RowMajorBound: a row below the row count
      and a column below the width give a cell below the cell count. */
  lemma BoundStep(row: nat, rows: nat, col: nat, width: nat)
    requires row < rows && col < width
    ensures row * width + col < rows * width
  {
    assert (row + 1) * width <= rows * width;
  }

  /** A multi-index whose every coordinate is below its extent has an offset
      inside the buffer. */
  lemma OffsetBound(target: seq<nat>, dims: seq<nat>)
    requires InRange(target, dims)
    ensures Offset(target, dims) < Product(dims)
  {
    OffsetIsRowMajor(target, dims);
    RowMajorBound(target, dims);
  }

  /** Incrementing the last coordinate moves the offset by exactly one cell. */
  lemma LastAxisStep(target: seq<nat>, dims: seq<nat>)
    requires |target| == |dims| > 0
    ensures Offset(target[|target| - 1 := target[|target| - 1] + 1], dims) == Offset(target, dims) + 1
  {
    var n := |target|;
    var next := target[n - 1 := target[n - 1] + 1];
    assert next[..n - 1] == target[..n - 1];
    OffsetIsRowMajor(target, dims);
    OffsetIsRowMajor(next, dims);
  }

  /** On a buffer of `Product(dims)` cells, a multi-index with the right length
      and every coordinate in range is accepted at its row-major offset. */
  lemma LocateInRange(target: seq<nat>, dims: seq<nat>)
    requires InRange(target, dims)
    ensures Locate(target, |dims|, dims, Product(dims)) == Ok(RowMajor(target, dims))
  {
    OffsetIsRowMajor(target, dims);
    RowMajorBound(target, dims);
  }

  /** Dropping the last axis of an in-range multi-index and of its extents
      leaves an in-range multi-index. */
  lemma InRangePrefix(target: seq<nat>, dims: seq<nat>)
    requires InRange(target, dims) && |target| > 0
    ensures InRange(target[..|target| - 1], dims[..|dims| - 1])
  {
    var t', d' := target[..|target| - 1], dims[..|dims| - 1];
    forall i | 0 <= i < |t'| ensures t'[i] < d'[i] {
      assert t'[i] == target[i] && d'[i] == dims[i];
    }
  }

  /** `a` comes before `b` in lexicographic order: they agree on some first
      `k` coordinates, and `a` is smaller on the next one. */
  predicate LexLess(a: seq<nat>, b: seq<nat>)
  {
    |a| == |b| && exists k :: 0 <= k < |a| && a[..k] == b[..k] && a[k] < b[k]
  }

  /** C-order layout is monotone: a multi-index that comes first in
      lexicographic order has the smaller offset. */
  lemma {:induction false} RowMajorMono(a: seq<nat>, b: seq<nat>, dims: seq<nat>)
    requires InRange(a, dims) && InRange(b, dims) && LexLess(a, b)
    ensures RowMajor(a, dims) < RowMajor(b, dims)
  {
    var n := |a|;
    var k :| 0 <= k < n && a[..k] == b[..k] && a[k] < b[k];
    var a', b', d', e := a[..n - 1], b[..n - 1], dims[..n - 1], dims[n - 1];
    if k == n - 1 {
      assert a' == b';
    } else {
      assert a'[..k] == a[..k] && b'[..k] == b[..k];
      assert a'[k] == a[k] && b'[k] == b[k];
      assert LexLess(a', b');
      InRangePrefix(a, dims);
      InRangePrefix(b, dims);
      RowMajorMono(a', b', d');
      MonoStep(RowMajor(a', d'), RowMajor(b', d'), a[n - 1], b[n - 1], e);
    }
  }

  /** The arithmetic of one round of RowMajorMono: an earlier row wins over
      any column. */
  lemma MonoStep(row: nat, row': nat, col: nat, col': nat, width: nat)
    requires row < row' && col < width
    ensures row * width + col < row' * width + col'
  {
    assert (row + 1) * width <= row' * width;
  }

  /** Two different multi-indices of the same length first differ at some axis. */
  lemma {:induction false} FirstDifference(a: seq<nat>, b: seq<nat>) returns (k: nat)
    requires |a| == |b| && a != b
    ensures k < |a| && a[..k] == b[..k] && a[k] != b[k]
  {
    if a[0] != b[0] {
      k := 0;
    } else {
      assert a == [a[0]] + a[1..] && b == [b[0]] + b[1..];
      var k' := FirstDifference(a[1..], b[1..]);
      k := k' + 1;
      assert a[..k] == [a[0]] + a[1..][..k'];
      assert b[..k] == [b[0]] + b[1..][..k'];
    }
  }

  /** Distinct in-range multi-indices are translated to distinct offsets, so
      no two of them share a cell. */
  lemma OffsetInjective(a: seq<nat>, b: seq<nat>, dims: seq<nat>)
    requires InRange(a, dims) && InRange(b, dims) && a != b
    ensures Offset(a, dims) != Offset(b, dims)
  {
    var k := FirstDifference(a, b);
    OffsetIsRowMajor(a, dims);
    OffsetIsRowMajor(b, dims);
    if a[k] < b[k] {
      assert LexLess(a, b);
      RowMajorMono(a, b, dims);
    } else {
      assert b[..k] == a[..k] && b[k] < a[k];
      assert LexLess(b, a);
      RowMajorMono(b, a, dims);
    }
  }
}
