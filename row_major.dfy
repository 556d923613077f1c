/**
 * Row-major index arithmetic of a fixed-shape tensor (include/sctl/tensor.hpp).
 *
 * A shape is the list of template extents `Args...`; an index tuple has one
 * entry per extent. The same layout is used wherever the library stores
 * "array-of-struct" data: a vector of N points with D components each is an
 * N x D row-major array.
 */
module RowMajor {

  /** Tensor::Order: the number of extents of the shape. */
  function Order(dims: seq<nat>): nat
  {
    |dims|
  }

  /** Tensor::Size: the product of all extents (1 for the empty shape). */
  function Size(dims: seq<nat>): nat
  {
    if dims == [] then 1 else dims[0] * Size(dims[1..])
  }

  /** Tensor::Dim<k>: the k-th extent. */
  function Dim(dims: seq<nat>, k: nat): nat
    requires k < |dims|
  {
    dims[k]
  }

  /** An index tuple that addresses an element of a tensor of shape `dims`. */
  predicate InRange(dims: seq<nat>, idx: seq<nat>)
  {
    |idx| == |dims| && forall k :: 0 <= k < |idx| ==> idx[k] < dims[k]
  }

  /**
   * Tensor::offset: the buffer position of an element, i0*(d1*...*dn) + offset of
   * the remaining indices in the remaining shape. Every in-range index lands
   * inside the buffer.
   */
  function Offset(dims: seq<nat>, idx: seq<nat>): (r: nat)
    requires InRange(dims, idx)
    ensures r < Size(dims)
  {
    if dims == [] then 0
    else
      InRangeTail(dims, idx);
      var rest := Offset(dims[1..], idx[1..]);
      MulStep(idx[0], dims[0], Size(dims[1..]), rest);
      idx[0] * Size(dims[1..]) + rest
  }

  /** The index tuple stored at buffer position p: the inverse of Offset. */
  function Unoffset(dims: seq<nat>, p: nat): (idx: seq<nat>)
    requires p < Size(dims)
    ensures InRange(dims, idx)
  {
    if dims == [] then []
    else
      var s := Size(dims[1..]);
      DivBound(p, dims[0], s);
      var q, r := p / s, p % s;
      var rest := Unoffset(dims[1..], r);
      InRangeCons(dims, q, rest);
      [q] + rest
  }

  /** Dropping the first extent and the first index keeps an index in range. */
  lemma InRangeTail(dims: seq<nat>, idx: seq<nat>)
    requires dims != [] && InRange(dims, idx)
    ensures InRange(dims[1..], idx[1..])
  {
    forall k | 0 <= k < |idx| - 1 ensures idx[1..][k] < dims[1..][k] {
      assert idx[1..][k] == idx[k + 1];
    }
  }

  /** An index in range for the first extent, followed by one in range for the rest, is in range. */
  lemma InRangeCons(dims: seq<nat>, i: nat, rest: seq<nat>)
    requires dims != [] && i < dims[0] && InRange(dims[1..], rest)
    ensures InRange(dims, [i] + rest)
  {
    forall k | 0 <= k < |dims| ensures ([i] + rest)[k] < dims[k] {
      if k > 0 {
        assert ([i] + rest)[k] == rest[k - 1] && dims[1..][k - 1] == dims[k];
      }
    }
  }

  /** Offset is one-to-one on in-range indices: Unoffset undoes it. */
  lemma {:induction false} UnoffsetOffset(dims: seq<nat>, idx: seq<nat>)
    requires InRange(dims, idx)
    ensures Unoffset(dims, Offset(dims, idx)) == idx
  {
    if dims != [] {
      InRangeTail(dims, idx);
      var s := Size(dims[1..]);
      var rest := Offset(dims[1..], idx[1..]);
      DivModUnique(idx[0], s, rest);
      UnoffsetOffset(dims[1..], idx[1..]);
      assert [idx[0]] + idx[1..] == idx;
    }
  }

  /** Offset is onto [0, Size): every buffer position is the offset of its index. */
  lemma {:induction false} OffsetUnoffset(dims: seq<nat>, p: nat)
    requires p < Size(dims)
    ensures Offset(dims, Unoffset(dims, p)) == p
  {
    if dims != [] {
      var s := Size(dims[1..]);
      DivBound(p, dims[0], s);
      var q, r := p / s, p % s;
      var idx := Unoffset(dims, p);
      assert idx == [q] + Unoffset(dims[1..], r);
      assert idx[0] == q && idx[1..] == Unoffset(dims[1..], r);
      OffsetUnoffset(dims[1..], r);
      assert Offset(dims, idx) == q * s + r;
      DivMod(p, s);
    }
  }

  /** Two in-range indices with the same offset are the same index. */
  lemma OffsetInjective(dims: seq<nat>, a: seq<nat>, b: seq<nat>)
    requires InRange(dims, a) && InRange(dims, b)
    requires Offset(dims, a) == Offset(dims, b)
    ensures a == b
  {
    UnoffsetOffset(dims, a);
    UnoffsetOffset(dims, b);
  }

  /** The size of a concatenated shape is the product of the two sizes. */
  lemma {:induction false} SizeConcat(a: seq<nat>, b: seq<nat>)
    ensures Size(a + b) == Size(a) * Size(b)
  {
    if a != [] {
      assert (a + b)[1..] == a[1..] + b;
      SizeConcat(a[1..], b);
      calc {
        Size(a + b);
        a[0] * Size(a[1..] + b);
        a[0] * (Size(a[1..]) * Size(b));
        { MulAssoc(a[0], Size(a[1..]), Size(b)); }
        a[0] * Size(a[1..]) * Size(b);
      }
    } else {
      assert a + b == b;
    }
  }

  /** A tensor has no elements exactly when one of its extents is zero. */
  lemma {:induction false} SizeZero(dims: seq<nat>)
    ensures Size(dims) == 0 <==> exists k :: 0 <= k < |dims| && dims[k] == 0
  {
    if dims != [] {
      SizeZero(dims[1..]);
      if Size(dims[1..]) == 0 {
        var k :| 0 <= k < |dims[1..]| && dims[1..][k] == 0;
        assert dims[k + 1] == 0;
      }
      if exists k :: 0 <= k < |dims| && dims[k] == 0 {
        var k :| 0 <= k < |dims| && dims[k] == 0;
        if k > 0 { assert dims[1..][k - 1] == 0; }
      }
    }
  }

  // ---- arithmetic helpers ----

  lemma MulAssoc(a: nat, b: nat, c: nat)
    ensures a * (b * c) == a * b * c
  {
  }

  lemma MulMonotone(a: nat, b: nat, c: nat)
    requires a <= b
    ensures a * c <= b * c
  {
  }

  lemma MulStep(i: nat, d: nat, s: nat, r: nat)
    requires i < d && r < s
    ensures i * s + r < d * s
  {
    MulMonotone(i + 1, d, s);
  }

  lemma DivBound(p: nat, d: nat, s: nat)
    requires p < d * s
    ensures s > 0 && p / s < d && p % s < s
  {
    if p / s >= d {
      MulMonotone(d, p / s, s);
    }
  }

  lemma DivMod(p: nat, s: nat)
    requires s > 0
    ensures (p / s) * s + p % s == p
  {
  }

  lemma DivModUnique(q: nat, s: nat, r: nat)
    requires r < s
    ensures (q * s + r) / s == q && (q * s + r) % s == r
  {
    var x := q * s + r;
    var q', r' := x / s, x % s;
    assert x == q' * s + r';
    if q' < q {
      MulMonotone(q' + 1, q, s);
    } else if q' > q {
      MulMonotone(q + 1, q', s);
    }
  }
}
