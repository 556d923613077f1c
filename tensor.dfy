/**
 * A fixed-shape tensor stored in row-major order (include/sctl/tensor.hpp).
 *
 * The value functions below say what each operator computes on the buffer
 * contents; the class Tensor owns the buffer and implements the operators,
 * writing through the buffer in place where the source does (element access,
 * assignment) and returning a fresh tensor where the source returns one.
 * ValueType is modelled as int.
 */
module Tensors {
  import opened RowMajor

  // ---- rotations of a shape or of an index tuple ----

  /** (x0, x1, ..., xn) becomes (x1, ..., xn, x0). */
  function RotL<T>(s: seq<T>): seq<T>
  {
    if s == [] then [] else s[1..] + [s[0]]
  }

  /** (x0, ..., xn-1, xn) becomes (xn, x0, ..., xn-1). */
  function RotR<T>(s: seq<T>): seq<T>
  {
    if s == [] then [] else [s[|s| - 1]] + s[..|s| - 1]
  }

  lemma RotRRotL<T>(s: seq<T>)
    ensures RotR(RotL(s)) == s
  {
    if s != [] {
      assert RotL(s)[..|s| - 1] == s[1..];
      assert [s[0]] + s[1..] == s;
    }
  }

  lemma RotLRotR<T>(s: seq<T>)
    ensures RotL(RotR(s)) == s
  {
    if s != [] {
      assert RotR(s)[1..] == s[..|s| - 1];
      assert s[..|s| - 1] + [s[|s| - 1]] == s;
    }
  }

  lemma InRangeRotL(dims: seq<nat>, idx: seq<nat>)
    requires InRange(dims, idx)
    ensures InRange(RotL(dims), RotL(idx))
  {
    if dims != [] {
      var n := |dims|;
      forall k | 0 <= k < n ensures RotL(idx)[k] < RotL(dims)[k] {
        if k < n - 1 {
          assert RotL(idx)[k] == idx[k + 1] && RotL(dims)[k] == dims[k + 1];
        }
      }
    }
  }

  lemma InRangeRotR(dims: seq<nat>, idx: seq<nat>)
    requires InRange(dims, idx)
    ensures InRange(RotR(dims), RotR(idx))
  {
    if dims != [] {
      var n := |dims|;
      forall k | 0 <= k < n ensures RotR(idx)[k] < RotR(dims)[k] {
        if k > 0 {
          assert RotR(idx)[k] == idx[k - 1] && RotR(dims)[k] == dims[k - 1];
        }
      }
    }
  }

  /** Rotating the extents does not change the number of elements. */
  lemma SizeRotL(dims: seq<nat>)
    ensures Size(RotL(dims)) == Size(dims)
  {
    if dims != [] {
      SizeConcat(dims[1..], [dims[0]]);
    }
  }

  lemma SizeRotR(dims: seq<nat>)
    ensures Size(RotR(dims)) == Size(dims)
  {
    if dims != [] {
      var n := |dims|;
      var front, last := dims[..n - 1], dims[n - 1];
      assert RotR(dims) == [last] + front;
      assert ([last] + front)[1..] == front;
      assert Size(RotR(dims)) == last * Size(front);
      assert dims == front + [last];
      SizeConcat(front, [last]);
      assert Size([last]) == last;
      MulComm(Size(front), last);
    }
  }

  /** RotateLeft's shape: extent k of the result is extent k+1 of the source, and the last is the first. */
  lemma RotateLeftShape(dims: seq<nat>, k: nat)
    requires k < Order(dims)
    ensures Order(RotL(dims)) == Order(dims)
    ensures Dim(RotL(dims), k) == if k + 1 < Order(dims) then Dim(dims, k + 1) else Dim(dims, 0)
  {
    if k + 1 < Order(dims) {
      assert RotL(dims)[k] == dims[1..][k];
    }
  }

  /** RotateRight's shape: extent k of the result is extent k-1 of the source, and the first is the last. */
  lemma RotateRightShape(dims: seq<nat>, k: nat)
    requires k < Order(dims)
    ensures Order(RotR(dims)) == Order(dims)
    ensures Dim(RotR(dims), k) == if k == 0 then Dim(dims, Order(dims) - 1) else Dim(dims, k - 1)
  {
    if k > 0 {
      assert RotR(dims)[k] == dims[..|dims| - 1][k - 1];
    }
  }

  lemma MulComm(x: int, y: int)
    ensures x * y == y * x
  {
  }

  // ---- values of tensors ----

  /** operator()(ii...) const: the element at an in-range index tuple. */
  function At<T>(dims: seq<nat>, buf: seq<T>, idx: seq<nat>): T
    requires |buf| == Size(dims) && InRange(dims, idx)
  {
    buf[Offset(dims, idx)]
  }

  function RotateLeftAt<T>(dims: seq<nat>, buf: seq<T>, p: nat): T
    requires |buf| == Size(dims) && p < Size(RotL(dims))
  {
    var idx := Unoffset(RotL(dims), p);
    InRangeRotR(RotL(dims), idx);
    RotRRotL(dims);
    buf[Offset(dims, RotR(idx))]
  }

  /** The buffer of RotateLeft(): R(i1, ..., in, i0) = T(i0, i1, ..., in). */
  function RotateLeftData<T>(dims: seq<nat>, buf: seq<T>): (r: seq<T>)
    requires |buf| == Size(dims)
    ensures |r| == Size(RotL(dims)) == Size(dims)
  {
    SizeRotL(dims);
    seq(Size(RotL(dims)), p requires 0 <= p < Size(RotL(dims)) => RotateLeftAt(dims, buf, p))
  }

  function RotateRightAt<T>(dims: seq<nat>, buf: seq<T>, p: nat): T
    requires |buf| == Size(dims) && p < Size(RotR(dims))
  {
    var idx := Unoffset(RotR(dims), p);
    InRangeRotL(RotR(dims), idx);
    RotLRotR(dims);
    buf[Offset(dims, RotL(idx))]
  }

  /** The buffer of RotateRight(): R(in, i0, ..., in-1) = T(i0, ..., in). */
  function RotateRightData<T>(dims: seq<nat>, buf: seq<T>): (r: seq<T>)
    requires |buf| == Size(dims)
    ensures |r| == Size(RotR(dims)) == Size(dims)
  {
    SizeRotR(dims);
    seq(Size(RotR(dims)), p requires 0 <= p < Size(RotR(dims)) => RotateRightAt(dims, buf, p))
  }

  /** For shape n1 x n2 x n3: RotateLeft gives R(j, k, i) = T(i, j, k), and likewise for every order. */
  lemma RotateLeftElem<T>(dims: seq<nat>, buf: seq<T>, idx: seq<nat>)
    requires |buf| == Size(dims) && InRange(dims, idx)
    ensures InRange(RotL(dims), RotL(idx))
    ensures At(RotL(dims), RotateLeftData(dims, buf), RotL(idx)) == At(dims, buf, idx)
  {
    InRangeRotL(dims, idx);
    UnoffsetOffset(RotL(dims), RotL(idx));
    RotRRotL(idx);
  }

  /** For shape n1 x n2 x n3: RotateRight gives R(k, i, j) = T(i, j, k), and likewise for every order. */
  lemma RotateRightElem<T>(dims: seq<nat>, buf: seq<T>, idx: seq<nat>)
    requires |buf| == Size(dims) && InRange(dims, idx)
    ensures InRange(RotR(dims), RotR(idx))
    ensures At(RotR(dims), RotateRightData(dims, buf), RotR(idx)) == At(dims, buf, idx)
  {
    InRangeRotR(dims, idx);
    UnoffsetOffset(RotR(dims), RotR(idx));
    RotLRotR(idx);
  }

  /** RotateRight undoes RotateLeft. */
  lemma RotateRightLeft<T>(dims: seq<nat>, buf: seq<T>)
    requires |buf| == Size(dims)
    ensures RotR(RotL(dims)) == dims
    ensures RotateRightData(RotL(dims), RotateLeftData(dims, buf)) == buf
  {
    RotRRotL(dims);
    var l := RotateLeftData(dims, buf);
    var r := RotateRightData(RotL(dims), l);
    forall p | 0 <= p < |buf| ensures r[p] == buf[p] {
      var idx := Unoffset(dims, p);
      RotateLeftElem(dims, buf, idx);
      InRangeRotL(dims, idx);
      OffsetUnoffset(dims, p);
      assert Unoffset(RotR(RotL(dims)), p) == idx;
      assert r[p] == l[Offset(RotL(dims), RotL(idx))];
    }
  }

  /** RotateLeft undoes RotateRight. */
  lemma RotateLeftRight<T>(dims: seq<nat>, buf: seq<T>)
    requires |buf| == Size(dims)
    ensures RotL(RotR(dims)) == dims
    ensures RotateLeftData(RotR(dims), RotateRightData(dims, buf)) == buf
  {
    RotLRotR(dims);
    var rr := RotateRightData(dims, buf);
    var l := RotateLeftData(RotR(dims), rr);
    forall p | 0 <= p < |buf| ensures l[p] == buf[p] {
      var idx := Unoffset(dims, p);
      RotateRightElem(dims, buf, idx);
      InRangeRotR(dims, idx);
      OffsetUnoffset(dims, p);
      RotRRotL(dims);
      assert Unoffset(RotL(RotR(dims)), p) == idx;
      assert l[p] == rr[Offset(RotR(dims), RotR(idx))];
    }
  }

  /** For a matrix, RotateLeft is the transpose, and RotateLeft and RotateRight agree. */
  lemma RotateIsTranspose<T>(m: nat, n: nat, buf: seq<T>, i: nat, j: nat)
    requires |buf| == Size([m, n]) && i < m && j < n
    ensures RotL([m, n]) == RotR([m, n]) == [n, m]
    ensures At([n, m], RotateLeftData([m, n], buf), [j, i]) == At([m, n], buf, [i, j])
    ensures RotateLeftData([m, n], buf) == RotateRightData([m, n], buf)
  {
    assert RotL([m, n]) == [n, m];
    assert RotR([m, n]) == [n, m];
    assert RotL([i, j]) == [j, i];
    RotateLeftElem([m, n], buf, [i, j]);
    var l := RotateLeftData([m, n], buf);
    var r := RotateRightData([m, n], buf);
    forall p | 0 <= p < |l| ensures l[p] == r[p] {
      var idx := Unoffset([n, m], p);
      assert RotR(idx) == RotL(idx);
    }
  }

  // ---- element-wise and scalar arithmetic ----

  /** operator-(): every element negated. */
  function Negate(a: seq<int>): (r: seq<int>)
    ensures |r| == |a|
  {
    seq(|a|, i requires 0 <= i < |a| => -a[i])
  }

  /** operator+(s): s added to every element. */
  function AddScalar(a: seq<int>, s: int): (r: seq<int>)
    ensures |r| == |a|
  {
    seq(|a|, i requires 0 <= i < |a| => a[i] + s)
  }

  /** operator-(s): s subtracted from every element. */
  function SubScalar(a: seq<int>, s: int): (r: seq<int>)
    ensures |r| == |a|
  {
    seq(|a|, i requires 0 <= i < |a| => a[i] - s)
  }

  /** operator*(s): every element multiplied by s. */
  function MulScalar(a: seq<int>, s: int): (r: seq<int>)
    ensures |r| == |a|
  {
    seq(|a|, i requires 0 <= i < |a| => a[i] * s)
  }

  /** C++ integer division: the quotient rounded toward zero. */
  function TruncDiv(x: int, s: int): int
    requires s != 0
  {
    var q := Abs(x) / Abs(s);
    if (x >= 0) == (s > 0) then q else -q
  }

  function Abs(x: int): nat
  {
    if x < 0 then -x else x
  }

  /** operator/(s): every element divided by s. */
  function DivScalar(a: seq<int>, s: int): (r: seq<int>)
    requires s != 0
    ensures |r| == |a|
  {
    seq(|a|, i requires 0 <= i < |a| => TruncDiv(a[i], s))
  }

  /** operator+(M2): element-wise sum of two tensors of one shape. */
  function AddTensor(a: seq<int>, b: seq<int>): (r: seq<int>)
    requires |a| == |b|
    ensures |r| == |a|
  {
    seq(|a|, i requires 0 <= i < |a| => a[i] + b[i])
  }

  /** operator-(M2): element-wise difference of two tensors of one shape. */
  function SubTensor(a: seq<int>, b: seq<int>): (r: seq<int>)
    requires |a| == |b|
    ensures |r| == |a|
  {
    seq(|a|, i requires 0 <= i < |a| => a[i] - b[i])
  }

  /** At every index tuple the element-wise operators act on the elements there. */
  lemma ElementwiseAt(dims: seq<nat>, a: seq<int>, b: seq<int>, s: int, idx: seq<nat>)
    requires |a| == |b| == Size(dims) && InRange(dims, idx)
    ensures At(dims, AddTensor(a, b), idx) == At(dims, a, idx) + At(dims, b, idx)
    ensures At(dims, SubTensor(a, b), idx) == At(dims, a, idx) - At(dims, b, idx)
    ensures At(dims, Negate(a), idx) == -At(dims, a, idx)
    ensures At(dims, AddScalar(a, s), idx) == At(dims, a, idx) + s
    ensures At(dims, SubScalar(a, s), idx) == At(dims, a, idx) - s
    ensures At(dims, MulScalar(a, s), idx) == At(dims, a, idx) * s
    ensures s != 0 ==> At(dims, DivScalar(a, s), idx) == TruncDiv(At(dims, a, idx), s)
  {
  }

  /** Subtracting what was added gives back the tensor, for tensors and for scalars. */
  lemma AddSubCancel(a: seq<int>, b: seq<int>, s: int)
    requires |a| == |b|
    ensures SubTensor(AddTensor(a, b), b) == a
    ensures SubScalar(AddScalar(a, s), s) == a
    ensures SubTensor(a, b) == AddTensor(a, Negate(b))
    ensures Negate(Negate(a)) == a
  {
  }

  lemma {:induction false} TruncDivOfMul(x: int, s: int)
    requires s != 0
    ensures TruncDiv(x * s, s) == x
  {
    assert Abs(x * s) == Abs(x) * Abs(s) by {
      if x < 0 && s < 0 {
        assert x * s == (-x) * (-s);
      } else if x < 0 {
        assert -(x * s) == (-x) * s;
      } else if s < 0 {
        assert -(x * s) == x * (-s);
      }
    }
    DivModUnique(Abs(x), Abs(s), 0);
    if x != 0 {
      assert (x * s > 0) == ((x > 0) == (s > 0)) by {
        if x > 0 && s > 0 { MulMonotone(1, x, s); }
        if x < 0 && s < 0 { MulMonotone(1, -x, -s); assert (-x) * (-s) == x * s; }
        if x > 0 && s < 0 { MulMonotone(1, x, -s); assert x * (-s) == -(x * s); }
        if x < 0 && s > 0 { MulMonotone(1, -x, s); assert (-x) * s == -(x * s); }
      }
    }
  }

  /** Dividing by the scalar that was multiplied in gives back the tensor. */
  lemma MulDivCancel(a: seq<int>, s: int)
    requires s != 0
    ensures DivScalar(MulScalar(a, s), s) == a
  {
    forall i | 0 <= i < |a| ensures DivScalar(MulScalar(a, s), s)[i] == a[i] {
      TruncDivOfMul(a[i], s);
    }
  }

  // ---- matrix product ----

  /** Sum over l < k of A(i, l) * B(l, j). */
  function Dot(a: seq<int>, b: seq<int>, m: nat, n: nat, p: nat, i: nat, j: nat, k: nat): int
    requires |a| == Size([m, n]) && |b| == Size([n, p])
    requires i < m && j < p && k <= n
  {
    if k == 0 then 0
    else Dot(a, b, m, n, p, i, j, k - 1) + At([m, n], a, [i, k - 1]) * At([n, p], b, [k - 1, j])
  }

  function MatMulAt(a: seq<int>, b: seq<int>, m: nat, n: nat, p: nat, q: nat): int
    requires |a| == Size([m, n]) && |b| == Size([n, p]) && q < Size([m, p])
  {
    var ij := Unoffset([m, p], q);
    Dot(a, b, m, n, p, ij[0], ij[1], n)
  }

  /** operator*(M2) for an m x n tensor and an n x p tensor: the m x p matrix product. */
  function MatMul(a: seq<int>, b: seq<int>, m: nat, n: nat, p: nat): (r: seq<int>)
    requires |a| == Size([m, n]) && |b| == Size([n, p])
    ensures |r| == Size([m, p])
  {
    seq(Size([m, p]), q requires 0 <= q < Size([m, p]) => MatMulAt(a, b, m, n, p, q))
  }

  /** Entry (i, j) of the product is the sum over k of A(i, k) * B(k, j). */
  lemma MatMulElem(a: seq<int>, b: seq<int>, m: nat, n: nat, p: nat, i: nat, j: nat)
    requires |a| == Size([m, n]) && |b| == Size([n, p]) && i < m && j < p
    ensures At([m, p], MatMul(a, b, m, n, p), [i, j]) == Dot(a, b, m, n, p, i, j, n)
  {
    UnoffsetOffset([m, p], [i, j]);
  }

  /** Dot products agree when their factors agree entry by entry (swapped). */
  lemma {:induction false} DotSwap(a: seq<int>, b: seq<int>, bt: seq<int>, at: seq<int>,
                                   m: nat, n: nat, p: nat, i: nat, j: nat, k: nat)
    requires |a| == Size([m, n]) && |b| == Size([n, p]) && |bt| == Size([p, n]) && |at| == Size([n, m])
    requires i < m && j < p && k <= n
    requires forall l :: 0 <= l < k ==>
      At([p, n], bt, [j, l]) == At([n, p], b, [l, j]) && At([n, m], at, [l, i]) == At([m, n], a, [i, l])
    ensures Dot(bt, at, p, n, m, j, i, k) == Dot(a, b, m, n, p, i, j, k)
  {
    if k > 0 {
      DotSwap(a, b, bt, at, m, n, p, i, j, k - 1);
      MulComm(At([n, p], b, [k - 1, j]), At([m, n], a, [i, k - 1]));
    }
  }

  lemma TransposedFactors(a: seq<int>, b: seq<int>, m: nat, n: nat, p: nat, i: nat, j: nat)
    requires |a| == Size([m, n]) && |b| == Size([n, p]) && i < m && j < p
    ensures RotL([m, n]) == [n, m] && RotL([n, p]) == [p, n]
    ensures forall l :: 0 <= l < n ==>
      At([p, n], RotateLeftData([n, p], b), [j, l]) == At([n, p], b, [l, j]) &&
      At([n, m], RotateLeftData([m, n], a), [l, i]) == At([m, n], a, [i, l])
  {
    assert RotL([m, n]) == [n, m] && RotL([n, p]) == [p, n];
    forall l | 0 <= l < n
      ensures At([p, n], RotateLeftData([n, p], b), [j, l]) == At([n, p], b, [l, j])
      ensures At([n, m], RotateLeftData([m, n], a), [l, i]) == At([m, n], a, [i, l])
    {
      assert RotL([l, j]) == [j, l] && RotL([i, l]) == [l, i];
      RotateLeftElem([n, p], b, [l, j]);
      RotateLeftElem([m, n], a, [i, l]);
    }
  }

  /** Entry (j, i) of the transposed product is entry (j, i) of B^T A^T. */
  lemma TransposeOfProductAt(a: seq<int>, b: seq<int>, m: nat, n: nat, p: nat, i: nat, j: nat)
    requires |a| == Size([m, n]) && |b| == Size([n, p]) && i < m && j < p
    ensures RotL([m, n]) == [n, m] && RotL([n, p]) == [p, n] && RotL([m, p]) == [p, m]
    ensures At([p, m], RotateLeftData([m, p], MatMul(a, b, m, n, p)), [j, i])
         == At([p, m], MatMul(RotateLeftData([n, p], b), RotateLeftData([m, n], a), p, n, m), [j, i])
  {
    assert RotL([m, n]) == [n, m] && RotL([n, p]) == [p, n] && RotL([m, p]) == [p, m];
    assert RotL([i, j]) == [j, i];
    var ab := MatMul(a, b, m, n, p);
    var bt, at := RotateLeftData([n, p], b), RotateLeftData([m, n], a);
    RotateLeftElem([m, p], ab, [i, j]);
    MatMulElem(a, b, m, n, p, i, j);
    MatMulElem(bt, at, p, n, m, j, i);
    TransposedFactors(a, b, m, n, p, i, j);
    DotSwap(a, b, bt, at, m, n, p, i, j, n);
  }

  /** Transposing a product multiplies the transposes in the reverse order: (AB)^T = B^T A^T. */
  lemma TransposeOfProduct(a: seq<int>, b: seq<int>, m: nat, n: nat, p: nat)
    requires |a| == Size([m, n]) && |b| == Size([n, p])
    ensures RotL([m, n]) == [n, m] && RotL([n, p]) == [p, n] && RotL([m, p]) == [p, m]
    ensures RotateLeftData([m, p], MatMul(a, b, m, n, p))
         == MatMul(RotateLeftData([n, p], b), RotateLeftData([m, n], a), p, n, m)
  {
    assert RotL([m, n]) == [n, m] && RotL([n, p]) == [p, n] && RotL([m, p]) == [p, m];
    var lhs := RotateLeftData([m, p], MatMul(a, b, m, n, p));
    var rhs := MatMul(RotateLeftData([n, p], b), RotateLeftData([m, n], a), p, n, m);
    forall q | 0 <= q < |lhs| ensures lhs[q] == rhs[q] {
      var ji := Unoffset([p, m], q);
      OffsetUnoffset([p, m], q);
      assert ji == [ji[0], ji[1]];
      TransposeOfProductAt(a, b, m, n, p, ji[1], ji[0]);
    }
  }

  /** The product of an m x n and an n x p tensor, given by their shapes. */
  function Product(da: seq<nat>, a: seq<int>, db: seq<nat>, b: seq<int>): (r: seq<int>)
    requires |da| == 2 && |db| == 2 && da[1] == db[0]
    requires |a| == Size(da) && |b| == Size(db)
  {
    assert da == [da[0], da[1]] && db == [db[0], db[1]];
    MatMul(a, b, da[0], da[1], db[1])
  }

  // ---- the tensor object ----

  /** Tensor<int, true, dims...>: a tensor that owns a buffer of Size(dims) elements. */
  class Tensor {
    const dims: seq<nat>
    const buff: array<int>

    ghost predicate Valid()
      reads this
    {
      buff.Length == Size(dims)
    }

    /** The buffer contents in row-major order. */
    function Contents(): seq<int>
      reads this, buff
    {
      buff[..]
    }

    /** Tensor(): a tensor of the shape with unspecified contents. */
    constructor Empty(dims: seq<nat>)
      ensures Valid() && this.dims == dims && fresh(buff)
    {
      this.dims := dims;
      buff := new int[Size(dims)];
    }

    /** Tensor(src_iter): the first Size() values starting at the iterator. */
    constructor FromIter(dims: seq<nat>, src: seq<int>)
      requires |src| >= Size(dims)
      ensures Valid() && this.dims == dims && fresh(buff)
      ensures Contents() == src[..Size(dims)]
    {
      this.dims := dims;
      buff := new int[Size(dims)](i requires 0 <= i < Size(dims) => src[i]);
    }

    /** Tensor(v): every element is v. */
    constructor Fill(dims: seq<nat>, v: int)
      ensures Valid() && this.dims == dims && fresh(buff)
      ensures forall idx :: InRange(dims, idx) ==> Get(idx) == v
    {
      this.dims := dims;
      buff := new int[Size(dims)](_ => v);
    }

    /** Tensor(const Tensor&): an element-wise equal tensor with its own buffer. */
    constructor Copy(M: Tensor)
      requires M.Valid()
      ensures Valid() && dims == M.dims && fresh(buff)
      ensures Contents() == M.Contents()
    {
      dims := M.dims;
      buff := new int[M.buff.Length](i requires 0 <= i < M.buff.Length reads M, M.buff => M.buff[i]);
    }

    /** operator()(ii...) const: the element stored at the row-major offset of the index tuple. */
    function Get(idx: seq<nat>): (r: int)
      reads this, buff
      requires Valid() && InRange(dims, idx)
      ensures Offset(dims, idx) < buff.Length && r == buff[Offset(dims, idx)]
    {
      At(dims, buff[..], idx)
    }

    /** Writing v through the reference returned by operator()(ii...). */
    method Set(idx: seq<nat>, v: int)
      requires Valid() && InRange(dims, idx)
      modifies buff
      ensures Get(idx) == v
      ensures forall other :: InRange(dims, other) && other != idx ==> Get(other) == old(Get(other))
    {
      buff[Offset(dims, idx)] := v;
      forall other | InRange(dims, other) && other != idx
        ensures Offset(dims, other) != Offset(dims, idx)
      {
        if Offset(dims, other) == Offset(dims, idx) {
          OffsetInjective(dims, other, idx);
        }
      }
    }

    /** operator=(const Tensor&): copy every element of M (M may be this tensor). */
    method Assign(M: Tensor)
      requires Valid() && M.Valid() && M.dims == dims
      modifies buff
      ensures Contents() == old(M.Contents())
    {
      var i := 0;
      while i < buff.Length
        invariant 0 <= i <= buff.Length
        invariant forall k :: 0 <= k < i ==> buff[k] == old(M.buff[k])
        invariant forall k :: i <= k < buff.Length ==> buff[k] == old(buff[k]) && M.buff[k] == old(M.buff[k])
      {
        buff[i] := M.buff[i];
        i := i + 1;
      }
    }

    /** operator=(v): set every element to v. */
    method AssignValue(v: int)
      requires Valid()
      modifies buff
      ensures forall idx :: InRange(dims, idx) ==> Get(idx) == v
    {
      var i := 0;
      while i < buff.Length
        invariant 0 <= i <= buff.Length
        invariant forall k :: 0 <= k < i ==> buff[k] == v
      {
        buff[i] := v;
        i := i + 1;
      }
    }

    /** RotateLeft(). */
    method RotateLeft() returns (r: Tensor)
      requires Valid()
      ensures r.Valid() && fresh(r.buff) && r.dims == RotL(dims)
      ensures r.Contents() == RotateLeftData(dims, Contents())
    {
      r := new Tensor.FromIter(RotL(dims), RotateLeftData(dims, buff[..]));
    }

    /** RotateRight(). */
    method RotateRight() returns (r: Tensor)
      requires Valid()
      ensures r.Valid() && fresh(r.buff) && r.dims == RotR(dims)
      ensures r.Contents() == RotateRightData(dims, Contents())
    {
      r := new Tensor.FromIter(RotR(dims), RotateRightData(dims, buff[..]));
    }

    /** operator+(): a copy of the tensor. */
    method Plus() returns (r: Tensor)
      requires Valid()
      ensures r.Valid() && fresh(r.buff) && r.dims == dims && r.Contents() == Contents()
    {
      r := new Tensor.FromIter(dims, buff[..]);
    }

    /** operator-(). */
    method Minus() returns (r: Tensor)
      requires Valid()
      ensures r.Valid() && fresh(r.buff) && r.dims == dims && r.Contents() == Negate(Contents())
    {
      r := new Tensor.FromIter(dims, Negate(buff[..]));
    }

    /** operator+(s). */
    method AddS(s: int) returns (r: Tensor)
      requires Valid()
      ensures r.Valid() && fresh(r.buff) && r.dims == dims && r.Contents() == AddScalar(Contents(), s)
    {
      r := new Tensor.FromIter(dims, AddScalar(buff[..], s));
    }

    /** operator-(s). */
    method SubS(s: int) returns (r: Tensor)
      requires Valid()
      ensures r.Valid() && fresh(r.buff) && r.dims == dims && r.Contents() == SubScalar(Contents(), s)
    {
      r := new Tensor.FromIter(dims, SubScalar(buff[..], s));
    }

    /** operator*(s). */
    method MulS(s: int) returns (r: Tensor)
      requires Valid()
      ensures r.Valid() && fresh(r.buff) && r.dims == dims && r.Contents() == MulScalar(Contents(), s)
    {
      r := new Tensor.FromIter(dims, MulScalar(buff[..], s));
    }

    /** operator/(s); integer division by zero is undefined in C++. */
    method DivS(s: int) returns (r: Tensor)
      requires Valid() && s != 0
      ensures r.Valid() && fresh(r.buff) && r.dims == dims && r.Contents() == DivScalar(Contents(), s)
    {
      r := new Tensor.FromIter(dims, DivScalar(buff[..], s));
    }

    /** operator+(M2) for a tensor of the same shape. */
    method Add(M2: Tensor) returns (r: Tensor)
      requires Valid() && M2.Valid() && M2.dims == dims
      ensures r.Valid() && fresh(r.buff) && r.dims == dims
      ensures r.Contents() == AddTensor(Contents(), M2.Contents())
    {
      r := new Tensor.FromIter(dims, AddTensor(buff[..], M2.buff[..]));
    }

    /** operator-(M2) for a tensor of the same shape. */
    method Sub(M2: Tensor) returns (r: Tensor)
      requires Valid() && M2.Valid() && M2.dims == dims
      ensures r.Valid() && fresh(r.buff) && r.dims == dims
      ensures r.Contents() == SubTensor(Contents(), M2.Contents())
    {
      r := new Tensor.FromIter(dims, SubTensor(buff[..], M2.buff[..]));
    }

    /** operator*(M2): this d0 x N1 tensor times an N1 x N2 tensor gives a d0 x N2 tensor. */
    method Mul(M2: Tensor) returns (r: Tensor)
      requires Valid() && M2.Valid()
      requires |dims| == 2 && |M2.dims| == 2 && M2.dims[0] == dims[1]
      ensures r.Valid() && fresh(r.buff) && r.dims == [dims[0], M2.dims[1]]
      ensures r.Contents() == Product(dims, Contents(), M2.dims, M2.Contents())
    {
      assert dims == [dims[0], dims[1]] && M2.dims == [dims[1], M2.dims[1]];
      r := new Tensor.FromIter([dims[0], M2.dims[1]], Product(dims, buff[..], M2.dims, M2.buff[..]));
    }
  }
}
