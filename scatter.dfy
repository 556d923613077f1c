/**
 * Permutations and the block gather/scatter the library uses to move
 * array-of-struct data between two orderings: `dof` consecutive values per
 * item, and an index vector `p` with out-item k = in-item p[k]. Scattering
 * back applies the inverse permutation.
 */
module Scatter {
  import opened RowMajor

  /** [0, 1, ..., n-1]. */
  function Iota(n: nat): (r: seq<nat>)
    ensures |r| == n && forall k :: 0 <= k < n ==> r[k] == k
  {
    if n == 0 then [] else Iota(n - 1) + [n - 1]
  }

  /** Every entry of p addresses one of n items. */
  predicate IndicesBelow(p: seq<nat>, n: nat)
  {
    forall k :: 0 <= k < |p| ==> p[k] < n
  }

  /** No entry of p is repeated. */
  predicate Distinct(p: seq<nat>)
  {
    forall i, j :: 0 <= i < j < |p| ==> p[i] != p[j]
  }

  /** p lists every index of [0, |p|) exactly once. */
  predicate IsPermutation(p: seq<nat>)
  {
    IndicesBelow(p, |p|) && Distinct(p) && forall j :: 0 <= j < |p| ==> j in p
  }

  lemma {:induction false} IotaCount(n: nat, x: nat)
    ensures multiset(Iota(n))[x] == if x < n then 1 else 0
  {
    if n > 0 {
      var last: nat := n - 1;
      calc {
        multiset(Iota(n))[x];
        { assert Iota(n) == Iota(last) + [last]; }
        (multiset(Iota(last)) + multiset{last})[x];
        multiset(Iota(last))[x] + (if x == last then 1 else 0);
        { IotaCount(last, x); }
        if x < n then 1 else 0;
      }
    }
  }

  /** A value occurring at two different positions occurs at least twice. */
  lemma CountTwo(p: seq<nat>, i: nat, j: nat)
    requires i < j < |p| && p[i] == p[j]
    ensures multiset(p)[p[j]] >= 2
  {
    var x := p[j];
    assert p == p[..j] + [x] + p[j + 1..];
    assert multiset(p) == multiset(p[..j]) + multiset{x} + multiset(p[j + 1..]);
    assert p[..j][i] == x;
  }

  /** In a sequence whose entries are distinct, a value at one position occurs exactly once. */
  lemma CountOne(r: seq<nat>, i: nat, x: nat)
    requires i < |r| && r[i] == x && Distinct(r)
    ensures multiset(r)[x] == 1
  {
    assert r == r[..i] + [x] + r[i + 1..];
    assert multiset(r) == multiset(r[..i]) + multiset{x} + multiset(r[i + 1..]);
    assert x !in r[..i] by {
      forall a | 0 <= a < i ensures r[..i][a] != x { assert r[..i][a] == r[a]; }
    }
    assert x !in r[i + 1..] by {
      forall a | i + 1 <= a < |r| ensures r[a] != x { }
    }
  }

  lemma PermutationHasIotaMultiset(p: seq<nat>)
    requires IsPermutation(p)
    ensures multiset(p) == multiset(Iota(|p|))
  {
    var n := |p|;
    var mp: multiset<nat> := multiset(p);
    var mi: multiset<nat> := multiset(Iota(n));
    forall x: nat ensures mp[x] == mi[x] {
      IotaCount(n, x);
      if x < n {
        assert x in p;
        var i :| 0 <= i < n && p[i] == x;
        CountOne(p, i, x);
      } else {
        assert x !in p;
      }
    }
    assert mp == mi;
  }

  lemma IotaMultisetIsPermutation(p: seq<nat>)
    requires multiset(p) == multiset(Iota(|p|))
    ensures IsPermutation(p)
  {
    var n := |p|;
    forall k | 0 <= k < n ensures p[k] < n {
      assert p[k] in multiset(p);
      IotaCount(n, p[k]);
    }
    forall i, j | 0 <= i < j < n ensures p[i] != p[j] {
      if p[i] == p[j] {
        CountTwo(p, i, j);
        IotaCount(n, p[j]);
      }
    }
    forall j | 0 <= j < n ensures j in p {
      IotaCount(n, j);
      assert j in multiset(p);
    }
  }

  /** A permutation is exactly a sequence with the multiset of [0, |p|). */
  lemma PermutationMultiset(p: seq<nat>)
    ensures IsPermutation(p) <==> multiset(p) == multiset(Iota(|p|))
  {
    if IsPermutation(p) {
      PermutationHasIotaMultiset(p);
    }
    if multiset(p) == multiset(Iota(|p|)) {
      IotaMultisetIsPermutation(p);
    }
  }

  /** The position of j in p. */
  function IndexOf(p: seq<nat>, j: nat): (r: nat)
    requires j in p
    ensures r < |p| && p[r] == j
    ensures forall k :: 0 <= k < r ==> p[k] != j
  {
    if p[0] == j then 0 else 1 + IndexOf(p[1..], j)
  }

  /** The inverse permutation: Inverse(p)[p[k]] == k. */
  function Inverse(p: seq<nat>): (r: seq<nat>)
    requires IsPermutation(p)
    ensures |r| == |p|
    ensures forall j :: 0 <= j < |p| ==> r[j] < |p| && p[r[j]] == j
    ensures forall k :: 0 <= k < |p| ==> r[p[k]] == k
  {
    var r := seq(|p|, j requires 0 <= j < |p| => IndexOf(p, j));
    assert forall k :: 0 <= k < |p| ==> r[p[k]] == k by {
      forall k | 0 <= k < |p| ensures r[p[k]] == k {
        var i := r[p[k]];
        assert p[i] == p[k];
      }
    }
    r
  }

  /** The inverse of a permutation is a permutation, and undoes it on both sides. */
  lemma InversePermutation(p: seq<nat>)
    requires IsPermutation(p)
    ensures IsPermutation(Inverse(p))
    ensures Inverse(Inverse(p)) == p
  {
    var r := Inverse(p);
    forall i, j | 0 <= i < j < |r| ensures r[i] != r[j] {
      assert p[r[i]] == i && p[r[j]] == j;
    }
    forall k | 0 <= k < |r| ensures k in r {
      assert r[p[k]] == k;
    }
    var rr := Inverse(r);
    forall k | 0 <= k < |p| ensures rr[k] == p[k] {
      assert r[rr[k]] == k == r[p[k]];
    }
  }

  // ---- blocks of dof values ----

  lemma BlockFits(j: nat, n: nat, dof: nat)
    requires j < n
    ensures j * dof + dof <= n * dof
  {
    MulMonotone(j + 1, n, dof);
  }

  /** Item j of an n-item array of structs with dof values per item. */
  function Block<T>(data: seq<T>, dof: nat, n: nat, j: nat): (r: seq<T>)
    requires |data| == n * dof && j < n
    ensures |r| == dof
  {
    BlockFits(j, n, dof);
    data[j * dof..j * dof + dof]
  }

  /** The items of data at the positions q, one after the other. */
  function GatherBlocks<T>(data: seq<T>, dof: nat, n: nat, q: seq<nat>): (r: seq<T>)
    requires |data| == n * dof && IndicesBelow(q, n)
    ensures |r| == |q| * dof
  {
    if q == [] then []
    else
      var last := |q| - 1;
      assert last * dof + dof == |q| * dof;
      GatherBlocks(data, dof, n, q[..last]) + Block(data, dof, n, q[last])
  }

  /** Gather: out-item k is in-item p[k]. */
  function Gather<T>(data: seq<T>, dof: nat, p: seq<nat>): (r: seq<T>)
    requires |data| == |p| * dof && IndicesBelow(p, |p|)
    ensures |r| == |data|
  {
    GatherBlocks(data, dof, |p|, p)
  }

  /** ScatterBack: the inverse of Gather, in-item p[k] is out-item k. */
  function ScatterBack<T>(sorted: seq<T>, dof: nat, p: seq<nat>): (r: seq<T>)
    requires |sorted| == |p| * dof && IsPermutation(p)
    ensures |r| == |sorted|
  {
    Gather(sorted, dof, Inverse(p))
  }

  /** Item k of a gather is the item its index names. */
  lemma {:induction false} GatherBlocksItem<T>(data: seq<T>, dof: nat, n: nat, q: seq<nat>, k: nat)
    requires |data| == n * dof && IndicesBelow(q, n) && k < |q|
    ensures Block(GatherBlocks(data, dof, n, q), dof, |q|, k) == Block(data, dof, n, q[k])
  {
    var last := |q| - 1;
    var front := GatherBlocks(data, dof, n, q[..last]);
    var r := GatherBlocks(data, dof, n, q);
    assert |front| == last * dof;
    assert r == front + Block(data, dof, n, q[last]);
    BlockFits(k, |q|, dof);
    if k < last {
      BlockFits(k, last, dof);
      GatherBlocksItem(data, dof, n, q[..last], k);
      assert r[k * dof..k * dof + dof] == front[k * dof..k * dof + dof];
    } else {
      assert r[k * dof..k * dof + dof] == r[|front|..];
    }
  }

  lemma GatherItem<T>(data: seq<T>, dof: nat, p: seq<nat>, k: nat)
    requires |data| == |p| * dof && IndicesBelow(p, |p|) && k < |p|
    ensures Block(Gather(data, dof, p), dof, |p|, k) == Block(data, dof, |p|, p[k])
  {
    GatherBlocksItem(data, dof, |p|, p, k);
  }

  /** Dropping the last item keeps the other items in place. */
  lemma BlockOfFront<T>(a: seq<T>, dof: nat, n: nat, j: nat)
    requires |a| == n * dof && j + 1 < n
    ensures (n - 1) * dof <= |a|
    ensures Block(a[..(n - 1) * dof], dof, n - 1, j) == Block(a, dof, n, j)
  {
    BlockFits(j, n - 1, dof);
    MulMonotone(n - 1, n, dof);
  }

  /** Two arrays of structs with the same items are equal. */
  lemma {:induction false} SameBlocks<T>(a: seq<T>, b: seq<T>, dof: nat, n: nat)
    requires |a| == n * dof && |b| == n * dof
    requires forall j :: 0 <= j < n ==> Block(a, dof, n, j) == Block(b, dof, n, j)
    ensures a == b
  {
    if n > 0 {
      var n': nat := n - 1;
      var m := n' * dof;
      assert m + dof == n * dof;
      forall j | 0 <= j < n' ensures Block(a[..m], dof, n', j) == Block(b[..m], dof, n', j) {
        BlockOfFront(a, dof, n, j);
        BlockOfFront(b, dof, n, j);
      }
      SameBlocks(a[..m], b[..m], dof, n');
      assert a[m..] == Block(a, dof, n, n') == Block(b, dof, n, n') == b[m..];
      assert a == a[..m] + a[m..] && b == b[..m] + b[m..];
    }
  }

  /** Scattering back what was gathered restores the original order. */
  lemma ScatterBackGather<T>(data: seq<T>, dof: nat, p: seq<nat>)
    requires |data| == |p| * dof && IsPermutation(p)
    ensures ScatterBack(Gather(data, dof, p), dof, p) == data
  {
    var g := Gather(data, dof, p);
    var inv := Inverse(p);
    var r := ScatterBack(g, dof, p);
    forall j | 0 <= j < |p| ensures Block(r, dof, |p|, j) == Block(data, dof, |p|, j) {
      GatherItem(g, dof, inv, j);
      GatherItem(data, dof, p, inv[j]);
    }
    SameBlocks(r, data, dof, |p|);
  }

  /** Gathering what was scattered back gives the gathered order again. */
  lemma GatherScatterBack<T>(sorted: seq<T>, dof: nat, p: seq<nat>)
    requires |sorted| == |p| * dof && IsPermutation(p)
    ensures Gather(ScatterBack(sorted, dof, p), dof, p) == sorted
  {
    var inv := Inverse(p);
    var s := ScatterBack(sorted, dof, p);
    var r := Gather(s, dof, p);
    forall k | 0 <= k < |p| ensures Block(r, dof, |p|, k) == Block(sorted, dof, |p|, k) {
      GatherItem(s, dof, p, k);
      GatherItem(sorted, dof, inv, p[k]);
    }
    SameBlocks(r, sorted, dof, |p|);
  }
}
