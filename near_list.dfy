/**
 * The output contract of BuildNearList (include/sctl/boundary_integral.hpp),
 * computed serially. Coordinates are integers and "near" compares squared
 * distances, so no floating point enters.
 *
 * For K elements and N targets the near list holds, element after element,
 * the targets near that element in increasing order. Each entry is an
 * (element, target) pair; the element is implied by the run the entry is in.
 */
module NearLists {
  import opened RowMajor
  import opened Scatter
  import opened Trees

  // ---- runs of a concatenation ----

  /** The runs one after the other. */
  function Concat<T>(runs: seq<seq<T>>): seq<T>
  {
    if runs == [] then [] else Concat(runs[..|runs| - 1]) + runs[|runs| - 1]
  }

  /** The length of every run. */
  function Lengths<T>(runs: seq<seq<T>>): (r: seq<int>)
    ensures |r| == |runs| && forall i :: 0 <= i < |runs| ==> r[i] == |runs[i]|
  {
    seq(|runs|, i requires 0 <= i < |runs| => |runs[i]|)
  }

  lemma LengthsFront<T>(runs: seq<seq<T>>, k: nat)
    requires k <= |runs|
    ensures Lengths(runs)[..k] == Lengths(runs[..k])
  {
  }

  /** A concatenation is as long as its runs together. */
  lemma {:induction false} ConcatLength<T>(runs: seq<seq<T>>)
    ensures |Concat(runs)| == Sum(Lengths(runs))
  {
    if runs != [] {
      var n := |runs| - 1;
      ConcatLength(runs[..n]);
      LengthsFront(runs, n);
      assert Lengths(runs) == Lengths(runs)[..n] + [|runs[n]|];
      SumAppend(Lengths(runs)[..n], |runs[n]|);
    }
  }

  /** Run k starts after the runs before it, at the sum of their lengths. */
  lemma {:induction false} ConcatIndex<T>(runs: seq<seq<T>>, k: nat, i: nat)
    requires k < |runs| && i < |runs[k]|
    ensures Sum(Lengths(runs)[..k]) == |Concat(runs[..k])|
    ensures |Concat(runs[..k])| + i < |Concat(runs)|
    ensures Concat(runs)[|Concat(runs[..k])| + i] == runs[k][i]
  {
    var n := |runs| - 1;
    var front := runs[..n];
    ConcatLength(runs[..k]);
    LengthsFront(runs, k);
    assert Concat(runs) == Concat(front) + runs[n];
    if k == n {
    } else {
      ConcatIndex(front, k, i);
      assert front[..k] == runs[..k];
    }
  }

  lemma {:induction false} ConcatAppend<T>(a: seq<seq<T>>, b: seq<seq<T>>)
    ensures Concat(a + b) == Concat(a) + Concat(b)
  {
    if b == [] {
      assert a + b == a;
    } else {
      var n := |b| - 1;
      ConcatAppend(a, b[..n]);
      assert (a + b)[..|a + b| - 1] == a + b[..n];
    }
  }

  /** Run k lies inside the concatenation, after the runs before it. */
  lemma ConcatPrefix<T>(runs: seq<seq<T>>, k: nat)
    requires k < |runs|
    ensures Sum(Lengths(runs)[..k]) == |Concat(runs[..k])|
    ensures |Concat(runs[..k])| + |runs[k]| <= |Concat(runs)|
  {
    ConcatLength(runs[..k]);
    LengthsFront(runs, k);
    assert runs == runs[..k + 1] + runs[k + 1..];
    ConcatAppend(runs[..k + 1], runs[k + 1..]);
    assert runs[..k + 1][..k] == runs[..k];
  }

  // ---- the input ----

  /**
   * The inputs of BuildNearList: COORD_DIM, Xtrg and Xn_trg (Xn_trg may be
   * empty), Xsrc and src_radius for the source nodes, and for each element
   * the count and offset of its source nodes.
   */
  datatype NearInput = NearInput(cd: nat, xtrg: seq<int>, xnTrg: seq<int>, xsrc: seq<int>,
                                 srcRadius: seq<nat>, elemNdsCnt: seq<int>, elemNdsDsp: seq<int>)

  /** len / cd, counted by repeated subtraction. */
  function Quot(len: nat, cd: nat): nat
    requires cd > 0
    decreases len
  {
    if len < cd then 0 else 1 + Quot(len - cd, cd)
  }

  /** N, the number of targets: |Xtrg| / COORD_DIM. */
  function NTrg(inp: NearInput): nat
    requires inp.cd > 0
  {
    Quot(|inp.xtrg|, inp.cd)
  }

  /** The number of source nodes. */
  function NSrc(inp: NearInput): nat
  {
    |inp.srcRadius|
  }

  /** K, the number of elements. */
  function NElem(inp: NearInput): nat
  {
    |inp.elemNdsCnt|
  }

  /** Array-of-struct shapes, and every element's node range inside the source nodes. */
  predicate WellFormed(inp: NearInput)
  {
    && inp.cd > 0
    && |inp.xtrg| == NTrg(inp) * inp.cd
    && (inp.xnTrg == [] || |inp.xnTrg| == |inp.xtrg|)
    && |inp.xsrc| == NSrc(inp) * inp.cd
    && |inp.elemNdsDsp| == NElem(inp)
    && forall e :: 0 <= e < NElem(inp) ==>
         0 <= inp.elemNdsCnt[e] && 0 <= inp.elemNdsDsp[e]
         && inp.elemNdsDsp[e] + inp.elemNdsCnt[e] <= NSrc(inp)
  }

  /** The squared distance of two points. */
  function SqDist(a: seq<int>, b: seq<int>): int
    requires |a| == |b|
  {
    if a == [] then 0
    else
      var d := a[|a| - 1] - b[|b| - 1];
      SqDist(a[..|a| - 1], b[..|b| - 1]) + d * d
  }

  /** Target t lies in the near region of source node j. */
  predicate NearNode(inp: NearInput, t: nat, j: nat)
    requires WellFormed(inp) && t < NTrg(inp) && j < NSrc(inp)
  {
    var r := inp.srcRadius[j];
    SqDist(Block(inp.xtrg, inp.cd, NTrg(inp), t), Block(inp.xsrc, inp.cd, NSrc(inp), j)) < r * r
  }

  /** Some source node in [lo, hi) has target t in its near region. */
  function AnyNear(inp: NearInput, t: nat, lo: nat, hi: nat): bool
    requires WellFormed(inp) && t < NTrg(inp) && lo <= hi <= NSrc(inp)
    decreases hi - lo
  {
    lo < hi && (NearNode(inp, t, lo) || AnyNear(inp, t, lo + 1, hi))
  }

  lemma {:induction false} AnyNearIff(inp: NearInput, t: nat, lo: nat, hi: nat)
    requires WellFormed(inp) && t < NTrg(inp) && lo <= hi <= NSrc(inp)
    ensures AnyNear(inp, t, lo, hi) <==> exists j :: lo <= j < hi && NearNode(inp, t, j)
    decreases hi - lo
  {
    if lo < hi {
      AnyNearIff(inp, t, lo + 1, hi);
      if exists j :: lo <= j < hi && NearNode(inp, t, j) {
        var j :| lo <= j < hi && NearNode(inp, t, j);
        assert j == lo || (lo + 1 <= j < hi && NearNode(inp, t, j));
      }
    }
  }

  /** Target t is near element e: near one of the element's source nodes. */
  predicate NearElem(inp: NearInput, t: nat, e: nat)
    requires WellFormed(inp) && t < NTrg(inp) && e < NElem(inp)
  {
    AnyNear(inp, t, inp.elemNdsDsp[e], inp.elemNdsDsp[e] + inp.elemNdsCnt[e])
  }

  /** A target is near an element exactly when it is near a source node j with dsp[e] <= j < dsp[e] + cnt[e]. */
  lemma NearElemIff(inp: NearInput, t: nat, e: nat)
    requires WellFormed(inp) && t < NTrg(inp) && e < NElem(inp)
    ensures NearElem(inp, t, e) <==>
            exists j :: inp.elemNdsDsp[e] <= j < inp.elemNdsDsp[e] + inp.elemNdsCnt[e] && NearNode(inp, t, j)
  {
    AnyNearIff(inp, t, inp.elemNdsDsp[e], inp.elemNdsDsp[e] + inp.elemNdsCnt[e]);
  }

  // ---- the near list in element order ----

  /** The targets among [0, m) that are near element e, in increasing order. */
  function NearTargets(inp: NearInput, e: nat, m: nat): seq<nat>
    requires WellFormed(inp) && e < NElem(inp) && m <= NTrg(inp)
  {
    if m == 0 then [] else NearTargets(inp, e, m - 1) + (if NearElem(inp, m - 1, e) then [m - 1] else [])
  }

  /** r lists the targets below m that are near element e, each once, in increasing order. */
  predicate IsNearRun(inp: NearInput, e: nat, m: nat, r: seq<nat>)
    requires WellFormed(inp) && e < NElem(inp) && m <= NTrg(inp)
  {
    && (forall i :: 0 <= i < |r| ==> r[i] < m && NearElem(inp, r[i], e))
    && (forall i, j :: 0 <= i < j < |r| ==> r[i] < r[j])
    && (forall t :: 0 <= t < m && NearElem(inp, t, e) ==> t in r)
  }

  lemma {:induction false} NearTargetsSpec(inp: NearInput, e: nat, m: nat)
    requires WellFormed(inp) && e < NElem(inp) && m <= NTrg(inp)
    ensures IsNearRun(inp, e, m, NearTargets(inp, e, m))
  {
    if m > 0 {
      var n := m - 1;
      var front := NearTargets(inp, e, n);
      var tail: seq<nat> := if NearElem(inp, n, e) then [n] else [];
      var r := NearTargets(inp, e, m);
      NearTargetsSpec(inp, e, n);
      assert r == front + tail;
      forall i | 0 <= i < |r| ensures r[i] < m && NearElem(inp, r[i], e) {
        if i < |front| {
          assert r[i] == front[i];
        }
      }
      forall i, j | 0 <= i < j < |r| ensures r[i] < r[j] {
        if j >= |front| {
          assert r[i] == front[i] && r[j] == n;
        }
      }
      forall t | 0 <= t < m && NearElem(inp, t, e) ensures t in r {
        if t < n {
          assert t in front;
        } else {
          assert r[|front|] == n;
        }
      }
    }
  }

  /** The runs of the first k elements. */
  function TrgRuns(inp: NearInput, k: nat): seq<seq<nat>>
    requires WellFormed(inp) && k <= NElem(inp)
  {
    seq(k, e requires 0 <= e < k => NearTargets(inp, e, NTrg(inp)))
  }

  /** For each entry of the near list, the target it stands for, element by element. */
  function NearAll(inp: NearInput): (r: seq<nat>)
    requires WellFormed(inp)
    ensures IndicesBelow(r, NTrg(inp))
  {
    var runs := TrgRuns(inp, NElem(inp));
    var n := NTrg(inp);
    assert IndicesBelow(Concat<nat>(runs), n) by {
      forall k | 0 <= k < |runs| ensures IndicesBelow(runs[k], n) {
        NearTargetsSpec(inp, k, n);
      }
      forall q | 0 <= q < |Concat<nat>(runs)| ensures Concat<nat>(runs)[q] < n {
        ConcatBelow(runs, n, q);
      }
    }
    Concat<nat>(runs)
  }

  lemma {:induction false} ConcatBelow(runs: seq<seq<nat>>, n: nat, q: nat)
    requires forall k :: 0 <= k < |runs| ==> IndicesBelow(runs[k], n)
    requires q < |Concat<nat>(runs)|
    ensures Concat<nat>(runs)[q] < n
  {
    var m := |runs| - 1;
    var front := runs[..m];
    assert Concat<nat>(runs) == Concat<nat>(front) + runs[m];
    if q >= |Concat<nat>(front)| {
      assert Concat<nat>(runs)[q] == runs[m][q - |Concat<nat>(front)|];
    } else {
      ConcatBelow(front, n, q);
    }
  }

  // ---- the same pairs in target order ----

  /** The positions i of q with q[i] == t, in increasing order. */
  function Positions(q: seq<nat>, t: nat): seq<nat>
  {
    if q == [] then [] else Positions(q[..|q| - 1], t) + (if q[|q| - 1] == t then [|q| - 1] else [])
  }

  /** r lists the positions of q that hold t, each once, in increasing order. */
  predicate IsPositions(q: seq<nat>, t: nat, r: seq<nat>)
  {
    && (forall i :: 0 <= i < |r| ==> r[i] < |q| && q[r[i]] == t)
    && (forall i, j :: 0 <= i < j < |r| ==> r[i] < r[j])
    && (forall i :: 0 <= i < |q| && q[i] == t ==> i in r)
  }

  lemma {:induction false} PositionsSpec(q: seq<nat>, t: nat)
    ensures IsPositions(q, t, Positions(q, t))
  {
    if q != [] {
      var n := |q| - 1;
      var front := Positions(q[..n], t);
      var tail: seq<nat> := if q[n] == t then [n] else [];
      var r := Positions(q, t);
      PositionsSpec(q[..n], t);
      assert r == front + tail;
      forall i | 0 <= i < |r| ensures r[i] < |q| && q[r[i]] == t {
        if i < |front| {
          assert r[i] == front[i] && q[front[i]] == q[..n][front[i]];
        }
      }
      forall i, j | 0 <= i < j < |r| ensures r[i] < r[j] {
        if j >= |front| {
          assert r[j] == n;
        }
      }
      forall i | 0 <= i < |q| && q[i] == t ensures i in r {
        if i < n {
          assert q[..n][i] == t;
          assert i in front;
        } else {
          assert r[|front|] == n;
        }
      }
    }
  }

  /** The positions of every target among [0, m), target after target. */
  function PosRuns(q: seq<nat>, m: nat): seq<seq<nat>>
  {
    seq(m, (t: int) requires 0 <= t < m => Positions(q, t))
  }

  /** near_scatter_index: position k of the target-sorted list holds entry ScatterIndex(q, m)[k] of q. */
  function ScatterIndex(q: seq<nat>, m: nat): seq<nat>
  {
    if m == 0 then [] else ScatterIndex(q, m - 1) + Positions(q, m - 1)
  }

  /** The scatter index is the positions of each target, run after run. */
  lemma {:induction false} ScatterIndexConcat(q: seq<nat>, m: nat)
    ensures ScatterIndex(q, m) == Concat<nat>(PosRuns(q, m))
  {
    if m > 0 {
      ScatterIndexConcat(q, m - 1);
      assert PosRuns(q, m)[..m - 1] == PosRuns(q, m - 1);
    }
  }

  lemma PositionsSnoc(q: seq<nat>, x: nat, t: nat)
    ensures Positions(q + [x], t) == Positions(q, t) + (if x == t then [|q|] else [])
  {
    assert (q + [x])[..|q|] == q;
  }

  /** The single position n, when b holds. */
  function Added(n: nat, b: bool): multiset<nat>
  {
    if b then multiset{n} else multiset{}
  }

  lemma PositionsSnocMultiset(q: seq<nat>, x: nat, t: nat)
    ensures multiset(Positions(q + [x], t)) == multiset(Positions(q, t)) + Added(|q|, x == t)
  {
    PositionsSnoc(q, x, t);
  }

  lemma AddedSplit(n: nat, x: nat, m: nat)
    ensures Added(n, x < m) + Added(n, x == m) == Added(n, x < m + 1)
  {
  }

  lemma {:induction false} ScatterIndexSnoc(q: seq<nat>, x: nat, m: nat)
    ensures multiset(ScatterIndex(q + [x], m)) == multiset(ScatterIndex(q, m)) + Added(|q|, x < m)
  {
    if m > 0 {
      var m': nat := m - 1;
      var q' := q + [x];
      var a, b := ScatterIndex(q, m'), Positions(q, m');
      var a', b' := ScatterIndex(q', m'), Positions(q', m');
      assert ScatterIndex(q', m) == a' + b';
      assert ScatterIndex(q, m) == a + b;
      ScatterIndexSnoc(q, x, m');
      PositionsSnocMultiset(q, x, m');
      AddedSplit(|q|, x, m');
      calc {
        multiset(a' + b');
        multiset(a') + multiset(b');
        (multiset(a) + Added(|q|, x < m')) + (multiset(b) + Added(|q|, x == m'));
        (multiset(a) + multiset(b)) + (Added(|q|, x < m') + Added(|q|, x == m'));
        multiset(a + b) + Added(|q|, x < m);
      }
    }
  }

  lemma {:induction false} ScatterIndexEmpty(m: nat)
    ensures ScatterIndex([], m) == []
  {
    if m > 0 {
      ScatterIndexEmpty(m - 1);
    }
  }

  /** When every entry of q names a target below m, the scatter index lists each position of q once. */
  lemma {:induction false} ScatterIndexMultiset(q: seq<nat>, m: nat)
    requires IndicesBelow(q, m)
    ensures multiset(ScatterIndex(q, m)) == multiset(Iota(|q|))
  {
    if q == [] {
      ScatterIndexEmpty(m);
    } else {
      var n := |q| - 1;
      var front, x := q[..n], q[n];
      assert q == front + [x];
      assert IndicesBelow(front, m) && x < m;
      ScatterIndexMultiset(front, m);
      ScatterIndexSnoc(front, x, m);
      calc {
        multiset(ScatterIndex(q, m));
        multiset(ScatterIndex(front, m)) + Added(n, x < m);
        multiset(Iota(n)) + multiset{n};
        { assert Iota(|q|) == Iota(n) + [n]; }
        multiset(Iota(|q|));
      }
    }
  }

  lemma ScatterIndexLength(q: seq<nat>, m: nat)
    requires IndicesBelow(q, m)
    ensures |ScatterIndex(q, m)| == |q|
  {
    ScatterIndexMultiset(q, m);
    assert |multiset(ScatterIndex(q, m))| == |multiset(Iota(|q|))|;
  }

  /** near_scatter_index is a permutation of [0, Nnear). */
  lemma ScatterIndexPermutation(q: seq<nat>, m: nat)
    requires IndicesBelow(q, m)
    ensures |ScatterIndex(q, m)| == |q| && IsPermutation(ScatterIndex(q, m))
  {
    var idx := ScatterIndex(q, m);
    ScatterIndexMultiset(q, m);
    assert |multiset(idx)| == |multiset(Iota(|q|))|;
    PermutationMultiset(idx);
  }

  /** After reordering by the scatter index, run t holds the entries whose target is t, in their original order. */
  lemma TargetRun(q: seq<nat>, m: nat, t: nat, i: nat)
    requires t < m && i < |Positions(q, t)|
    ensures 0 <= Offsets(Lengths(PosRuns(q, m)))[t] + i < |ScatterIndex(q, m)|
    ensures ScatterIndex(q, m)[Offsets(Lengths(PosRuns(q, m)))[t] + i] == Positions(q, t)[i]
    ensures Positions(q, t)[i] < |q| && q[Positions(q, t)[i]] == t
  {
    var runs := PosRuns(q, m);
    assert runs[t] == Positions(q, t);
    ConcatIndex(runs, t, i);
    var o := Offsets(Lengths(runs))[t];
    assert o == |Concat(runs[..t])|;
    ScatterIndexConcat(q, m);
    assert ScatterIndex(q, m)[o + i] == runs[t][i];
    PositionsNameTarget(q, t, i);
  }

  // ---- the result ----

  /** The seven outputs of BuildNearList. */
  datatype NearList = NearList(xtrgNear: seq<int>, xnTrgNear: seq<int>, nearElemCnt: seq<int>, nearElemDsp: seq<int>,
                               nearScatterIndex: seq<nat>, nearTrgCnt: seq<int>, nearTrgDsp: seq<int>)

  /** Exclusive prefix sums: where each run starts. */
  function Offsets(cnt: seq<int>): (r: seq<int>)
    ensures |r| == |cnt| && forall i :: 0 <= i < |cnt| ==> r[i] == Sum(cnt[..i])
  {
    seq(|cnt|, i requires 0 <= i < |cnt| => Sum(cnt[..i]))
  }

  /** near_elem_cnt: the length of each element's run. */
  function ElemCounts(inp: NearInput): seq<int>
    requires WellFormed(inp)
  {
    Lengths(TrgRuns(inp, NElem(inp)))
  }

  /** near_trg_cnt: the number of near pairs of each target. */
  function TrgCounts(inp: NearInput): seq<int>
    requires WellFormed(inp)
  {
    Lengths(PosRuns(NearAll(inp), NTrg(inp)))
  }

  /** near_scatter_index. */
  function NearScatter(inp: NearInput): seq<nat>
    requires WellFormed(inp)
  {
    ScatterIndex(NearAll(inp), NTrg(inp))
  }

  /** What BuildNearList produces, as a function of its inputs. */
  function NearListOf(inp: NearInput): NearList
    requires WellFormed(inp)
  {
    var near := NearAll(inp);
    var n := NTrg(inp);
    NearList(GatherBlocks(inp.xtrg, inp.cd, n, near),
             if inp.xnTrg == [] then [] else GatherBlocks(inp.xnTrg, inp.cd, n, near),
             ElemCounts(inp), Offsets(ElemCounts(inp)), NearScatter(inp), TrgCounts(inp), Offsets(TrgCounts(inp)))
  }

  /**
   * Element side: near_elem_cnt[e] counts the targets near element e,
   * near_elem_dsp is its exclusive scan, and element e's run of the near list
   * lists exactly those targets in increasing order.
   */
  lemma NearListElements(inp: NearInput)
    requires WellFormed(inp)
    ensures |ElemCounts(inp)| == NElem(inp)
    ensures forall e :: 0 <= e < NElem(inp) ==> ElemCounts(inp)[e] == |NearTargets(inp, e, NTrg(inp))|
    ensures |NearAll(inp)| == Sum(ElemCounts(inp))
    ensures forall e :: 0 <= e < NElem(inp) ==>
              0 <= Offsets(ElemCounts(inp))[e] && Offsets(ElemCounts(inp))[e] + ElemCounts(inp)[e] <= |NearAll(inp)|
    ensures forall e, i :: 0 <= e < NElem(inp) && 0 <= i < ElemCounts(inp)[e] ==>
              NearAll(inp)[Offsets(ElemCounts(inp))[e] + i] == NearTargets(inp, e, NTrg(inp))[i]
  {
    ConcatLength(TrgRuns(inp, NElem(inp)));
    forall e | 0 <= e < NElem(inp)
      ensures 0 <= Offsets(ElemCounts(inp))[e] && Offsets(ElemCounts(inp))[e] + ElemCounts(inp)[e] <= |NearAll(inp)|
    {
      ConcatPrefix(TrgRuns(inp, NElem(inp)), e);
    }
    forall e, i | 0 <= e < NElem(inp) && 0 <= i < ElemCounts(inp)[e]
      ensures NearAll(inp)[Offsets(ElemCounts(inp))[e] + i] == NearTargets(inp, e, NTrg(inp))[i]
    {
      ElementRun(inp, e, i);
    }
  }

  /** Xtrg_near holds COORD_DIM values per near pair; Xn_trg_near too when normals are given, and is empty otherwise. */
  lemma NearListCoordinateLengths(inp: NearInput)
    requires WellFormed(inp)
    ensures |NearListOf(inp).xtrgNear| == |NearAll(inp)| * inp.cd
    ensures inp.xnTrg == [] ==> NearListOf(inp).xnTrgNear == []
    ensures inp.xnTrg != [] ==> |NearListOf(inp).xnTrgNear| == |NearAll(inp)| * inp.cd
  {
  }

  /** Each near entry carries its target's coordinates, and its normal when normals are given. */
  lemma NearListCoordinates(inp: NearInput, k: nat)
    requires WellFormed(inp) && k < |NearAll(inp)|
    ensures |NearListOf(inp).xtrgNear| == |NearAll(inp)| * inp.cd
    ensures Block(NearListOf(inp).xtrgNear, inp.cd, |NearAll(inp)|, k)
            == Block(inp.xtrg, inp.cd, NTrg(inp), NearAll(inp)[k])
    ensures inp.xnTrg == [] ==> NearListOf(inp).xnTrgNear == []
    ensures inp.xnTrg != [] ==>
              |NearListOf(inp).xnTrgNear| == |NearAll(inp)| * inp.cd
              && Block(NearListOf(inp).xnTrgNear, inp.cd, |NearAll(inp)|, k)
                 == Block(inp.xnTrg, inp.cd, NTrg(inp), NearAll(inp)[k])
  {
    GatherBlocksItem(inp.xtrg, inp.cd, NTrg(inp), NearAll(inp), k);
    if inp.xnTrg != [] {
      GatherBlocksItem(inp.xnTrg, inp.cd, NTrg(inp), NearAll(inp), k);
    }
  }

  /** near_scatter_index is a permutation of [0, Nnear). */
  lemma NearScatterPermutation(inp: NearInput)
    requires WellFormed(inp)
    ensures |NearScatter(inp)| == |NearAll(inp)| && IsPermutation(NearScatter(inp))
  {
    ScatterIndexPermutation(NearAll(inp), NTrg(inp));
  }

  /** Target t's run lies inside the scatter index, at the exclusive scan of the counts. */
  lemma TargetBounds(q: seq<nat>, m: nat, t: nat)
    requires IndicesBelow(q, m) && t < m
    ensures 0 <= Offsets(Lengths(PosRuns(q, m)))[t]
    ensures Offsets(Lengths(PosRuns(q, m)))[t] + Lengths(PosRuns(q, m))[t] <= |q|
  {
    ConcatPrefix(PosRuns(q, m), t);
    TargetTotal(q, m);
  }

  /** The per-target counts add up to |q|, the length of the scatter index. */
  lemma TargetTotal(q: seq<nat>, m: nat)
    requires IndicesBelow(q, m)
    ensures |Concat<nat>(PosRuns(q, m))| == |ScatterIndex(q, m)| == |q|
    ensures Sum(Lengths(PosRuns(q, m))) == |q|
  {
    ScatterIndexConcat(q, m);
    ConcatLength(PosRuns(q, m));
    ScatterIndexLength(q, m);
  }

  /**
   * Target side of BuildNearList, counts: near_trg_cnt has one entry per
   * target, entry t counts the near pairs of target t, and they add up to
   * Nnear, the length of near_scatter_index.
   */
  lemma NearListTargetCounts(inp: NearInput)
    requires WellFormed(inp)
    ensures |NearScatter(inp)| == |NearAll(inp)|
    ensures |TrgCounts(inp)| == NTrg(inp)
    ensures forall t :: 0 <= t < NTrg(inp) ==> TrgCounts(inp)[t] == |Positions(NearAll(inp), t)|
    ensures Sum(TrgCounts(inp)) == |NearAll(inp)|
  {
    TargetTotal(NearAll(inp), NTrg(inp));
  }

  /**
   * Target side of BuildNearList, runs: near_trg_dsp is the exclusive scan of
   * near_trg_cnt, and after reordering by the scatter index, the
   * near_trg_cnt[t] entries from near_trg_dsp[t] are exactly the near pairs
   * of target t, in element order.
   */
  lemma NearListTargets(inp: NearInput)
    requires WellFormed(inp)
    ensures |TrgCounts(inp)| == NTrg(inp) && |NearScatter(inp)| == |NearAll(inp)|
    ensures forall t :: 0 <= t < NTrg(inp) ==>
              0 <= Offsets(TrgCounts(inp))[t] && Offsets(TrgCounts(inp))[t] + TrgCounts(inp)[t] <= |NearAll(inp)|
    ensures forall t, i :: 0 <= t < NTrg(inp) && 0 <= i < TrgCounts(inp)[t] ==>
              NearScatter(inp)[Offsets(TrgCounts(inp))[t] + i] == Positions(NearAll(inp), t)[i]
  {
    NearListTargetBounds(inp);
    var q, m := NearAll(inp), NTrg(inp);
    forall t, i | 0 <= t < NTrg(inp) && 0 <= i < TrgCounts(inp)[t]
      ensures NearScatter(inp)[Offsets(TrgCounts(inp))[t] + i] == Positions(NearAll(inp), t)[i]
    {
      TargetRun(q, m, t, i);
    }
  }

  /** Each target's run, from near_trg_dsp[t] with near_trg_cnt[t] entries, lies inside near_scatter_index. */
  lemma NearListTargetBounds(inp: NearInput)
    requires WellFormed(inp)
    ensures |TrgCounts(inp)| == NTrg(inp) && |NearScatter(inp)| == |NearAll(inp)|
    ensures forall t :: 0 <= t < NTrg(inp) ==>
              0 <= Offsets(TrgCounts(inp))[t] && Offsets(TrgCounts(inp))[t] + TrgCounts(inp)[t] <= |NearAll(inp)|
  {
    var q, m := NearAll(inp), NTrg(inp);
    TargetTotal(q, m);
    forall t | 0 <= t < NTrg(inp)
      ensures 0 <= Offsets(TrgCounts(inp))[t] && Offsets(TrgCounts(inp))[t] + TrgCounts(inp)[t] <= |NearAll(inp)|
    {
      TargetBounds(q, m, t);
    }
  }

  /** Every entry of target t's run, once reordered, is a near pair of target t. */
  lemma PositionsNameTarget(q: seq<nat>, t: nat, i: nat)
    requires i < |Positions(q, t)|
    ensures Positions(q, t)[i] < |q| && q[Positions(q, t)[i]] == t
  {
    PositionsSpec(q, t);
  }

  /** The targets near element e, by a scan over all targets. */
  method ElementNearTargets(inp: NearInput, e: nat) returns (run: seq<nat>)
    requires WellFormed(inp) && e < NElem(inp)
    ensures run == NearTargets(inp, e, NTrg(inp))
  {
    run := [];
    var t := 0;
    while t < NTrg(inp)
      invariant t <= NTrg(inp) && run == NearTargets(inp, e, t)
    {
      if NearElem(inp, t, e) {
        run := run + [t];
      }
      t := t + 1;
    }
  }

  /** The points of x (dof values each) at the positions q, one after the other. */
  method GatherPoints(x: seq<int>, dof: nat, n: nat, q: seq<nat>) returns (xs: seq<int>)
    requires |x| == n * dof && IndicesBelow(q, n)
    ensures xs == GatherBlocks(x, dof, n, q)
  {
    xs := [];
    var i := 0;
    while i < |q|
      invariant i <= |q| && xs == GatherBlocks(x, dof, n, q[..i])
    {
      assert q[..i + 1][..i] == q[..i];
      xs := xs + Block(x, dof, n, q[i]);
      i := i + 1;
    }
    assert q[..|q|] == q;
  }

  /** near_trg_cnt: how many entries of q name each target in [0, m). */
  method CountTargets(q: seq<nat>, m: nat) returns (cnt: seq<int>)
    requires IndicesBelow(q, m)
    ensures |cnt| == m && forall t :: 0 <= t < m ==> cnt[t] == |Positions(q, t)|
  {
    cnt := seq(m, _ => 0);
    var i := 0;
    while i < |q|
      invariant i <= |q| && |cnt| == m
      invariant forall t :: 0 <= t < m ==> cnt[t] == |Positions(q[..i], t)|
    {
      assert q[..i + 1] == q[..i] + [q[i]];
      forall t | 0 <= t < m {
        PositionsSnoc(q[..i], q[i], t);
      }
      cnt := cnt[q[i] := cnt[q[i]] + 1];
      i := i + 1;
    }
    assert q[..|q|] == q;
  }

  /** The positions of q that name target t. */
  method PositionsOf(q: seq<nat>, t: nat) returns (run: seq<nat>)
    ensures run == Positions(q, t)
  {
    run := [];
    var i := 0;
    while i < |q|
      invariant i <= |q| && run == Positions(q[..i], t)
    {
      assert q[..i + 1] == q[..i] + [q[i]];
      PositionsSnoc(q[..i], q[i], t);
      if q[i] == t {
        run := run + [i];
      }
      i := i + 1;
    }
    assert q[..|q|] == q;
  }

  /** near_scatter_index: for each target in turn, the positions of q that name it. */
  method BuildScatterIndex(q: seq<nat>, m: nat) returns (idx: seq<nat>)
    ensures idx == ScatterIndex(q, m)
  {
    idx := [];
    var t := 0;
    while t < m
      invariant t <= m && idx == ScatterIndex(q, t)
    {
      var run := PositionsOf(q, t);
      idx := idx + run;
      t := t + 1;
    }
  }

  /** Entry i of element e's run is the i-th target near e. */
  lemma ElementRun(inp: NearInput, e: nat, i: nat)
    requires WellFormed(inp) && e < NElem(inp) && i < ElemCounts(inp)[e]
    ensures 0 <= Offsets(ElemCounts(inp))[e] + i < |NearAll(inp)|
    ensures NearAll(inp)[Offsets(ElemCounts(inp))[e] + i] == NearTargets(inp, e, NTrg(inp))[i]
  {
    ConcatIndex(TrgRuns(inp, NElem(inp)), e, i);
  }

  /** The near list element by element: the targets it stands for, and the count of each element. */
  method ElementNearList(inp: NearInput) returns (near: seq<nat>, cnt: seq<int>)
    requires WellFormed(inp)
    ensures near == NearAll(inp)
    ensures |cnt| == NElem(inp) && forall e :: 0 <= e < NElem(inp) ==> cnt[e] == |NearTargets(inp, e, NTrg(inp))|
  {
    near, cnt := [], [];
    var e := 0;
    while e < NElem(inp)
      invariant e <= NElem(inp) && near == Concat(TrgRuns(inp, e))
      invariant |cnt| == e && forall k :: 0 <= k < e ==> cnt[k] == |NearTargets(inp, k, NTrg(inp))|
    {
      var run := ElementNearTargets(inp, e);
      assert TrgRuns(inp, e + 1)[..e] == TrgRuns(inp, e);
      near := near + run;
      cnt := cnt + [|run|];
      e := e + 1;
    }
  }

  /**
   * BuildNearList: per-element counts and offsets of the near targets, their
   * coordinates (and normals), the scatter index into target order, and
   * per-target counts and offsets of the near pairs.
   */
  method BuildNearList(inp: NearInput) returns (out: NearList)
    requires WellFormed(inp)
    ensures out == NearListOf(inp)
  {
    var n := NTrg(inp);
    var near, elemCnt := ElementNearList(inp);
    var elemDsp := Tree.Scan(elemCnt);
    var xs := GatherPoints(inp.xtrg, inp.cd, n, near);
    var xn: seq<int> := [];
    if inp.xnTrg != [] {
      xn := GatherPoints(inp.xnTrg, inp.cd, n, near);
    }
    var idx := BuildScatterIndex(near, n);
    var trgCnt := CountTargets(near, n);
    var trgDsp := Tree.Scan(trgCnt);
    assert elemCnt == Lengths(TrgRuns(inp, NElem(inp)));
    assert elemDsp == Offsets(elemCnt);
    assert trgCnt == Lengths(PosRuns(near, n));
    assert trgDsp == Offsets(trgCnt);
    out := NearList(xs, xn, elemCnt, elemDsp, idx, trgCnt, trgDsp);
  }
}
