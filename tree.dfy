/**
 * The per-process state of the distributed tree (include/sctl/tree.hpp): the
 * node vectors (Morton ids, attributes, node lists) kept in parallel, and the
 * named node data, a flat buffer plus a per-node element count for each name.
 *
 * The refinement itself (Morton keys, distributed sorting, 2:1 balancing,
 * ghost exchange) is outside this model: UpdateRefinement takes its results
 * as parameters and only installs them.
 */
module Trees {

  /** Morton<DIM> ids are kept as opaque keys; the Morton class is not part of this model. */
  type Morton = nat

  /** The sum of a sequence of counts. */
  function Sum(s: seq<int>): int
  {
    if s == [] then 0 else Sum(s[..|s| - 1]) + s[|s| - 1]
  }

  lemma SumAppend(s: seq<int>, x: int)
    ensures Sum(s + [x]) == Sum(s) + x
  {
    assert (s + [x])[..|s|] == s;
  }

  function Pow(b: nat, e: nat): nat
  {
    if e == 0 then 1 else b * Pow(b, e - 1)
  }

  lemma PowPositive(b: nat, e: nat)
    requires b > 0
    ensures Pow(b, e) > 0
  {
  }

  /** Tree::NodeAttr: the Leaf and Ghost bits of a node. */
  datatype NodeAttr = NodeAttr(isLeaf: bool, isGhost: bool)

  /** Tree::NodeLists: slot among the siblings, parent, 2^DIM children, 3^DIM same-level neighbours. */
  datatype NodeLists = NodeLists(p2n: int, parent: int, child: seq<int>, nbr: seq<int>)

  /** The layout of NodeLists for a DIM-dimensional tree. */
  predicate ListsShaped(dim: nat, l: NodeLists)
  {
    0 <= l.p2n < Pow(2, dim) && |l.child| == Pow(2, dim) && |l.nbr| == Pow(3, dim)
  }

  /**
   * The node list of a root that is the only node: it is child 0 of no
   * parent, has no children, and its one same-level neighbour is itself, in
   * the middle of the 3^DIM table (direction 0 in every dimension).
   */
  function RootLists(dim: nat): (r: NodeLists)
    ensures ListsShaped(dim, r)
  {
    PowPositive(2, dim);
    NodeLists(0, -1, seq(Pow(2, dim), _ => -1), seq(Pow(3, dim), k => if k == Pow(3, dim) / 2 then 0 else -1))
  }

  /** The node vectors are parallel: one Morton id, one attribute and one node list per node. */
  predicate NodesShaped(dim: nat, mid: seq<Morton>, attr: seq<NodeAttr>, lst: seq<NodeLists>)
  {
    |attr| == |mid| && |lst| == |mid| && forall k :: 0 <= k < |lst| ==> ListsShaped(dim, lst[k])
  }

  /** A dataset fits n nodes: one non-negative count per node, and as many values as the counts add up to. */
  predicate CountsFit(n: nat, data: seq<int>, cnt: seq<int>)
  {
    |cnt| == n && (forall k :: 0 <= k < |cnt| ==> cnt[k] >= 0) && |data| == Sum(cnt)
  }

  /** node_data and node_cnt hold the same names, and every dataset fits the n nodes. */
  predicate DataShaped(n: nat, data: map<string, seq<int>>, cnt: map<string, seq<int>>)
  {
    data.Keys == cnt.Keys && forall name :: name in data ==> CountsFit(n, data[name], cnt[name])
  }

  class Tree {
    /** DIM, the number of spatial dimensions (Tree::Dim()). */
    const dim: nat
    /** mins: the Morton ids partitioning the process domains. */
    var mins: seq<Morton>
    /** node_mid, node_attr, node_lst. */
    var nodeMid: seq<Morton>
    var nodeAttr: seq<NodeAttr>
    var nodeLst: seq<NodeLists>
    /** node_data and node_cnt. */
    var nodeData: map<string, seq<int>>
    var nodeCnt: map<string, seq<int>>

    ghost predicate Valid()
      reads this
    {
      NodesShaped(dim, nodeMid, nodeAttr, nodeLst) && DataShaped(|nodeMid|, nodeData, nodeCnt)
    }

    /**
     * A new tree is the refinement of no points on one process: a single
     * root leaf, with Morton id 0, which also starts the one process domain.
     */
    constructor (dim: nat)
      ensures Valid() && this.dim == dim
      ensures mins == [0] && nodeMid == [0] && nodeAttr == [NodeAttr(true, false)] && nodeLst == [RootLists(dim)]
      ensures nodeData == map[] && nodeCnt == map[]
    {
      this.dim := dim;
      mins, nodeMid, nodeAttr, nodeLst := [0], [0], [NodeAttr(true, false)], [RootLists(dim)];
      nodeData, nodeCnt := map[], map[];
    }

    /**
     * Tree::scan: the displacement of each node's first element, given the
     * per-node counts: dsp[0] = 0 and dsp[i + 1] = dsp[i] + cnt[i].
     */
    static method Scan(cnt: seq<int>) returns (dsp: seq<int>)
      ensures |dsp| == |cnt|
      ensures forall i :: 0 <= i < |cnt| ==> dsp[i] == Sum(cnt[..i])
      ensures |cnt| > 0 ==> dsp[0] == 0
      ensures forall i :: 0 <= i < |cnt| - 1 ==> dsp[i + 1] == dsp[i] + cnt[i]
      ensures |cnt| > 0 ==> dsp[|cnt| - 1] + cnt[|cnt| - 1] == Sum(cnt)
    {
      dsp := [];
      var acc := 0;
      var i := 0;
      while i < |cnt|
        invariant 0 <= i <= |cnt| && |dsp| == i
        invariant acc == Sum(cnt[..i])
        invariant forall k :: 0 <= k < i ==> dsp[k] == Sum(cnt[..k])
      {
        dsp := dsp + [acc];
        assert cnt[..i + 1] == cnt[..i] + [cnt[i]];
        SumAppend(cnt[..i], cnt[i]);
        acc := acc + cnt[i];
        i := i + 1;
      }
      forall i | 0 <= i < |cnt| ensures Sum(cnt[..i + 1]) == Sum(cnt[..i]) + cnt[i] {
        assert cnt[..i + 1] == cnt[..i] + [cnt[i]];
        SumAppend(cnt[..i], cnt[i]);
      }
      assert cnt[..|cnt|] == cnt;
    }

    /** GetPartitionMID(). */
    function GetPartitionMID(): seq<Morton>
      reads this
    {
      mins
    }

    /** GetNodeMID(): one Morton id per node, parallel to the attributes and node lists. */
    function GetNodeMID(): (r: seq<Morton>)
      reads this
      requires Valid()
      ensures |r| == |nodeAttr| && |r| == |nodeLst|
    {
      nodeMid
    }

    /** GetNodeAttr(): one attribute per node. */
    function GetNodeAttr(): (r: seq<NodeAttr>)
      reads this
      requires Valid()
      ensures |r| == |nodeMid|
    {
      nodeAttr
    }

    /** GetNodeLists(): one node list per node, each with 2^DIM children and 3^DIM neighbours. */
    function GetNodeLists(): (r: seq<NodeLists>)
      reads this
      requires Valid()
      ensures |r| == |nodeMid|
      ensures forall k :: 0 <= k < |r| ==> ListsShaped(dim, r[k])
    {
      nodeLst
    }

    /**
     * UpdateRefinement, as the step that installs a new refinement: the new
     * partition, the new node vectors, and every existing dataset
     * redistributed to the new nodes. Computing them is not part of this model.
     */
    method UpdateRefinement(newMins: seq<Morton>, newMid: seq<Morton>, newAttr: seq<NodeAttr>,
                            newLst: seq<NodeLists>, newData: map<string, seq<int>>,
                            newCnt: map<string, seq<int>>)
      requires Valid()
      requires NodesShaped(dim, newMid, newAttr, newLst)
      requires newData.Keys == nodeData.Keys && DataShaped(|newMid|, newData, newCnt)
      modifies this
      ensures Valid()
      ensures mins == newMins && nodeMid == newMid && nodeAttr == newAttr && nodeLst == newLst
      ensures nodeData == newData && nodeCnt == newCnt
      ensures nodeData.Keys == old(nodeData.Keys)
    {
      mins, nodeMid, nodeAttr, nodeLst := newMins, newMid, newAttr, newLst;
      nodeData, nodeCnt := newData, newCnt;
    }

    /** AddData(name, data, cnt): store a dataset with one count per node; a previous dataset of that name is replaced. */
    method AddData(name: string, data: seq<int>, cnt: seq<int>)
      requires Valid() && CountsFit(|nodeMid|, data, cnt)
      modifies this
      ensures Valid()
      ensures nodeData == old(nodeData)[name := data] && nodeCnt == old(nodeCnt)[name := cnt]
      ensures mins == old(mins) && nodeMid == old(nodeMid) && nodeAttr == old(nodeAttr) && nodeLst == old(nodeLst)
    {
      nodeData := nodeData[name := data];
      nodeCnt := nodeCnt[name := cnt];
    }

    /** GetData(data, cnt, name): the stored buffer and per-node counts of a registered name. */
    method GetData(name: string) returns (data: seq<int>, cnt: seq<int>)
      requires Valid() && name in nodeData
      ensures data == nodeData[name] && cnt == nodeCnt[name]
      ensures |cnt| == |nodeMid| && |data| == Sum(cnt)
    {
      data, cnt := nodeData[name], nodeCnt[name];
    }

    /** DeleteData(name): remove a registered name from node_data and node_cnt and nothing else. */
    method DeleteData(name: string)
      requires Valid() && name in nodeData
      modifies this
      ensures Valid()
      ensures nodeData == old(nodeData) - {name} && nodeCnt == old(nodeCnt) - {name}
      ensures mins == old(mins) && nodeMid == old(nodeMid) && nodeAttr == old(nodeAttr) && nodeLst == old(nodeLst)
    {
      nodeData := nodeData - {name};
      nodeCnt := nodeCnt - {name};
    }
  }

  /** AddData followed by GetData gives back exactly what was added. */
  method AddThenGetData(t: Tree, name: string, data: seq<int>, cnt: seq<int>)
      returns (data': seq<int>, cnt': seq<int>)
    requires t.Valid() && CountsFit(|t.nodeMid|, data, cnt)
    modifies t
    ensures t.Valid() && data' == data && cnt' == cnt
  {
    t.AddData(name, data, cnt);
    data', cnt' := t.GetData(name);
  }

  /** DeleteData of one name leaves every other name's dataset as it was. */
  method DeleteKeepsOthers(t: Tree, name: string, other: string)
    requires t.Valid() && name in t.nodeData && other in t.nodeData && other != name
    modifies t
    ensures t.Valid() && name !in t.nodeData && name !in t.nodeCnt
    ensures other in t.nodeData && t.nodeData[other] == old(t.nodeData[other])
    ensures t.nodeCnt[other] == old(t.nodeCnt[other])
  {
    t.DeleteData(name);
  }
}
