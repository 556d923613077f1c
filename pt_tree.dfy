/**
 * PtTree (include/sctl/tree.hpp): a tree that carries groups of particles.
 * A group's particles are kept sorted by Morton id; `scatter_idx` records
 * where each sorted particle came from. Particle data is stored as node data
 * of the underlying tree, in the sorted order, and is scattered back to the
 * caller's original particle order when it is read.
 *
 * What depends on Morton geometry is taken as parameters: the particles'
 * Morton ids, the sorting permutation, and the number of a group's particles
 * that fall into each tree node, given when the group is added and again at
 * each refinement. Every dataset of a group takes its per-node counts from
 * the group.
 */
module PtTrees {
  import opened Trees
  import opened Scatter
  import opened RowMajor

  /** The values per particle of a dataset of len values spread over n particles. */
  function Dof(len: nat, n: nat): nat
  {
    if n == 0 then 0 else len / n
  }

  /** A dataset of len values holds the same number of values for each of n particles. */
  predicate SplitsEvenly(len: nat, n: nat)
  {
    if n == 0 then len == 0 else len % n == 0
  }

  lemma DofSplits(len: nat, n: nat)
    requires SplitsEvenly(len, n)
    ensures len == n * Dof(len, n)
  {
  }

  /** A dataset of dof values for each of n > 0 particles has Dof dof. */
  lemma DofOfProduct(n: nat, dof: nat)
    requires n > 0
    ensures Dof(n * dof, n) == dof
  {
    DivModUnique(dof, n, 0);
  }

  predicate Sorted(s: seq<Morton>)
  {
    forall i, j :: 0 <= i < j < |s| ==> s[i] <= s[j]
  }

  /** Per-node value counts of a dataset with dof values per particle. */
  function Scale(cnt: seq<int>, dof: nat): (r: seq<int>)
    ensures |r| == |cnt| && forall k :: 0 <= k < |cnt| ==> r[k] == dof * cnt[k]
  {
    if cnt == [] then [] else Scale(cnt[..|cnt| - 1], dof) + [dof * cnt[|cnt| - 1]]
  }

  lemma {:induction false} SumScale(cnt: seq<int>, dof: nat)
    ensures Sum(Scale(cnt, dof)) == dof * Sum(cnt)
  {
    if cnt != [] {
      var front := cnt[..|cnt| - 1];
      SumScale(front, dof);
      assert Scale(cnt, dof)[..|cnt| - 1] == Scale(front, dof);
    }
  }

  /** The particle counts of the nodes of a tree: one non-negative count per node, n particles in all. */
  predicate ParticleCountsFit(nodes: nat, ptCnt: seq<int>, n: nat)
  {
    |ptCnt| == nodes && (forall k :: 0 <= k < |ptCnt| ==> ptCnt[k] >= 0) && Sum(ptCnt) == n
  }

  lemma ScaledCountsFit(nodes: nat, ptCnt: seq<int>, n: nat, dof: nat, sorted: seq<int>)
    requires ParticleCountsFit(nodes, ptCnt, n) && |sorted| == n * dof
    ensures CountsFit(nodes, sorted, Scale(ptCnt, dof))
  {
    var r := Scale(ptCnt, dof);
    forall k | 0 <= k < |r| ensures r[k] >= 0 {
      MulNonNegative(dof, ptCnt[k]);
    }
    SumScale(ptCnt, dof);
    assert Sum(r) == dof * n;
    MulCommutes(dof, n);
  }

  lemma MulNonNegative(a: nat, b: int)
    requires b >= 0
    ensures a * b >= 0
  {
  }

  lemma MulCommutes(a: int, b: int)
    ensures a * b == b * a
  {
  }

  /** `stored` is `values` (dof values per particle, original particle order) gathered into the sorted order `p`. */
  predicate StoredSorted(values: seq<int>, dof: nat, n: nat, p: seq<nat>, stored: seq<int>)
  {
    |p| == n && IndicesBelow(p, n) && |values| == n * dof && stored == GatherBlocks(values, dof, n, p)
  }

  /**
   * One particle group: its Morton ids in sorted order (pt_mid), its scatter
   * index (scatter_idx), whose length is the group's Nlocal, and the number
   * of its particles in each node of the current refinement.
   */
  datatype Group = Group(mid: seq<Morton>, scatter: seq<nat>, cnt: seq<int>)

  /** A group has one sorted Morton id and one scatter index per particle, the indices a permutation, and counts that fit the nodes. */
  predicate GroupValid(nodes: nat, gr: Group)
  {
    |gr.mid| == |gr.scatter| && Sorted(gr.mid) && IsPermutation(gr.scatter)
    && ParticleCountsFit(nodes, gr.cnt, |gr.scatter|)
  }

  predicate GroupsValid(nodes: nat, groups: map<string, Group>)
  {
    forall g :: g in groups ==> GroupValid(nodes, groups[g])
  }

  /** Every dataset's per-node counts: dof times its group's particle count in each node. */
  function NodeCounts(groups: map<string, Group>, dataPtName: map<string, string>, dataDof: map<string, nat>)
    : (r: map<string, seq<int>>)
    requires forall d :: d in dataPtName ==> d in dataDof && dataPtName[d] in groups
    ensures r.Keys == dataPtName.Keys
    ensures forall d :: d in dataPtName ==> r[d] == Scale(groups[dataPtName[d]].cnt, dataDof[d])
  {
    map d | d in dataPtName :: Scale(groups[dataPtName[d]].cnt, dataDof[d])
  }

  /** Recording a dataset d of group g with dof values per particle adds its scaled counts and nothing else. */
  lemma NodeCountsStore(groups: map<string, Group>, dataPtName: map<string, string>, dataDof: map<string, nat>,
                        d: string, g: string, dof: nat)
    requires forall e :: e in dataPtName ==> e in dataDof && dataPtName[e] in groups
    requires g in groups
    ensures NodeCounts(groups, dataPtName[d := g], dataDof[d := dof])
         == NodeCounts(groups, dataPtName, dataDof)[d := Scale(groups[g].cnt, dof)]
  {
    var l := NodeCounts(groups, dataPtName[d := g], dataDof[d := dof]);
    var r := NodeCounts(groups, dataPtName, dataDof)[d := Scale(groups[g].cnt, dof)];
    assert l.Keys == r.Keys;
    forall e | e in l ensures l[e] == r[e] {
    }
  }

  /** Forgetting a dataset drops its counts and nothing else. */
  lemma NodeCountsDrop(groups: map<string, Group>, dataPtName: map<string, string>, dataDof: map<string, nat>, d: string)
    requires forall e :: e in dataPtName ==> e in dataDof && dataPtName[e] in groups
    ensures NodeCounts(groups, dataPtName - {d}, dataDof - {d}) == NodeCounts(groups, dataPtName, dataDof) - {d}
  {
    var l := NodeCounts(groups, dataPtName - {d}, dataDof - {d});
    var r := NodeCounts(groups, dataPtName, dataDof) - {d};
    assert l.Keys == r.Keys;
    forall e | e in l ensures l[e] == r[e] {
    }
  }

  /** A group no dataset names does not change any dataset's counts. */
  lemma NodeCountsNewGroup(groups: map<string, Group>, dataPtName: map<string, string>, dataDof: map<string, nat>,
                           g: string, gr: Group)
    requires forall e :: e in dataPtName ==> e in dataDof && dataPtName[e] in groups
    requires g !in groups
    ensures NodeCounts(groups[g := gr], dataPtName, dataDof) == NodeCounts(groups, dataPtName, dataDof)
  {
    var l := NodeCounts(groups[g := gr], dataPtName, dataDof);
    var r := NodeCounts(groups, dataPtName, dataDof);
    forall e | e in l ensures l[e] == r[e] {
      assert dataPtName[e] != g;
    }
  }

  /**
   * Every particle dataset names a group, is stored in the tree in that
   * group's sorted order, and has dof times the group's counts as its
   * per-node counts; the tree holds no other node data.
   */
  predicate DatasetsStored(groups: map<string, Group>, dataPtName: map<string, string>,
                           particleData: map<string, seq<int>>, dataDof: map<string, nat>,
                           nodeData: map<string, seq<int>>, nodeCnt: map<string, seq<int>>)
  {
    && particleData.Keys == dataPtName.Keys && dataDof.Keys == dataPtName.Keys
    && (forall d :: d in dataPtName ==>
          dataPtName[d] in groups && d in nodeData
          && StoredSorted(particleData[d], dataDof[d], |groups[dataPtName[d]].scatter|, groups[dataPtName[d]].scatter, nodeData[d]))
    && nodeCnt == NodeCounts(groups, dataPtName, dataDof)
  }

  /** Storing one more dataset, or replacing one, keeps every dataset stored. */
  lemma StoreDataset(groups: map<string, Group>, dataPtName: map<string, string>, particleData: map<string, seq<int>>,
                     dataDof: map<string, nat>, nodeData: map<string, seq<int>>, nodeCnt: map<string, seq<int>>,
                     d: string, g: string, values: seq<int>, dof: nat, stored: seq<int>)
    requires DatasetsStored(groups, dataPtName, particleData, dataDof, nodeData, nodeCnt)
    requires g in groups && StoredSorted(values, dof, |groups[g].scatter|, groups[g].scatter, stored)
    ensures DatasetsStored(groups, dataPtName[d := g], particleData[d := values], dataDof[d := dof],
                           nodeData[d := stored], nodeCnt[d := Scale(groups[g].cnt, dof)])
  {
    NodeCountsStore(groups, dataPtName, dataDof, d, g, dof);
  }

  /** Forgetting a dataset keeps the others stored. */
  lemma DropDataset(groups: map<string, Group>, dataPtName: map<string, string>, particleData: map<string, seq<int>>,
                    dataDof: map<string, nat>, nodeData: map<string, seq<int>>, nodeCnt: map<string, seq<int>>, d: string)
    requires DatasetsStored(groups, dataPtName, particleData, dataDof, nodeData, nodeCnt)
    ensures DatasetsStored(groups, dataPtName - {d}, particleData - {d}, dataDof - {d}, nodeData - {d}, nodeCnt - {d})
  {
    NodeCountsDrop(groups, dataPtName, dataDof, d);
  }

  /** A new group keeps the datasets of the other groups stored. */
  lemma AddGroup(groups: map<string, Group>, dataPtName: map<string, string>, particleData: map<string, seq<int>>,
                 dataDof: map<string, nat>, nodeData: map<string, seq<int>>, nodeCnt: map<string, seq<int>>,
                 g: string, gr: Group)
    requires DatasetsStored(groups, dataPtName, particleData, dataDof, nodeData, nodeCnt)
    requires g !in groups
    ensures DatasetsStored(groups[g := gr], dataPtName, particleData, dataDof, nodeData, nodeCnt)
  {
    forall d | d in dataPtName ensures dataPtName[d] != g {
      assert dataPtName[d] in groups;
    }
    NodeCountsNewGroup(groups, dataPtName, dataDof, g, gr);
  }

  /** The number of values per particle of a dataset that splits evenly over n particles. */
  method ValuesPerParticle(len: nat, n: nat) returns (dof: nat)
    requires SplitsEvenly(len, n)
    ensures len == n * dof && dof == Dof(len, n)
  {
    DofSplits(len, n);
    dof := Dof(len, n);
  }

  /**
   * A dataset in original particle order, gathered into the sorted order p,
   * with its per-node value counts: dof times the particle count of each node.
   */
  method SortDataset(values: seq<int>, dof: nat, p: seq<nat>, nodes: nat, ptCnt: seq<int>)
      returns (sorted: seq<int>, cnt: seq<int>)
    requires |values| == |p| * dof && IsPermutation(p) && ParticleCountsFit(nodes, ptCnt, |p|)
    ensures StoredSorted(values, dof, |p|, p, sorted) && CountsFit(nodes, sorted, cnt)
    ensures cnt == Scale(ptCnt, dof)
  {
    sorted := GatherBlocks(values, dof, |p|, p);
    ScaledCountsFit(nodes, ptCnt, |p|, dof, sorted);
    cnt := Scale(ptCnt, dof);
  }

  /** Every group with its particle counts for a new refinement. */
  function Recount(groups: map<string, Group>, newCnt: map<string, seq<int>>): (r: map<string, Group>)
    requires groups.Keys <= newCnt.Keys
    ensures r.Keys == groups.Keys
    ensures forall g :: g in groups ==> r[g] == groups[g].(cnt := newCnt[g])
  {
    map g | g in groups :: groups[g].(cnt := newCnt[g])
  }

  /** Recounted groups keep their sorted ids and scatter indices, and fit the new nodes as their new counts do. */
  lemma RecountValid(nodes: nat, newNodes: nat, groups: map<string, Group>, newPtCnt: map<string, seq<int>>)
    requires GroupsValid(nodes, groups)
    requires forall g :: g in groups ==> g in newPtCnt && ParticleCountsFit(newNodes, newPtCnt[g], |groups[g].scatter|)
    ensures GroupsValid(newNodes, Recount(groups, newPtCnt))
  {
  }

  /** Recounted groups keep every dataset stored, with the datasets' counts following the new group counts. */
  lemma RecountStored(groups: map<string, Group>, newPtCnt: map<string, seq<int>>, dataPtName: map<string, string>,
                      particleData: map<string, seq<int>>, dataDof: map<string, nat>,
                      nodeData: map<string, seq<int>>, nodeCnt: map<string, seq<int>>)
    requires DatasetsStored(groups, dataPtName, particleData, dataDof, nodeData, nodeCnt)
    requires groups.Keys <= newPtCnt.Keys
    ensures DatasetsStored(Recount(groups, newPtCnt), dataPtName, particleData, dataDof, nodeData,
                           NodeCounts(Recount(groups, newPtCnt), dataPtName, dataDof))
  {
  }

  /** With new counts that fit new nodes, every stored dataset fits the new nodes with its recounted counts. */
  lemma RecountFits(newNodes: nat, groups: map<string, Group>, newPtCnt: map<string, seq<int>>,
                    dataPtName: map<string, string>, particleData: map<string, seq<int>>, dataDof: map<string, nat>,
                    nodeData: map<string, seq<int>>, nodeCnt: map<string, seq<int>>)
    requires DatasetsStored(groups, dataPtName, particleData, dataDof, nodeData, nodeCnt)
    requires nodeData.Keys == nodeCnt.Keys
    requires forall g :: g in groups ==> g in newPtCnt && ParticleCountsFit(newNodes, newPtCnt[g], |groups[g].scatter|)
    ensures DataShaped(newNodes, nodeData, NodeCounts(Recount(groups, newPtCnt), dataPtName, dataDof))
  {
    var newCnt := NodeCounts(Recount(groups, newPtCnt), dataPtName, dataDof);
    forall d | d in nodeData
      ensures CountsFit(newNodes, nodeData[d], newCnt[d])
    {
      var g := dataPtName[d];
      ScaledCountsFit(newNodes, newPtCnt[g], |groups[g].scatter|, dataDof[d], nodeData[d]);
    }
  }

  class PtTree {
    /** The underlying Tree<DIM> (PtTree derives from it). */
    const tree: Tree
    /** Nlocal, pt_mid and scatter_idx of every group, with its per-node particle counts. */
    var groups: map<string, Group>
    /** data_pt_name. */
    var dataPtName: map<string, string>
    /** The number of values per particle of every dataset, which the source derives from its length and Nlocal. */
    var dataDof: map<string, nat>
    /** Every particle dataset as the caller supplied it, in original particle order. */
    ghost var particleData: map<string, seq<int>>

    ghost predicate Valid()
      reads this, tree
    {
      tree.Valid() && GroupsValid(|tree.nodeMid|, groups)
      && DatasetsStored(groups, dataPtName, particleData, dataDof, tree.nodeData, tree.nodeCnt)
    }

    /** Nlocal: the number of particles of a group. */
    function NLocal(name: string): (n: nat)
      reads this
      requires name in groups
    {
      |groups[name].scatter|
    }

    /** A new particle tree has no groups and no data; its base tree is a single root leaf. */
    constructor (dim: nat)
      ensures Valid() && fresh(tree) && tree.dim == dim
      ensures groups == map[] && dataPtName == map[] && dataDof == map[] && particleData == map[]
      ensures tree.mins == [0] && tree.nodeMid == [0] && tree.nodeAttr == [NodeAttr(true, false)]
      ensures tree.nodeLst == [RootLists(dim)]
      ensures tree.nodeData == map[] && tree.nodeCnt == map[]
    {
      tree := new Tree(dim);
      groups, dataPtName, dataDof := map[], map[], map[];
      particleData := map[];
    }

    /**
     * AddParticles(name, coord): a new group of |keys| particles with dim
     * coordinates each. `keys` are their Morton ids, `perm` the order that
     * sorts them, `ptCnt` the number of them in each tree node. The
     * coordinates are kept as particle data named after the group.
     */
    method AddParticles(name: string, coord: seq<int>, keys: seq<Morton>, perm: seq<nat>, ptCnt: seq<int>)
      requires Valid()
      requires name !in groups
      requires |coord| == tree.dim * |keys|
      requires |perm| == |keys| && IsPermutation(perm)
      requires Sorted(Gather(keys, 1, perm))
      requires ParticleCountsFit(|tree.nodeMid|, ptCnt, |keys|)
      modifies this, tree
      ensures Valid()
      ensures groups == old(groups)[name := Group(Gather(keys, 1, perm), perm, ptCnt)]
      ensures dataPtName == old(dataPtName)[name := name]
      ensures particleData == old(particleData)[name := coord]
      ensures dataDof == old(dataDof)[name := Dof(|coord|, |keys|)]
      ensures name in tree.nodeData && tree.nodeData == old(tree.nodeData)[name := tree.nodeData[name]]
      ensures StoredSorted(coord, dataDof[name], |keys|, perm, tree.nodeData[name])
      ensures tree.nodeCnt == old(tree.nodeCnt)[name := Scale(ptCnt, dataDof[name])]
      ensures tree.mins == old(tree.mins) && tree.nodeMid == old(tree.nodeMid)
      ensures tree.nodeAttr == old(tree.nodeAttr) && tree.nodeLst == old(tree.nodeLst)
    {
      var n := |keys|;
      assert SplitsEvenly(|coord|, n) by {
        if n > 0 { DivModUnique(tree.dim, n, 0); }
      }
      var gr := Group(Gather(keys, 1, perm), perm, ptCnt);
      AddGroup(groups, dataPtName, particleData, dataDof, tree.nodeData, tree.nodeCnt, name, gr);
      groups := groups[name := gr];
      AddParticleData(name, name, coord);
    }

    /**
     * AddParticleData(data_name, particle_name, data): a dataset with the
     * same number of values for each particle of the group, given in the
     * group's original particle order. A dataset of the same name is replaced.
     * Its per-node counts follow the group's particles.
     */
    method AddParticleData(dataName: string, particleName: string, data: seq<int>)
      requires Valid() && particleName in groups
      requires SplitsEvenly(|data|, NLocal(particleName))
      modifies this, tree
      ensures Valid()
      ensures dataPtName == old(dataPtName)[dataName := particleName]
      ensures particleData == old(particleData)[dataName := data]
      ensures groups == old(groups)
      ensures dataDof == old(dataDof)[dataName := Dof(|data|, old(NLocal(particleName)))]
      ensures dataName in tree.nodeData && tree.nodeData == old(tree.nodeData)[dataName := tree.nodeData[dataName]]
      ensures StoredSorted(data, dataDof[dataName], NLocal(particleName), groups[particleName].scatter, tree.nodeData[dataName])
      ensures tree.nodeCnt == old(tree.nodeCnt)[dataName := Scale(groups[particleName].cnt, dataDof[dataName])]
      ensures tree.mins == old(tree.mins) && tree.nodeMid == old(tree.nodeMid)
      ensures tree.nodeAttr == old(tree.nodeAttr) && tree.nodeLst == old(tree.nodeLst)
    {
      var gr := groups[particleName];
      var dof := ValuesPerParticle(|data|, |gr.scatter|);
      var sorted, cnt := SortDataset(data, dof, gr.scatter, |tree.nodeMid|, gr.cnt);
      StoreDataset(groups, dataPtName, particleData, dataDof, tree.nodeData, tree.nodeCnt,
                   dataName, particleName, data, dof, sorted);
      assert (this as object) != (tree as object);
      tree.AddData(dataName, sorted, cnt);
      dataPtName, dataDof := dataPtName[dataName := particleName], dataDof[dataName := dof];
      particleData := particleData[dataName := data];
    }

    /** GetParticleData(data, data_name): the dataset scattered back to the original particle order. */
    method GetParticleData(dataName: string) returns (data: seq<int>)
      requires Valid() && dataName in dataPtName
      ensures data == particleData[dataName]
    {
      var sorted, cnt := tree.GetData(dataName);
      var p := groups[dataPtName[dataName]].scatter;
      var n := |p|;
      ghost var values, storedDof := particleData[dataName], dataDof[dataName];
      assert StoredSorted(values, storedDof, n, p, sorted);
      var dof := Dof(|sorted|, n);
      if n > 0 {
        DofOfProduct(n, storedDof);
      }
      assert |sorted| == n * dof;
      data := ScatterBack(sorted, dof, p);
      if n > 0 {
        ScatterBackGather(values, dof, p);
      }
    }

    /** DeleteParticleData(data_name): forget one dataset; every other dataset keeps its group. */
    method DeleteParticleData(dataName: string)
      requires Valid() && dataName in dataPtName
      modifies this, tree
      ensures Valid()
      ensures dataPtName == old(dataPtName) - {dataName}
      ensures particleData == old(particleData) - {dataName}
      ensures tree.nodeData == old(tree.nodeData) - {dataName} && tree.nodeCnt == old(tree.nodeCnt) - {dataName}
      ensures tree.mins == old(tree.mins) && tree.nodeMid == old(tree.nodeMid)
      ensures tree.nodeAttr == old(tree.nodeAttr) && tree.nodeLst == old(tree.nodeLst)
      ensures dataDof == old(dataDof) - {dataName} && groups == old(groups)
      ensures forall d :: d in dataPtName ==> dataPtName[d] == old(dataPtName)[d] && dataPtName[d] in groups
    {
      DropDataset(groups, dataPtName, particleData, dataDof, tree.nodeData, tree.nodeCnt, dataName);
      assert (this as object) != (tree as object);
      tree.DeleteData(dataName);
      dataPtName, dataDof := dataPtName - {dataName}, dataDof - {dataName};
      particleData := particleData - {dataName};
    }

    /**
     * UpdateRefinement(coord, M, balance21, periodic), as the step that
     * installs a new refinement, given the new nodes and the number of each
     * group's particles in each new node. Particles keep their sorted order,
     * so every particle dataset keeps its stored values; its per-node counts
     * become dof times its group's new counts. How the refinement is
     * computed is not part of this model.
     */
    method UpdateRefinement(newMins: seq<Morton>, newMid: seq<Morton>, newAttr: seq<NodeAttr>,
                            newLst: seq<NodeLists>, newPtCnt: map<string, seq<int>>)
      requires Valid()
      requires NodesShaped(tree.dim, newMid, newAttr, newLst)
      requires forall g :: g in groups ==> g in newPtCnt && ParticleCountsFit(|newMid|, newPtCnt[g], NLocal(g))
      modifies this, tree
      ensures Valid()
      ensures tree.mins == newMins && tree.nodeMid == newMid && tree.nodeAttr == newAttr && tree.nodeLst == newLst
      ensures groups == Recount(old(groups), newPtCnt) && tree.nodeData == old(tree.nodeData)
      ensures tree.nodeCnt == NodeCounts(groups, dataPtName, dataDof)
      ensures dataPtName == old(dataPtName) && dataDof == old(dataDof) && particleData == old(particleData)
    {
      var newGroups := Recount(groups, newPtCnt);
      RecountValid(|tree.nodeMid|, |newMid|, groups, newPtCnt);
      RecountStored(groups, newPtCnt, dataPtName, particleData, dataDof, tree.nodeData, tree.nodeCnt);
      RecountFits(|newMid|, groups, newPtCnt, dataPtName, particleData, dataDof, tree.nodeData, tree.nodeCnt);
      var newCnt := NodeCounts(newGroups, dataPtName, dataDof);
      assert (this as object) != (tree as object);
      tree.UpdateRefinement(newMins, newMid, newAttr, newLst, tree.nodeData, newCnt);
      groups := newGroups;
    }
  }

  /** Particle data read back after it was added is exactly what was added, in the original order. */
  method AddThenGetParticleData(t: PtTree, dataName: string, particleName: string, data: seq<int>)
      returns (r: seq<int>)
    requires t.Valid() && particleName in t.groups
    requires SplitsEvenly(|data|, t.NLocal(particleName))
    modifies t, t.tree
    ensures t.Valid() && r == data
  {
    t.AddParticleData(dataName, particleName, data);
    r := t.GetParticleData(dataName);
  }

  /** A new refinement keeps every particle dataset: reading it afterwards gives what was added before. */
  method RefineThenGetParticleData(t: PtTree, dataName: string, newMins: seq<Morton>, newMid: seq<Morton>,
                                   newAttr: seq<NodeAttr>, newLst: seq<NodeLists>, newPtCnt: map<string, seq<int>>)
      returns (r: seq<int>)
    requires t.Valid() && dataName in t.dataPtName
    requires NodesShaped(t.tree.dim, newMid, newAttr, newLst)
    requires forall g :: g in t.groups ==> g in newPtCnt && ParticleCountsFit(|newMid|, newPtCnt[g], t.NLocal(g))
    modifies t, t.tree
    ensures t.Valid() && r == old(t.particleData[dataName])
  {
    t.UpdateRefinement(newMins, newMid, newAttr, newLst, newPtCnt);
    r := t.GetParticleData(dataName);
  }

  /** A new tree with one group of particles, all in its root, whose coordinates are its only dataset. */
  method NewTreeWithParticles(dim: nat, name: string, coord: seq<int>, keys: seq<Morton>, perm: seq<nat>)
      returns (t: PtTree)
    requires |coord| == dim * |keys| && |perm| == |keys| && IsPermutation(perm) && Sorted(Gather(keys, 1, perm))
    ensures fresh(t) && fresh(t.tree) && t.Valid() && t.tree.dim == dim
    ensures t.groups == map[name := Group(Gather(keys, 1, perm), perm, [|keys|])]
    ensures t.dataPtName == map[name := name] && t.particleData == map[name := coord]
  {
    t := new PtTree(dim);
    assert Sum([|keys|]) == |keys|;
    t.AddParticles(name, coord, keys, perm, [|keys|]);
  }

  /** A new tree with one group of particles, all in its root, and one dataset over them. */
  method NewTreeWithData(dim: nat, name: string, coord: seq<int>, keys: seq<Morton>, perm: seq<nat>,
                         dataName: string, data: seq<int>)
      returns (t: PtTree)
    requires |coord| == dim * |keys| && |perm| == |keys| && IsPermutation(perm) && Sorted(Gather(keys, 1, perm))
    requires SplitsEvenly(|data|, |keys|)
    ensures fresh(t) && fresh(t.tree) && t.Valid() && t.tree.dim == dim
    ensures t.groups == map[name := Group(Gather(keys, 1, perm), perm, [|keys|])]
    ensures t.dataPtName == map[name := name][dataName := name]
    ensures t.particleData == map[name := coord][dataName := data]
  {
    t := NewTreeWithParticles(dim, name, coord, keys, perm);
    t.AddParticleData(dataName, name, data);
  }

  /**
   * The order of PtTree::test: a new tree takes a group of particles (all in
   * its root) and a dataset over them, is refined to new nodes holding
   * newPtCnt of the particles each, and then gives back the dataset, and
   * the coordinates unless the dataset took their name, in the original
   * particle order.
   */
  method BuildRefineRead(dim: nat, name: string, coord: seq<int>, keys: seq<Morton>, perm: seq<nat>,
                         dataName: string, data: seq<int>, newMins: seq<Morton>, newMid: seq<Morton>,
                         newAttr: seq<NodeAttr>, newLst: seq<NodeLists>, newPtCnt: seq<int>)
      returns (coord': seq<int>, data': seq<int>)
    requires |coord| == dim * |keys| && |perm| == |keys| && IsPermutation(perm) && Sorted(Gather(keys, 1, perm))
    requires SplitsEvenly(|data|, |keys|)
    requires NodesShaped(dim, newMid, newAttr, newLst) && ParticleCountsFit(|newMid|, newPtCnt, |keys|)
    ensures data' == data && (dataName != name ==> coord' == coord)
  {
    var t := NewTreeWithData(dim, name, coord, keys, perm, dataName, data);
    t.UpdateRefinement(newMins, newMid, newAttr, newLst, map[name := newPtCnt]);
    coord' := t.GetParticleData(name);
    data' := t.GetParticleData(dataName);
  }
}
