# SCTL core: tensors, tree node data, particle trees and near lists

A Dafny model of four parts of the SCTL header library:

- **Fixed-shape tensors** (`include/sctl/tensor.hpp`). A tensor owns a row-major buffer of `Size()` elements. The model covers:
  - the `Order`/`Size`/`Dim`/`offset` arithmetic;
  - element access and assignment, written in place;
  - dimension rotations, which generalise the matrix transpose;
  - element-wise and scalar arithmetic;
  - the matrix product.

  Module `RowMajor` proves that `offset` is a bijection between in-range index tuples and buffer positions. Module `Tensors` proves:
  - `RotateRight` undoes `RotateLeft`, and the reverse;
  - for a matrix both are the transpose, and (AB)^T = B^T A^T;
  - every operator acts element by element;
  - the scalar and tensor operations cancel as expected.
- **The tree's per-process state** (`include/sctl/tree.hpp`, `Tree`):
  - the parallel node vectors (Morton ids, attributes, node lists);
  - the `scan` used for displacements;
  - named node data: a flat buffer plus one element count per node, for each name.

  Adding and then getting data returns what was added. Deleting a name leaves every other name's data alone.
- **Particle trees** (`PtTree` in the same header). Each particle group keeps its particles sorted by Morton id, plus a scatter index recording where each sorted particle came from. Particle data is stored as tree node data in sorted order, gathered by the scatter index, with `dof` values per particle. Reading it back applies the inverse permutation. Module `Scatter` proves that gathering and scattering back are mutually inverse, so particle data reads back exactly as it was added, in the caller's order, also after a refinement.
- **The near list** (`BuildNearList` in `include/sctl/boundary_integral.hpp`), computed serially on integer coordinates. A target is near a source node when its squared distance is below the node's squared radius, and near an element when it is near one of the element's nodes. The model gives the seven outputs as a function of the inputs (`NearListOf`), and `BuildNearList` is proved to compute exactly that. Lemmas then prove that:
  - the per-element counts and offsets describe runs that list the near targets of each element in increasing order;
  - each near entry copies its target's coordinates and normal;
  - `near_scatter_index` is a permutation of `[0, Nnear)`;
  - after reordering, the per-target counts and offsets delimit exactly the near pairs of each target.
- **The element-list registry** of `BoundaryIntegralOp` (same header): `elem_lst_map` and `elem_data_map`, keyed by the same names.

All class state is checked through `Valid()` predicates, which every mutating method preserves.

## Model

| member | source | states |
|---|---|---|
| RowMajor.Order | include/sctl/tensor.hpp:26-31 | the order of a tensor is the number of its extents |
| RowMajor.Size | include/sctl/tensor.hpp:33-38 | the number of elements is the product of the extents, 1 for no extents |
| RowMajor.Dim | include/sctl/tensor.hpp:40-46 | Dim<k> is the k-th extent, defined for k below the order |
| RowMajor.Offset | include/sctl/tensor.hpp:283-285 | the row-major offset of an in-range index tuple lies inside the buffer, below Size() |
| RowMajor.Unoffset | include/sctl/tensor.hpp:283-285 | every buffer position is addressed by an in-range index tuple |
| RowMajor.UnoffsetOffset | include/sctl/tensor.hpp:283-285 | decoding the offset of an index tuple gives the tuple back |
| RowMajor.OffsetUnoffset | include/sctl/tensor.hpp:283-289 | every buffer position is the offset of its decoded tuple, so offset is onto [0, Size()) |
| RowMajor.OffsetInjective | include/sctl/tensor.hpp:283-289 | two in-range index tuples with the same offset are equal, so distinct elements never share a buffer slot |
| RowMajor.SizeConcat | include/sctl/tensor.hpp:33-38 | the size of a concatenated shape is the product of the sizes |
| RowMajor.SizeZero | include/sctl/tensor.hpp:33-38 | a tensor has no elements exactly when one of its extents is zero |
| Tensors.RotRRotL | include/sctl/tensor.hpp:184-202 | rotating a shape left and then right gives it back |
| Tensors.RotLRotR | include/sctl/tensor.hpp:184-202 | rotating a shape right and then left gives it back |
| Tensors.SizeRotL | include/sctl/tensor.hpp:184-192 | a left-rotated tensor has as many elements as the original |
| Tensors.SizeRotR | include/sctl/tensor.hpp:194-202 | a right-rotated tensor has as many elements as the original |
| Tensors.RotateLeftShape | include/sctl/tensor.hpp:184-192 | n1 x n2 x ... x nk becomes n2 x ... x nk x n1: extent k of the result is extent k+1 (cyclically) of the source |
| Tensors.RotateRightShape | include/sctl/tensor.hpp:194-202 | extent k of the result is extent k-1 (cyclically) of the source |
| Tensors.RotateLeftElem | include/sctl/tensor.hpp:184-192 | the left rotation holds at R(i1, ..., ik, i0) the element T(i0, i1, ..., ik) |
| Tensors.RotateRightElem | include/sctl/tensor.hpp:194-202 | the right rotation holds at R(ik, i0, ..., ik-1) the element T(i0, ..., ik) |
| Tensors.RotateRightLeft | include/sctl/tensor.hpp:184-202 | RotateRight undoes RotateLeft, on shape and contents |
| Tensors.RotateLeftRight | include/sctl/tensor.hpp:184-202 | RotateLeft undoes RotateRight, on shape and contents |
| Tensors.RotateIsTranspose | include/sctl/tensor.hpp:184-202 | for a matrix both rotations give the n x m transpose, with R(j, i) = T(i, j) |
| Tensors.ElementwiseAt | include/sctl/tensor.hpp:211-266 | at every index the tensor and scalar operators combine the elements there; division rounds toward zero |
| Tensors.AddSubCancel | include/sctl/tensor.hpp:211-266 | (T + M) - M = T, (T + s) - s = T, T - M = T + (-M), and -(-T) = T |
| Tensors.TruncDivOfMul | include/sctl/tensor.hpp:234-248 | for integers, (x * s) / s = x under truncating division |
| Tensors.MulDivCancel | include/sctl/tensor.hpp:234-248 | (T * s) / s = T for s != 0 |
| Tensors.MatMul | include/sctl/tensor.hpp:268-279 | the product of an m x n and an n x p tensor has m x p elements |
| Tensors.MatMulElem | include/sctl/tensor.hpp:268-279 | entry (i, j) of the product is the sum over k of A(i, k) B(k, j) |
| Tensors.TransposeOfProduct | include/sctl/tensor.hpp:268-279 | rotating a product equals the product of the rotated factors in reverse order: (AB)^T = B^T A^T |
| Tensors.Tensor.Empty | include/sctl/tensor.hpp:55-60 | a fresh tensor of the shape with a buffer of Size() elements |
| Tensors.Tensor.FromIter | include/sctl/tensor.hpp:62-81 | the buffer holds the first Size() values of the source |
| Tensors.Tensor.Fill | include/sctl/tensor.hpp:90-95 | every element of the new tensor is v |
| Tensors.Tensor.Copy | include/sctl/tensor.hpp:83-103 | the copy has the same shape and contents, in a buffer of its own |
| Tensors.Tensor.Get | include/sctl/tensor.hpp:175-182 | reading element (i0, ..., ik) gives the value stored at its row-major offset, which lies inside the buffer |
| Tensors.Tensor.Set | include/sctl/tensor.hpp:166-173 | writing through operator() changes that element to v and no other element |
| Tensors.Tensor.Assign | include/sctl/tensor.hpp:112-134 | after copy assignment the contents are M's former contents, even when M is this tensor |
| Tensors.Tensor.AssignValue | include/sctl/tensor.hpp:120-126 | after operator=(v) every element is v |
| Tensors.Tensor.RotateLeft | include/sctl/tensor.hpp:184-192 | a fresh tensor of the left-rotated shape holding the left-rotated contents |
| Tensors.Tensor.RotateRight | include/sctl/tensor.hpp:194-202 | a fresh tensor of the right-rotated shape holding the right-rotated contents |
| Tensors.Tensor.Plus | include/sctl/tensor.hpp:204-209 | unary + gives a fresh tensor equal to this one |
| Tensors.Tensor.Minus | include/sctl/tensor.hpp:211-216 | unary - gives a fresh tensor of negated elements |
| Tensors.Tensor.AddS | include/sctl/tensor.hpp:218-224 | s added to every element, in a fresh tensor of the same shape |
| Tensors.Tensor.SubS | include/sctl/tensor.hpp:226-232 | s subtracted from every element |
| Tensors.Tensor.MulS | include/sctl/tensor.hpp:234-240 | every element multiplied by s |
| Tensors.Tensor.DivS | include/sctl/tensor.hpp:242-248 | every element divided by s, rounding toward zero |
| Tensors.Tensor.Add | include/sctl/tensor.hpp:250-257 | the element-wise sum of two tensors of one shape |
| Tensors.Tensor.Sub | include/sctl/tensor.hpp:259-266 | the element-wise difference of two tensors of one shape |
| Tensors.Tensor.Mul | include/sctl/tensor.hpp:268-279 | a d0 x N1 tensor times an N1 x N2 tensor is the d0 x N2 matrix product |
| Scatter.PermutationMultiset | include/sctl/tree.hpp:263 | an index vector is a permutation (in range, no repeats, covers all) exactly when its multiset is that of [0, n) |
| Scatter.Inverse | include/sctl/tree.hpp:221-230 | the inverse index vector undoes the scatter index on both sides |
| Scatter.InversePermutation | include/sctl/tree.hpp:221-230 | the inverse of a permutation is a permutation whose inverse is the original |
| Scatter.GatherBlocksItem | include/sctl/tree.hpp:261-264 | item k of a gather is the input item named by index k, all dof values of it |
| Scatter.ScatterBackGather | include/sctl/tree.hpp:221-230 | scattering back gathered data restores the original particle order |
| Scatter.GatherScatterBack | include/sctl/tree.hpp:221-230 | gathering scattered-back data gives the sorted order again |
| Trees.Tree.constructor | include/sctl/tree.hpp:36 | a new tree is a single root leaf with Morton id 0, which also starts the one process domain; its node list has no parent and no children, its one same-level neighbour is itself; there is no node data |
| Trees.Tree.Scan | include/sctl/tree.hpp:141 | dsp has one entry per count, dsp[i] is the sum of the counts before i, so dsp[0] = 0, dsp[i+1] = dsp[i] + cnt[i], and the last run ends at the total |
| Trees.Tree.GetPartitionMID | include/sctl/tree.hpp:40-43 | the Morton ids partitioning the process domains, as installed by the last refinement |
| Trees.Tree.GetNodeMID | include/sctl/tree.hpp:45-48 | one Morton id per node, parallel to the attributes and node lists |
| Trees.Tree.GetNodeAttr | include/sctl/tree.hpp:50-53 | one attribute per node |
| Trees.Tree.GetNodeLists | include/sctl/tree.hpp:24-58 | one node list per node, each with p2n in [0, 2^DIM), 2^DIM child slots and 3^DIM neighbour slots |
| Trees.Tree.UpdateRefinement | include/sctl/tree.hpp:65-78 | installs the new partition and node vectors, and redistributes every dataset to the new nodes, keeping the same names |
| Trees.Tree.AddData | include/sctl/tree.hpp:80-91 | stores data and counts under the name, replacing any earlier entry, and changes nothing else |
| Trees.Tree.GetData | include/sctl/tree.hpp:93-105 | returns the stored buffer and counts: one count per node, adding up to the buffer length |
| Trees.Tree.DeleteData | include/sctl/tree.hpp:117-124 | removes a registered name from node data and node counts and changes nothing else |
| Trees.AddThenGetData | include/sctl/tree.hpp:80-105 | GetData right after AddData returns exactly the data and counts added |
| Trees.DeleteKeepsOthers | include/sctl/tree.hpp:117-124 | deleting one name leaves every other name's data and counts unchanged |
| PtTrees.Scale | include/sctl/tree.hpp:210-219 | the per-node value counts are dof times the per-node particle counts |
| PtTrees.SumScale | include/sctl/tree.hpp:210-219 | the scaled counts add up to dof times the particle count |
| PtTrees.ScaledCountsFit | include/sctl/tree.hpp:210-219 | a sorted dataset with the scaled counts fits the tree's nodes |
| PtTrees.NodeCountsStore | include/sctl/tree.hpp:210-219 | recording dataset d for group g with dof values per particle adds d's counts, dof times g's particle counts, and changes no other dataset's counts |
| PtTrees.NodeCountsDrop | include/sctl/tree.hpp:232-239 | forgetting a dataset removes its counts and changes no other dataset's counts |
| PtTrees.NodeCountsNewGroup | include/sctl/tree.hpp:200-208 | a new group that no dataset names changes no dataset's counts |
| PtTrees.StoreDataset | include/sctl/tree.hpp:210-219 | storing or replacing one dataset keeps every dataset stored in its group's sorted order |
| PtTrees.DropDataset | include/sctl/tree.hpp:232-239 | forgetting a dataset keeps the others stored |
| PtTrees.AddGroup | include/sctl/tree.hpp:200-208 | a new group keeps the other groups' datasets stored |
| PtTrees.RecountValid | include/sctl/tree.hpp:187-198 | after a refinement the groups keep their sorted Morton ids and scatter indices, and are consistent with the new nodes when their new particle counts are |
| PtTrees.RecountStored | include/sctl/tree.hpp:187-198 | after a refinement every dataset is still stored in its group's sorted order, and its counts become dof times its group's new particle counts |
| PtTrees.RecountFits | include/sctl/tree.hpp:187-198 | with new particle counts that fit the new nodes, every stored dataset fits the new nodes with its recounted counts |
| PtTrees.ValuesPerParticle | include/sctl/tree.hpp:210-219 | the number of values per particle of a dataset that splits evenly |
| PtTrees.SortDataset | include/sctl/tree.hpp:210-219 | the dataset gathered into the group's sorted order, with per-node counts that fit the tree |
| PtTrees.PtTree.constructor | include/sctl/tree.hpp:175-180 | a new particle tree has no groups and no data, and its base tree is a single root leaf with no node data |
| PtTrees.PtTree.AddParticles | include/sctl/tree.hpp:200-208 | a new group: its Morton ids in sorted order, its scatter index (as long as its particle count), its per-node particle counts, and its coordinates stored as particle data named after the group, gathered into sorted order with dof times the per-node particle counts; every other dataset, and the nodes of the base tree, are unchanged |
| PtTrees.PtTree.AddParticleData | include/sctl/tree.hpp:210-219 | the dataset is recorded for the group, replaces any earlier data of that name, and is stored in the base tree in the group's sorted order, with dof times the group's own per-node particle counts; the groups, every other dataset and the nodes are unchanged |
| PtTrees.PtTree.GetParticleData | include/sctl/tree.hpp:221-230 | the stored data scattered back is the dataset in the original particle order |
| PtTrees.PtTree.DeleteParticleData | include/sctl/tree.hpp:232-239 | removes that dataset from the particle tree and from the base tree's node data and counts; the nodes, the groups and every remaining dataset are unchanged |
| PtTrees.PtTree.UpdateRefinement | include/sctl/tree.hpp:187-198 | installs the new partition and nodes in the base tree and gives every group its new per-node particle counts; every dataset keeps its stored values, and its counts become dof times its group's new counts |
| PtTrees.AddThenGetParticleData | include/sctl/tree.hpp:210-230 | particle data read back after it was added is exactly what was added, in the original order |
| PtTrees.RefineThenGetParticleData | include/sctl/tree.hpp:187-230 | particle data read back after a refinement is the data added before it |
| PtTrees.NewTreeWithParticles | include/sctl/tree.hpp:175-208 | a new tree takes a group of particles, all in its root: its only group holds their sorted Morton ids, the sorting permutation and the count of them in the one node, and their coordinates are its only dataset |
| PtTrees.NewTreeWithData | include/sctl/tree.hpp:175-219 | a new tree takes a group of particles, all in its root, and a dataset over them: its only group is that group, and it holds exactly the coordinates and that dataset |
| PtTrees.BuildRefineRead | include/sctl/tree.hpp:252-257 | adding particles and data to a new tree, refining it and reading back gives the dataset, and the coordinates unless the dataset took their name, in the original particle order |
| NearLists.ConcatLength | include/sctl/boundary_integral.hpp:41-45 | the near list is as long as the element runs together |
| NearLists.ConcatIndex | include/sctl/boundary_integral.hpp:41-45 | entry i of run k sits at the sum of the lengths of the runs before k, plus i |
| NearLists.NearNode | include/sctl/boundary_integral.hpp:18-20 | target t is in the near region of source node j: its squared distance to the node is below the node's squared radius |
| NearLists.NearElem | include/sctl/boundary_integral.hpp:18-28 | target t is near element e when it is near one of the source nodes dsp[e] <= j < dsp[e] + cnt[e] |
| NearLists.AnyNearIff | include/sctl/boundary_integral.hpp:18-28 | a target is near some node of a range exactly when one node j of the range has it in its near region |
| NearLists.NearElemIff | include/sctl/boundary_integral.hpp:18-32 | a target is near an element exactly when it is near a node j with dsp[e] <= j < dsp[e] + cnt[e] |
| NearLists.NearTargetsSpec | include/sctl/boundary_integral.hpp:18-45 | an element's run lists each target near the element once, in increasing order, and no other target |
| NearLists.NearAll | include/sctl/boundary_integral.hpp:37-39 | every entry of the near list names one of the N targets |
| NearLists.PositionsSpec | include/sctl/boundary_integral.hpp:47-54 | a target's positions are the entries naming it, each once, in increasing order |
| NearLists.ScatterIndexConcat | include/sctl/boundary_integral.hpp:47-51 | the scatter index is the runs of positions of targets 0, 1, ..., one after the other |
| NearLists.ScatterIndexSnoc | include/sctl/boundary_integral.hpp:47-51 | appending one near pair adds its position to the scatter index exactly when its target is among those scanned |
| NearLists.ScatterIndexLength | include/sctl/boundary_integral.hpp:47-51 | when every pair names a target below N, the scatter index has one entry per near pair |
| NearLists.ScatterIndexMultiset | include/sctl/boundary_integral.hpp:47-51 | the scatter index lists each near-list position exactly once |
| NearLists.ScatterIndexPermutation | include/sctl/boundary_integral.hpp:47-51 | near_scatter_index is a permutation of [0, Nnear) |
| NearLists.TargetRun | include/sctl/boundary_integral.hpp:47-54 | after reordering, entry i of target t's run is the i-th near pair of t |
| NearLists.NearListElements | include/sctl/boundary_integral.hpp:41-45 | near_elem_cnt and near_elem_dsp have length K, counts add up to Nnear, dsp is the exclusive scan, and element e's run lists its near targets |
| NearLists.NearListCoordinateLengths | include/sctl/boundary_integral.hpp:30-33 | Xtrg_near holds COORD_DIM values per near pair; Xn_trg_near is empty when no normals are given and otherwise as long as Xtrg_near |
| NearLists.NearListCoordinates | include/sctl/boundary_integral.hpp:22-39 | Xtrg_near has COORD_DIM values per near entry; each entry copies its target's coordinates, and its normal when normals are given |
| NearLists.NearScatterPermutation | include/sctl/boundary_integral.hpp:47-51 | near_scatter_index has Nnear entries and is a permutation of [0, Nnear) |
| NearLists.NearListTargetCounts | include/sctl/boundary_integral.hpp:52-54 | near_trg_cnt has one entry per target, entry t is the number of near pairs naming t, and the counts add up to Nnear |
| NearLists.NearListTargets | include/sctl/boundary_integral.hpp:47-54 | after reordering by the scatter index, the near_trg_cnt[t] entries from near_trg_dsp[t] are exactly the near pairs of target t, in element order |
| NearLists.NearListTargetBounds | include/sctl/boundary_integral.hpp:52-54 | near_trg_cnt has one entry per target, and each target's run from near_trg_dsp[t] lies inside the Nnear entries of the scatter index |
| NearLists.TargetBounds | include/sctl/boundary_integral.hpp:52-54 | each target's run, placed at the exclusive scan of the counts, ends inside the scatter index |
| NearLists.TargetTotal | include/sctl/boundary_integral.hpp:52-54 | the per-target counts add up to the number of near pairs |
| NearLists.PositionsNameTarget | include/sctl/boundary_integral.hpp:52-54 | every entry of target t's reordered run is a near pair whose target is t |
| NearLists.ElementRun | include/sctl/boundary_integral.hpp:41-45 | entry i of element e's run is the i-th target near e |
| NearLists.ElementNearTargets | include/sctl/boundary_integral.hpp:18-45 | a scan over all targets collects exactly the targets near element e, in increasing order |
| NearLists.ElementNearList | include/sctl/boundary_integral.hpp:37-45 | the near list element by element, with each element's count of near targets |
| NearLists.GatherPoints | include/sctl/boundary_integral.hpp:37-39 | the coordinates of the named targets, one target after the other |
| NearLists.CountTargets | include/sctl/boundary_integral.hpp:52-54 | near_trg_cnt[t] is the number of near pairs of target t |
| NearLists.PositionsOf | include/sctl/boundary_integral.hpp:47-54 | the positions of the near list that name target t |
| NearLists.BuildScatterIndex | include/sctl/boundary_integral.hpp:47-51 | near_scatter_index: for each target in turn, the positions of its near pairs |
| NearLists.NearListOf | include/sctl/boundary_integral.hpp:30-54 | the seven outputs as the header describes them: the gathered coordinates and normals, the per-element counts and their exclusive scan, the scatter index, and the per-target counts and their exclusive scan |
| NearLists.BuildNearList | include/sctl/boundary_integral.hpp:17-58 | computes exactly the seven outputs that the lemmas above characterise |
| ElemRegistry.DefaultName | include/sctl/boundary_integral.hpp:281 | the name used when none is given, one per element type |
| ElemRegistry.BoundaryIntegralOp.constructor | include/sctl/boundary_integral.hpp:374-375 | a new operator has no element lists |
| ElemRegistry.BoundaryIntegralOp.AddElemList | include/sctl/boundary_integral.hpp:272-281 | registers the list and its type's routines under the name, replacing an earlier entry of that name, and changes nothing else |
| ElemRegistry.BoundaryIntegralOp.AddElemListOfType | include/sctl/boundary_integral.hpp:272-281 | the same, under the default name of the list's type |
| ElemRegistry.BoundaryIntegralOp.GetElemList | include/sctl/boundary_integral.hpp:283-290 | returns the list registered under a known name, when asked for as the type it was registered with |
| ElemRegistry.BoundaryIntegralOp.GetElemListOfType | include/sctl/boundary_integral.hpp:283-290 | returns the list registered under the default name of the type, when that list is of the type |
| ElemRegistry.BoundaryIntegralOp.DeleteElemList | include/sctl/boundary_integral.hpp:292-297 | removes a registered name from both maps and changes nothing else |
| ElemRegistry.BoundaryIntegralOp.DeleteElemListOfType | include/sctl/boundary_integral.hpp:299-302 | removes the list registered under the default name of the type |
| ElemRegistry.AddThenGet | include/sctl/boundary_integral.hpp:272-290 | GetElemList(name) right after AddElemList(x, name), asking for x's type, returns x |
| ElemRegistry.AddKeepsOthers | include/sctl/boundary_integral.hpp:272-281 | adding under one name leaves every other registered list unchanged |
| ElemRegistry.DeleteKeepsOthers | include/sctl/boundary_integral.hpp:292-297 | deleting one name removes it and leaves every other registered list unchanged |
| ElemRegistry.TwoTypesKept | include/sctl/boundary_integral.hpp:272-302 | lists of two different types added under their default names are both kept |

## Left out

- `include/sctl/ode-solver.hpp`: its SDC and Picard stepping are floating-point numerics driven by callbacks.
- `BoundaryIntegralOp`'s quadrature and evaluation: `SetAccuracy`, `SetFMMKer`, `SetTargetCoord`, `SetTargetNormal`, `Dim`, `Setup`, `ClearSetup`, `ComputePotential`, `SqrtScaling`, `InvSqrtScaling`, and the far-field setup through `ParticleFMM`. These are floating-point kernel evaluation and calls into code outside this model.
- The `mutable` setup flags and cached setup vectors of `BoundaryIntegralOp`. The header does not state their transitions.
- `Tree::UpdateRefinement` internals: Morton keys, distributed sorting, 2:1 balancing, periodicity, ghost nodes. `Morton` is only forward-declared, and these depend on collectives. Refinement is an installing step whose results are parameters.
- `ReduceBroadcast`, `Broadcast`, `GetComm`, the communicator parameters, and every collective aspect. These are MPI communication; the model is serial.
- `WriteTreeVTK`, `WriteParticleVTK` and the tensor `operator<<`, which are I/O.
- The `test()` functions.
- `begin()`/`end()` iterators and the non-owning tensor views (`own_data = false`), which alias memory they do not own. Tensors here own their buffers.
- Real-valued coordinates and distances. Coordinates are integers, and "near" compares squared distances.
- `Long` overflow of counts and offsets. Integers are unbounded.
- The typed node-data buffer of `Tree` (`Vector<char>` holding values of any `ValueType`). It is modelled as a sequence of integer values.
- Tensors.AddSubCancel, Tensors.MulDivCancel: tensor element values (`ValueType`) are unbounded integers, so these cancellation laws ignore floating-point rounding and fixed-width overflow. Both hold only for the model's integers.
- RowMajor.Offset: an out-of-range index is undefined behaviour in the source and is excluded by a precondition.
- Tensors.Tensor.Empty: the default constructor leaves the contents unspecified, and so does the model.
- Tensors.Tensor.DivS: requires s != 0, since integer division by zero is undefined behaviour.
- Trees.Tree.GetData: the source hands out non-owning views into the stored buffers; the model returns their values.
- Trees.Tree.UpdateRefinement: the redistributed data is a parameter that must fit the new nodes. How it is computed is not modelled.
- PtTrees.PtTree: a particle tree's base tree holds only particle datasets. `Valid()` requires the base tree's node-data names to be exactly the particle dataset names. Node data added, read or deleted through the inherited `Tree` interface (`AddData`, `GetData`, `DeleteData` on a `PtTree`) is not modelled, nor is its repartitioning by `UpdateRefinement`.
- PtTrees.PtTree.AddParticles: requires a group name not yet in use as a group. A dataset of that name is replaced by the coordinates. The header does not say what re-adding a group does. The particles' Morton ids, the sorting permutation and the per-node particle counts are parameters, because they come from Morton geometry.
- PtTrees.PtTree.AddParticleData: a dataset name already in use is overwritten. The header documents no behaviour for that case, so this is the model's choice.
- Trees.Tree.AddData: a name already in use is overwritten, as for AddParticleData. The header documents no behaviour for that case, so this is the model's choice.
- Trees.Tree.constructor: the new tree is read as a single root leaf, the tree that refining no points gives. The constructor's body, in `tree.txx`, is not part of this model.
- PtTrees.PtTree.UpdateRefinement: the particles keep their sorted order, so the stored particle datasets keep their values and only the per-node counts change. The model is serial, and the Morton order of a group's particles does not depend on how the domain is partitioned. Moving particles between processes is not modelled.
- NearLists.NearNode: a target is near a source node when the squared distance is strictly below the squared radius. The header does not say whether the boundary counts as near.
- NearLists.BuildNearList: requires well-formed inputs: |Xtrg| and |Xsrc| multiples of COORD_DIM, Xn_trg empty or as long as Xtrg, and every element's node range inside the source nodes. The header only describes such inputs.
- ElemRegistry.DefaultName: the string of the type's `hash_code()` is modelled as the type's tag, so two different types never share a default name.
- ElemRegistry.BoundaryIntegralOp.AddElemList: an existing name is overwritten, as `std::map` assignment does. The library's body is not part of this model.
- ElemRegistry.BoundaryIntegralOp.GetElemList: an unknown name is a precondition failure, and so is asking for a list as a type other than the one it was registered with. The cast the library performs is not part of this model.
- ElemRegistry.BoundaryIntegralOp.DeleteElemList: requires a registered name; deleting an unknown name is a precondition failure, as for every request for an unknown name.
- Trees.Tree.DeleteData: requires a registered name, for the same reason. The header documents no behaviour for an unknown name.
- PtTrees.PtTree.DeleteParticleData: requires a registered dataset name, for the same reason.
- ElemRegistry.BoundaryIntegralOp: the per-kernel routines stored in `elem_data_map` are represented only by the element type's tag.
