/**
 * The element-list registry of BoundaryIntegralOp
 * (include/sctl/boundary_integral.hpp): two maps keyed by the same names,
 * one holding the element lists and one holding, per name, the per-kernel
 * interaction routines of the list's element type.
 *
 * Element types are compile-time template arguments in the library; here an
 * element type is named by a tag, and the routines chosen for it are stood
 * for by that tag.
 */
module ElemRegistry {

  /** ElemLstData: the self/near interaction routines of an element type, identified by the type's tag. */
  datatype ElemLstData = ElemLstData(elemType: string)

  /**
   * The name used when none is given: the string of the element type's hash
   * code, modelled as the tag itself, so distinct types get distinct names.
   */
  function DefaultName(tag: string): string
  {
    tag
  }

  class BoundaryIntegralOp<E> {
    /** elem_lst_map and elem_data_map. */
    var elemLstMap: map<string, E>
    var elemDataMap: map<string, ElemLstData>

    /** Both maps hold the same names. */
    ghost predicate Valid()
      reads this
    {
      elemLstMap.Keys == elemDataMap.Keys
    }

    constructor ()
      ensures Valid() && elemLstMap == map[] && elemDataMap == map[]
    {
      elemLstMap, elemDataMap := map[], map[];
    }

    /** AddElemList(elem_lst, name): register an element list of type `tag` under name; an earlier list of that name is replaced. */
    method AddElemList(elemLst: E, tag: string, name: string)
      requires Valid()
      modifies this
      ensures Valid()
      ensures elemLstMap == old(elemLstMap)[name := elemLst]
      ensures elemDataMap == old(elemDataMap)[name := ElemLstData(tag)]
    {
      elemLstMap := elemLstMap[name := elemLst];
      elemDataMap := elemDataMap[name := ElemLstData(tag)];
    }

    /** AddElemList(elem_lst) with the default name of its type. */
    method AddElemListOfType(elemLst: E, tag: string)
      requires Valid()
      modifies this
      ensures Valid()
      ensures elemLstMap == old(elemLstMap)[DefaultName(tag) := elemLst]
      ensures elemDataMap == old(elemDataMap)[DefaultName(tag) := ElemLstData(tag)]
    {
      AddElemList(elemLst, tag, DefaultName(tag));
    }

    /**
     * GetElemList<ElemLstType>(name): the list registered under a name, read
     * as element type `tag`. An unknown name, or a list registered as another
     * type, is a precondition failure.
     */
    method GetElemList(name: string, tag: string) returns (elemLst: E)
      requires Valid() && name in elemLstMap && elemDataMap[name] == ElemLstData(tag)
      ensures elemLst == elemLstMap[name]
    {
      elemLst := elemLstMap[name];
    }

    /** GetElemList() with the default name of type `tag`. */
    method GetElemListOfType(tag: string) returns (elemLst: E)
      requires Valid() && DefaultName(tag) in elemLstMap && elemDataMap[DefaultName(tag)] == ElemLstData(tag)
      ensures elemLst == elemLstMap[DefaultName(tag)]
    {
      elemLst := GetElemList(DefaultName(tag), tag);
    }

    /** DeleteElemList(name): remove a registered name from both maps and nothing else. */
    method DeleteElemList(name: string)
      requires Valid() && name in elemLstMap
      modifies this
      ensures Valid()
      ensures elemLstMap == old(elemLstMap) - {name}
      ensures elemDataMap == old(elemDataMap) - {name}
    {
      elemLstMap := elemLstMap - {name};
      elemDataMap := elemDataMap - {name};
    }

    /** DeleteElemList<ElemLstType>(): remove the list registered under the default name of type `tag`. */
    method DeleteElemListOfType(tag: string)
      requires Valid() && DefaultName(tag) in elemLstMap
      modifies this
      ensures Valid()
      ensures elemLstMap == old(elemLstMap) - {DefaultName(tag)}
      ensures elemDataMap == old(elemDataMap) - {DefaultName(tag)}
    {
      DeleteElemList(DefaultName(tag));
    }
  }

  /** GetElemList(name) right after AddElemList(x, name), asking for x's own type, gives back x. */
  method AddThenGet<E>(op: BoundaryIntegralOp<E>, x: E, tag: string, name: string) returns (y: E)
    requires op.Valid()
    modifies op
    ensures op.Valid() && y == x
    ensures name in op.elemDataMap && op.elemDataMap[name] == ElemLstData(tag)
  {
    op.AddElemList(x, tag, name);
    y := op.GetElemList(name, tag);
  }

  /** Adding a list under one name leaves every other registered list as it was. */
  method AddKeepsOthers<E>(op: BoundaryIntegralOp<E>, x: E, tag: string, name: string, other: string)
    requires op.Valid() && other in op.elemLstMap && other != name
    modifies op
    ensures op.Valid() && other in op.elemLstMap
    ensures op.elemLstMap[other] == old(op.elemLstMap[other])
    ensures op.elemDataMap[other] == old(op.elemDataMap[other])
  {
    op.AddElemList(x, tag, name);
  }

  /** DeleteElemList(name) removes that name and leaves every other registered list as it was. */
  method DeleteKeepsOthers<E>(op: BoundaryIntegralOp<E>, name: string, other: string)
    requires op.Valid() && name in op.elemLstMap && other in op.elemLstMap && other != name
    modifies op
    ensures op.Valid() && name !in op.elemLstMap && name !in op.elemDataMap
    ensures other in op.elemLstMap && op.elemLstMap[other] == old(op.elemLstMap[other])
    ensures op.elemDataMap[other] == old(op.elemDataMap[other])
  {
    op.DeleteElemList(name);
  }

  /** The lists added under the default names of two different types are both kept. */
  method TwoTypesKept<E>(op: BoundaryIntegralOp<E>, x: E, y: E, tagX: string, tagY: string) returns (x': E, y': E)
    requires op.Valid() && tagX != tagY
    modifies op
    ensures op.Valid() && x' == x && y' == y
  {
    op.AddElemListOfType(x, tagX);
    op.AddElemListOfType(y, tagY);
    x' := op.GetElemListOfType(tagX);
    y' := op.GetElemListOfType(tagY);
  }
}
