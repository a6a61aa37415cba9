/**
 * The first phase of FmsMeshToMesh: choosing the main component, counting
 * its entities by type, choosing the boundary component and the two tags,
 * and decoding the tag values into attribute arrays.
 */
module Selection {
  import opened Fms
  import opened Errors

  predicate HasCoords(c: Component)
  {
    c.coords.Some?
  }

  /** The first component at or after `from` that has coordinates. */
  function FirstWithCoords(comps: seq<Component>, from: nat): (r: Option<nat>)
    decreases |comps| - from
    ensures r.Some? ==> from <= r.value < |comps| && HasCoords(comps[r.value])
    ensures r.Some? ==> forall j :: from <= j < r.value ==> !HasCoords(comps[j])
    ensures r.None? ==> forall j :: from <= j < |comps| ==> !HasCoords(comps[j])
  {
    if from >= |comps| then None
    else if HasCoords(comps[from]) then Some(from)
    else FirstWithCoords(comps, from + 1)
  }

  /** The component loop: stop at the first component with coordinates. */
  method FindMainComponent(comps: seq<Component>) returns (main: Option<nat>)
    ensures main == FirstWithCoords(comps, 0)
  {
    var i := 0;
    main := None;
    while i < |comps|
      invariant i <= |comps|
      invariant FirstWithCoords(comps, 0) == FirstWithCoords(comps, i)
    {
      if HasCoords(comps[i]) {
        main := Some(i);
        return;
      }
      i := i + 1;
    }
  }

  /** Total number of entities of type `t` over all parts. */
  function NumEnts(parts: seq<Part>, t: EntityType): nat
  {
    if parts == [] then 0 else NumEnts(parts[..|parts| - 1], t) + GetBlock(parts[|parts| - 1], t).num
  }

  /** The counting loops: `n[Ordinal(t)]` is the number of entities of type `t` in the main component. */
  method CountEntities(parts: seq<Part>) returns (n: seq<nat>)
    ensures |n| == |EntityTypes|
    ensures forall t :: n[Ordinal(t)] == NumEnts(parts, t)
  {
    n := [];
    var et := 0;
    while et < |EntityTypes|
      invariant et <= |EntityTypes| && |n| == et
      invariant forall k :: 0 <= k < et ==> n[k] == NumEnts(parts, EntityTypes[k])
    {
      var t := EntityTypes[et];
      var count := 0;
      var p := 0;
      while p < |parts|
        invariant p <= |parts|
        invariant count == NumEnts(parts[..p], t)
      {
        assert parts[..p + 1][..p] == parts[..p];
        count := count + GetBlock(parts[p], t).num;
        p := p + 1;
      }
      assert parts[..p] == parts;
      n := n + [count];
      et := et + 1;
    }
  }

  /**
   * The first related component whose dimension is one below `dim`
   * (`dim - 1` is unsigned in the source, so a main component of dimension 0
   * has no boundary).
   */
  function FirstBoundary(comps: seq<Component>, rels: seq<nat>, dim: nat, from: nat): (r: Option<nat>)
    requires forall i :: 0 <= i < |rels| ==> rels[i] < |comps|
    decreases |rels| - from
    ensures r.Some? ==> r.value < |comps| && comps[r.value].dim + 1 == dim
    ensures r.Some? ==>
      exists i :: from <= i < |rels| && rels[i] == r.value && (forall j :: from <= j < i ==> comps[rels[j]].dim + 1 != dim)
    ensures r.None? ==> forall i :: from <= i < |rels| ==> comps[rels[i]].dim + 1 != dim
  {
    if from >= |rels| then None
    else if comps[rels[from]].dim + 1 == dim then Some(rels[from])
    else FirstBoundary(comps, rels, dim, from + 1)
  }

  method FindBoundaryComponent(comps: seq<Component>, rels: seq<nat>, dim: nat) returns (bdr: Option<nat>)
    requires forall i :: 0 <= i < |rels| ==> rels[i] < |comps|
    ensures bdr == FirstBoundary(comps, rels, dim, 0)
  {
    var i := 0;
    while i < |rels|
      invariant i <= |rels|
      invariant FirstBoundary(comps, rels, dim, 0) == FirstBoundary(comps, rels, dim, i)
    {
      if comps[rels[i]].dim + 1 == dim {
        return Some(rels[i]);
      }
      i := i + 1;
    }
    return None;
  }

  /**
   * The first tag at or after `from` whose component is `c`.  The source
   * compares component handles, so with `c` none this is the first tag
   * that has no component.
   */
  function FirstTagOf(tags: seq<Tag>, c: Option<nat>, from: nat): (r: Option<nat>)
    decreases |tags| - from
    ensures r.Some? ==> from <= r.value < |tags| && tags[r.value].comp == c
    ensures r.Some? ==> forall j :: from <= j < r.value ==> tags[j].comp != c
    ensures r.None? ==> forall j :: from <= j < |tags| ==> tags[j].comp != c
  {
    if from >= |tags| then None
    else if tags[from].comp == c then Some(from)
    else FirstTagOf(tags, c, from + 1)
  }

  /**
   * The tag loop: the first tag of the main component becomes the element
   * tag, the first one whose component is the boundary component the
   * boundary tag.  Without a boundary component that is the first tag with
   * no component, since both handles are null.
   */
  method FindTags(tags: seq<Tag>, main: nat, bdr: Option<nat>) returns (elemTag: Option<nat>, bdrTag: Option<nat>)
    ensures elemTag == FirstTagOf(tags, Some(main), 0)
    ensures bdr != Some(main) ==> bdrTag == FirstTagOf(tags, bdr, 0)
  {
    elemTag, bdrTag := None, None;
    var i := 0;
    while i < |tags|
      invariant i <= |tags|
      invariant elemTag.None? ==> FirstTagOf(tags, Some(main), 0) == FirstTagOf(tags, Some(main), i)
      invariant elemTag.Some? ==> elemTag == FirstTagOf(tags, Some(main), 0)
      invariant bdr != Some(main) && bdrTag.None? ==> FirstTagOf(tags, bdr, 0) == FirstTagOf(tags, bdr, i)
      invariant bdr != Some(main) && bdrTag.Some? ==> bdrTag == FirstTagOf(tags, bdr, 0)
    {
      if elemTag.None? && tags[i].comp == Some(main) {
        elemTag := Some(i);
      } else if bdrTag.None? && tags[i].comp == bdr {
        bdrTag := Some(i);
      }
      i := i + 1;
    }
  }

  const TwoTo31: int := 0x8000_0000
  const TwoTo32: int := 0x1_0000_0000

  /** Reading an unsigned 32-bit value through an `int` reference: values from 2^31 up wrap to negative. */
  function AsInt32(v: int): (r: int)
    requires 0 <= v < TwoTo32
    ensures -TwoTo31 <= r < TwoTo31
    ensures r % TwoTo32 == v
  {
    if v >= TwoTo31 then v - TwoTo32 else v
  }

  /** Every value of a tag fits the tag's integer width. */
  predicate ValuesFit(t: Tag)
  {
    forall i :: 0 <= i < |t.values| ==>
      match t.intType
      case UInt8 => 0 <= t.values[i] < 0x100
      case Int32 => -TwoTo31 <= t.values[i] < TwoTo31
      case UInt32 => 0 <= t.values[i] < TwoTo32
      case _ => true
  }

  datatype Decoded = Attrs(values: seq<int>) | BadWidth

  /**
   * Attribute decoding: 8-bit unsigned values are converted to int, 32-bit
   * values are used in place (so unsigned ones are reinterpreted as signed),
   * any other width is rejected.
   */
  function DecodeAttr(t: Tag): (r: Decoded)
    requires ValuesFit(t)
    ensures r.BadWidth? <==> t.intType !in {UInt8, Int32, UInt32}
    ensures r.Attrs? ==> |r.values| == |t.values|
    ensures r.Attrs? && t.intType != UInt32 ==> r.values == t.values
    ensures r.Attrs? ==> forall i :: 0 <= i < |t.values| ==> r.values[i] % TwoTo32 == t.values[i] % TwoTo32
    ensures r.Attrs? && t.intType == UInt32 ==> forall i :: 0 <= i < |t.values| ==> -TwoTo31 <= r.values[i] < TwoTo31
  {
    match t.intType
    case UInt8 => Attrs(t.values)
    case Int32 => Attrs(t.values)
    case UInt32 => Attrs(seq(|t.values|, i requires 0 <= i < |t.values| => AsInt32(t.values[i])))
    case _ => BadWidth
  }

  /** Decoding the element tag (failure code 1) or the boundary tag (failure code 2); no tag means no attribute array. */
  function DecodeTag(tags: seq<Tag>, which: Option<nat>, err: Error): (r: Status)
    requires which.Some? ==> which.value < |tags| && ValuesFit(tags[which.value])
    ensures r != Undefined
    ensures r == Fail(err) <==> which.Some? && tags[which.value].intType !in {UInt8, Int32, UInt32}
    ensures r != Fail(err) ==> r == Ok
  {
    if which.Some? && DecodeAttr(tags[which.value]).BadWidth? then Fail(err) else Ok
  }

  /** The attribute array of a chosen tag that decodes. */
  function AttrsOf(tags: seq<Tag>, which: Option<nat>): (r: Option<seq<int>>)
    requires which.Some? ==> which.value < |tags| && ValuesFit(tags[which.value])
    ensures r.Some? <==> which.Some? && tags[which.value].intType in {UInt8, Int32, UInt32}
  {
    if which.None? then None
    else
      match DecodeAttr(tags[which.value])
      case Attrs(v) => Some(v)
      case BadWidth => None
  }
}
