/** The type tags and the logical content of native geometry arrays, shared by
    the WKB and WKT conversions. A native array is modelled by what it holds,
    one optional geometry per slot, not by its coordinate and offset buffers. */
module ArrayTypes {
  import opened Errors
  import opened Geometry

  /** Array metadata (CRS and edge interpretation). The conversions only carry
      it from input to output; its contents are not interpreted here. */
  datatype ArrayMetadata = ArrayMetadata(crs: Option<string>)

  /** `ArrayMetadata::default()`. */
  function DefaultMetadata(): ArrayMetadata {
    ArrayMetadata(None)
  }

  datatype CoordType = Interleaved | Separated

  datatype Dimension = XY | XYZ

  /** The const generic `D` a dimension selects. */
  function DimSize(d: Dimension): nat {
    if d == XY then 2 else 3
  }

  /** The dimension tag of an array built with const generic `D`. */
  function DimensionOf(size: nat): Dimension {
    if size == 2 then XY else XYZ
  }

  /** A geometry as a builder of dimension `d` stores it: a 2D builder keeps
      two ordinates per coordinate, so the z of a 3D geometry is dropped. */
  function InDimension(g: Geometry, d: Dimension): Geometry {
    if d == XY then Flat(g) else g
  }

  /** `g` is stored unchanged by a builder of dimension `d`. */
  predicate FitsDimension(g: Geometry, d: Dimension) {
    InDimension(g, d) == g
  }

  /** The eight native array kinds. */
  datatype ArrayKind =
    | PointArray | LineStringArray | PolygonArray | MultiPointArray
    | MultiLineStringArray | MultiPolygonArray | MixedArray | GeometryCollectionArray

  /** The six kinds that hold one geometry kind only. */
  predicate IsConcrete(k: ArrayKind) {
    k != MixedArray && k != GeometryCollectionArray
  }

  /** The geometry kind a concrete array kind holds. */
  function GeometryKindOf(k: ArrayKind): GeometryKind
    requires IsConcrete(k)
  {
    match k
    case PointArray => PointKind
    case LineStringArray => LineStringKind
    case PolygonArray => PolygonKind
    case MultiPointArray => MultiPointKind
    case MultiLineStringArray => MultiLineStringKind
    case MultiPolygonArray => MultiPolygonKind
  }

  /** The geometry kinds a Mixed array is a union of: the six kinds of the
      concrete arrays. */
  predicate InMixed(gk: GeometryKind) {
    || gk == PointKind || gk == LineStringKind || gk == PolygonKind
    || gk == MultiPointKind || gk == MultiLineStringKind || gk == MultiPolygonKind
  }

  /** `NativeType`: a kind with its coordinate layout and dimension, or `Rect`. */
  datatype NativeType =
    | Native(kind: ArrayKind, coordType: CoordType, dim: Dimension)
    | RectType(rectDim: Dimension)

  /** A native geometry array: its type, one optional geometry per slot
      (`None` is a null slot) and its metadata. */
  datatype NativeArray = NativeArray(dataType: NativeType, geoms: seq<Option<Geometry>>, metadata: ArrayMetadata)

  /** Every non-null slot holds a geometry of kind `gk`, and there is one. */
  predicate AllOfKind(geoms: seq<Option<Geometry>>, gk: GeometryKind) {
    && (exists i | 0 <= i < |geoms| :: geoms[i].Some?)
    && forall i | 0 <= i < |geoms| && geoms[i].Some? :: KindOf(geoms[i].value) == gk
  }

  /** The concrete kind every non-null slot has, when there is one: the kind a
      heterogeneous array narrows to. */
  function CommonKind(geoms: seq<Option<Geometry>>): (r: Option<ArrayKind>)
    ensures r.Some? ==> IsConcrete(r.value) && AllOfKind(geoms, GeometryKindOf(r.value))
    ensures forall k | IsConcrete(k) :: AllOfKind(geoms, GeometryKindOf(k)) ==> r == Some(k)
  {
    if AllOfKind(geoms, PointKind) then Some(PointArray)
    else if AllOfKind(geoms, LineStringKind) then Some(LineStringArray)
    else if AllOfKind(geoms, PolygonKind) then Some(PolygonArray)
    else if AllOfKind(geoms, MultiPointKind) then Some(MultiPointArray)
    else if AllOfKind(geoms, MultiLineStringKind) then Some(MultiLineStringArray)
    else if AllOfKind(geoms, MultiPolygonKind) then Some(MultiPolygonArray)
    else None
  }

  /** The assumption the modelled code makes of `downcast(true)`, which is not
      part of this model: a Mixed or GeometryCollection array whose non-null
      slots all hold one concrete kind narrows to that kind, keeping its
      slots, coordinate layout, dimension and metadata. */
  ghost predicate NarrowsUniformArrays(downcast: (NativeArray, bool) -> NativeArray) {
    forall a: NativeArray | a.dataType.Native? && !IsConcrete(a.dataType.kind) && CommonKind(a.geoms).Some? ::
      downcast(a, true) == NativeArray(Native(CommonKind(a.geoms).value, a.dataType.coordType, a.dataType.dim), a.geoms, a.metadata)
  }
}
