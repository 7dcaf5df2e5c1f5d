/** Reading a column of WKT strings into a Mixed or GeometryCollection array
    (`FromWKT`). The WKT grammar belongs to the external `geozero` crate and
    is a `parse` function that may fail; the builder's own check of a pushed
    geometry, which is not part of this model either, is a `rejects`
    function naming the error it raises, if any. */
module WktApi {
  import opened Errors
  import opened Geometry
  import opened ArrayTypes
  import opened Chunked

  /** A `GenericStringArray`: one optional string per row (`None` is a null row). */
  type StringArray = seq<Option<string>>

  /** The error a builder of `kind` raises for a pushed geometry, if any: a
      Mixed builder holds only the six kinds of the concrete arrays and
      refuses the others with `IncorrectType`; every other check is the
      builder's own `rejects`. */
  function PushError(kind: ArrayKind, rejects: Geometry -> Option<GeoArrowError>, g: Geometry): (r: Option<GeoArrowError>)
    ensures kind == MixedArray && !InMixed(KindOf(g)) ==> r.Some? && r.value.IncorrectType?
    ensures r.None? <==> rejects(g).None? && (kind == MixedArray ==> InMixed(KindOf(g)))
    ensures r.Some? && (kind != MixedArray || InMixed(KindOf(g))) ==> r == rejects(g)
  {
    if kind == MixedArray && !InMixed(KindOf(g)) then Some(IncorrectType("geometry kind cannot be stored in a mixed array"))
    else rejects(g)
  }

  /** The builder the conversions fill: its options, fixed at creation, and
      the rows pushed so far. */
  class GeometryBuilder {
    const kind: ArrayKind
    const coordType: CoordType
    const dim: Dimension
    const metadata: ArrayMetadata
    const preferMulti: bool
    const rejects: Geometry -> Option<GeoArrowError>
    var rows: seq<Option<Geometry>>

    /** `new_with_options(dim, coord_type, metadata, prefer_multi)`: an empty builder. */
    constructor (kind: ArrayKind, coordType: CoordType, dim: Dimension, metadata: ArrayMetadata,
                 preferMulti: bool, rejects: Geometry -> Option<GeoArrowError>)
      ensures this.kind == kind && this.coordType == coordType && this.dim == dim
      ensures this.metadata == metadata && this.preferMulti == preferMulti && this.rejects == rejects
      ensures rows == []
    {
      this.kind := kind;
      this.coordType := coordType;
      this.dim := dim;
      this.metadata := metadata;
      this.preferMulti := preferMulti;
      this.rejects := rejects;
      rows := [];
    }

    /** `push_null`: one null row more. */
    method PushNull()
      modifies this
      ensures rows == old(rows) + [None]
    {
      rows := rows + [None];
    }

    /** `push_geometry(Some(g))`: one row more holding `g` in the builder's
        dimension, or the builder's error with nothing pushed. */
    method PushGeometry(g: Geometry) returns (err: Option<GeoArrowError>)
      modifies this
      ensures err == PushError(kind, rejects, g)
      ensures err.None? ==> rows == old(rows) + [Some(InDimension(g, dim))]
      ensures err.Some? ==> rows == old(rows)
    {
      err := PushError(kind, rejects, g);
      if err.None? {
        rows := rows + [Some(InDimension(g, dim))];
      }
    }

    /** `finish`: the array of the builder's kind holding the pushed rows. */
    function Finish(): (r: NativeArray)
      reads this
      ensures r.dataType == Native(kind, coordType, dim) && r.geoms == rows && r.metadata == metadata
    {
      NativeArray(Native(kind, coordType, dim), rows, metadata)
    }
  }

  /** The geometry a row's text becomes: the Mixed impl streams the parser's
      output into its builder; the GeometryCollection impl converts the text
      with `to_geo()` first, and a `geo` geometry has x and y only. */
  function ParseRow(kind: ArrayKind, parse: string -> Result<Geometry>, s: string): (r: Result<Geometry>)
    ensures parse(s).Err? ==> r == Err(parse(s).error)
    ensures parse(s).Ok? ==> r.Ok? && KindOf(r.value) == KindOf(parse(s).value)
    ensures kind != GeometryCollectionArray ==> r == parse(s)
    ensures kind == GeometryCollectionArray && r.Ok? ==> CoordsOf(r.value) == FlatCoords(CoordsOf(parse(s).value))
  {
    var g :- parse(s);
    if kind == GeometryCollectionArray then CoordsOfFlat(g); Ok(Flat(g)) else Ok(g)
  }

  /** One row as the conversion loop handles it: a null row is a null push,
      a string is parsed and its geometry pushed in the builder's dimension,
      and either step may fail. */
  function ReadRow(kind: ArrayKind, parse: string -> Result<Geometry>, rejects: Geometry -> Option<GeoArrowError>, dim: Dimension,
                   row: Option<string>): (r: Result<Option<Geometry>>)
    ensures row.None? ==> r == Ok(None)
    ensures row.Some? && ParseRow(kind, parse, row.value).Err? ==> r == Err(ParseRow(kind, parse, row.value).error)
    ensures row.Some? && ParseRow(kind, parse, row.value).Ok? && PushError(kind, rejects, ParseRow(kind, parse, row.value).value).Some? ==>
      r == Err(PushError(kind, rejects, ParseRow(kind, parse, row.value).value).value)
    ensures r.Ok? && row.Some? ==>
      && PushError(kind, rejects, ParseRow(kind, parse, row.value).value).None?
      && r.value == Some(InDimension(ParseRow(kind, parse, row.value).value, dim))
  {
    match row
    case None => Ok(None)
    case Some(s) =>
      var g :- ParseRow(kind, parse, s);
      var err := PushError(kind, rejects, g);
      if err.Some? then Err(err.value) else Ok(Some(InDimension(g, dim)))
  }

  function RowReader(kind: ArrayKind, parse: string -> Result<Geometry>, rejects: Geometry -> Option<GeoArrowError>, dim: Dimension)
    : Option<string> -> Result<Option<Geometry>>
  {
    row => ReadRow(kind, parse, rejects, dim, row)
  }

  /** What `from_wkt` returns for a builder of `kind`: every row read in
      order into the array of that kind and dimension, or the error of the
      first row that fails. `prefer_multi` only chooses how the builder
      stores single-part geometries and does not change the rows. */
  function ReadWkt(kind: ArrayKind, arr: StringArray, ct: CoordType, dim: Dimension, metadata: ArrayMetadata,
                   parse: string -> Result<Geometry>, rejects: Geometry -> Option<GeoArrowError>): (r: Result<NativeArray>)
    ensures r.Ok? <==> forall i | 0 <= i < |arr| :: ReadRow(kind, parse, rejects, dim, arr[i]).Ok?
    ensures r.Ok? ==> r.value.dataType == Native(kind, ct, dim) && r.value.metadata == metadata
    ensures r.Ok? ==> |r.value.geoms| == |arr|
    ensures r.Ok? ==> forall i | 0 <= i < |arr| :: (r.value.geoms[i].None? <==> arr[i].None?)
    ensures r.Ok? ==> forall i | 0 <= i < |arr| && arr[i].Some? ::
      && ParseRow(kind, parse, arr[i].value).Ok?
      && r.value.geoms[i].value == InDimension(ParseRow(kind, parse, arr[i].value).value, dim)
    ensures r.Ok? && kind == MixedArray ==> forall i | 0 <= i < |arr| && r.value.geoms[i].Some? ::
      InMixed(KindOf(r.value.geoms[i].value))
    ensures r.Err? ==> exists i | 0 <= i < |arr| ::
      && ReadRow(kind, parse, rejects, dim, arr[i]) == Err(r.error)
      && forall j | 0 <= j < i :: ReadRow(kind, parse, rejects, dim, arr[j]).Ok?
  {
    var geoms :- TryMap(arr, RowReader(kind, parse, rejects, dim));
    Ok(NativeArray(Native(kind, ct, dim), geoms, metadata))
  }

  /** The loop shared by the Mixed and GeometryCollection impls: rows
      `0..len` in order, one push per row, and a return with the error of the
      first row that fails. */
  method ReadIntoBuilder(kind: ArrayKind, arr: StringArray, ct: CoordType, dim: Dimension, metadata: ArrayMetadata,
                         preferMulti: bool, parse: string -> Result<Geometry>, rejects: Geometry -> Option<GeoArrowError>)
    returns (r: Result<NativeArray>)
    ensures r == ReadWkt(kind, arr, ct, dim, metadata, parse, rejects)
  {
    var builder := new GeometryBuilder(kind, ct, dim, metadata, preferMulti, rejects);
    ghost var read := RowReader(kind, parse, rejects, dim);
    for i := 0 to |arr|
      invariant TryMap(arr[..i], read).Ok?
      invariant builder.rows == TryMap(arr[..i], read).value
    {
      TryMapStep(arr, read, i);
      if arr[i].Some? {
        var parsed := ParseRow(kind, parse, arr[i].value);
        if parsed.Err? {
          ReadWktFails(kind, arr, ct, dim, metadata, parse, rejects, i + 1);
          return Err(parsed.error);
        }
        var err := builder.PushGeometry(parsed.value);
        if err.Some? {
          ReadWktFails(kind, arr, ct, dim, metadata, parse, rejects, i + 1);
          return Err(err.value);
        }
      } else {
        builder.PushNull();
      }
    }
    assert arr[..|arr|] == arr;
    r := Ok(builder.Finish());
  }

  /** A row that fails ends the conversion with that row's error. */
  lemma ReadWktFails(kind: ArrayKind, arr: StringArray, ct: CoordType, dim: Dimension, metadata: ArrayMetadata,
                     parse: string -> Result<Geometry>, rejects: Geometry -> Option<GeoArrowError>, n: nat)
    requires n <= |arr| && TryMap(arr[..n], RowReader(kind, parse, rejects, dim)).Err?
    ensures ReadWkt(kind, arr, ct, dim, metadata, parse, rejects) == Err(TryMap(arr[..n], RowReader(kind, parse, rejects, dim)).error)
  {
    TryMapPrefixErr(arr, RowReader(kind, parse, rejects, dim), n);
  }

  /** `FromWKT for MixedGeometryArray`. */
  method FromWktMixed(arr: StringArray, ct: CoordType, dim: Dimension, metadata: ArrayMetadata, preferMulti: bool,
                      parse: string -> Result<Geometry>, rejects: Geometry -> Option<GeoArrowError>)
    returns (r: Result<NativeArray>)
    ensures r == ReadWkt(MixedArray, arr, ct, dim, metadata, parse, rejects)
  {
    r := ReadIntoBuilder(MixedArray, arr, ct, dim, metadata, preferMulti, parse, rejects);
  }

  /** `FromWKT for GeometryCollectionArray`. */
  method FromWktCollection(arr: StringArray, ct: CoordType, dim: Dimension, metadata: ArrayMetadata, preferMulti: bool,
                           parse: string -> Result<Geometry>, rejects: Geometry -> Option<GeoArrowError>)
    returns (r: Result<NativeArray>)
    ensures r == ReadWkt(GeometryCollectionArray, arr, ct, dim, metadata, parse, rejects)
  {
    r := ReadIntoBuilder(GeometryCollectionArray, arr, ct, dim, metadata, preferMulti, parse, rejects);
  }

  /** `FromWKT for Arc<dyn NativeArray>`: a GeometryCollection with the
      caller's options, then always `downcast(true)`. */
  method FromWktDyn(arr: StringArray, ct: CoordType, dim: Dimension, metadata: ArrayMetadata, preferMulti: bool,
                    parse: string -> Result<Geometry>, rejects: Geometry -> Option<GeoArrowError>,
                    downcast: (NativeArray, bool) -> NativeArray)
    returns (r: Result<NativeArray>)
    ensures var gc := ReadWkt(GeometryCollectionArray, arr, ct, dim, metadata, parse, rejects);
      && (gc.Err? ==> r == Err(gc.error))
      && (gc.Ok? ==> r == Ok(downcast(gc.value, true)))
  {
    var gc := FromWktCollection(arr, ct, dim, metadata, preferMulti, parse, rejects);
    if gc.Err? {
      return Err(gc.error);
    }
    r := Ok(downcast(gc.value, true));
  }

  /** `FromWKT for ChunkedMixedGeometryArray` and
      `ChunkedGeometryCollectionArray`: every chunk read with the same
      options and metadata, in order; the first failing chunk fails the whole. */
  function ReadWktChunked(kind: ArrayKind, chunks: seq<StringArray>, ct: CoordType, dim: Dimension, metadata: ArrayMetadata,
                          parse: string -> Result<Geometry>, rejects: Geometry -> Option<GeoArrowError>): (r: Result<seq<NativeArray>>)
    ensures r.Ok? <==> forall i | 0 <= i < |chunks| :: ReadWkt(kind, chunks[i], ct, dim, metadata, parse, rejects).Ok?
    ensures r.Ok? ==> |r.value| == |chunks|
    ensures r.Ok? ==> forall i | 0 <= i < |chunks| ::
      r.value[i] == ReadWkt(kind, chunks[i], ct, dim, metadata, parse, rejects).value
      && r.value[i].dataType == Native(kind, ct, dim) && r.value[i].metadata == metadata
    ensures r.Err? ==> exists i | 0 <= i < |chunks| ::
      ReadWkt(kind, chunks[i], ct, dim, metadata, parse, rejects) == Err(r.error)
      && forall j | 0 <= j < i :: ReadWkt(kind, chunks[j], ct, dim, metadata, parse, rejects).Ok?
  {
    TryMap(chunks, (c: StringArray) => ReadWkt(kind, c, ct, dim, metadata, parse, rejects))
  }

  /** `FromWKT for Arc<dyn ChunkedNativeArray>`: the chunked
      GeometryCollection read, then the chunked `downcast(true)`. */
  function ReadWktChunkedDyn(chunks: seq<StringArray>, ct: CoordType, dim: Dimension, metadata: ArrayMetadata,
                             parse: string -> Result<Geometry>, rejects: Geometry -> Option<GeoArrowError>,
                             chunkedDowncast: (seq<NativeArray>, bool) -> seq<NativeArray>): (r: Result<seq<NativeArray>>)
    ensures var gc := ReadWktChunked(GeometryCollectionArray, chunks, ct, dim, metadata, parse, rejects);
      && (gc.Err? ==> r == Err(gc.error))
      && (gc.Ok? ==> r == Ok(chunkedDowncast(gc.value, true)))
  {
    var gc :- ReadWktChunked(GeometryCollectionArray, chunks, ct, dim, metadata, parse, rejects);
    Ok(chunkedDowncast(gc, true))
  }

  /** A 2D read, and any GeometryCollection read, keeps no z: every
      coordinate of every row is two-dimensional, whatever the text held. */
  lemma ReadWktDropsZ(kind: ArrayKind, arr: StringArray, ct: CoordType, dim: Dimension, metadata: ArrayMetadata,
                      parse: string -> Result<Geometry>, rejects: Geometry -> Option<GeoArrowError>)
    requires dim == XY || kind == GeometryCollectionArray
    requires ReadWkt(kind, arr, ct, dim, metadata, parse, rejects).Ok?
    ensures var geoms := ReadWkt(kind, arr, ct, dim, metadata, parse, rejects).value.geoms;
      forall i, j | 0 <= i < |geoms| && geoms[i].Some? && 0 <= j < |CoordsOf(geoms[i].value)| ::
        CoordsOf(geoms[i].value)[j].z.None?
  {
    var geoms := ReadWkt(kind, arr, ct, dim, metadata, parse, rejects).value.geoms;
    forall i | 0 <= i < |geoms| && geoms[i].Some?
      ensures forall j | 0 <= j < |CoordsOf(geoms[i].value)| :: CoordsOf(geoms[i].value)[j].z.None?
    {
      var g := ParseRow(kind, parse, arr[i].value).value;
      if dim == XY {
        CoordsOfFlat(g);
      } else {
        CoordsOfFlat(parse(arr[i].value).value);
      }
    }
  }

  /** A column of point strings read into a Mixed array narrows, under
      `downcast(true)`, to a Point array of the same dimension
      (`test_read_wkt_downcast_from_multi`, which reads three such rows). */
  lemma PointRowsDowncastToPoints(arr: StringArray, ct: CoordType, dim: Dimension, metadata: ArrayMetadata,
                                  parse: string -> Result<Geometry>, rejects: Geometry -> Option<GeoArrowError>,
                                  downcast: (NativeArray, bool) -> NativeArray)
    requires |arr| > 0
    requires forall i | 0 <= i < |arr| ::
      && arr[i].Some? && parse(arr[i].value).Ok?
      && KindOf(parse(arr[i].value).value) == PointKind && rejects(parse(arr[i].value).value).None?
    requires NarrowsUniformArrays(downcast)
    ensures var mixed := ReadWkt(MixedArray, arr, ct, dim, metadata, parse, rejects);
      mixed.Ok? && downcast(mixed.value, true).dataType == Native(PointArray, ct, dim)
      && downcast(mixed.value, true).geoms == mixed.value.geoms
  {
    var geoms := seq(|arr|, i requires 0 <= i < |arr| => Some(InDimension(parse(arr[i].value).value, dim)));
    TryMapAllOk(arr, RowReader(MixedArray, parse, rejects, dim), geoms);
    assert geoms[0].Some?;
    assert AllOfKind(geoms, PointKind);
    assert CommonKind(geoms) == Some(PointArray);
  }

  /** `test_read_wkt`: when the three rows read, row 0 of the Mixed array is
      the point the parser reads from `"POINT (30 10)"`. */
  lemma FirstRowIsParsedPoint(ct: CoordType, metadata: ArrayMetadata,
                              parse: string -> Result<Geometry>, rejects: Geometry -> Option<GeoArrowError>)
    requires parse("POINT (30 10)") == Ok(PointGeom(Point(Some(Coord(Fin(30.0), Fin(10.0), None)))))
    requires ReadWkt(MixedArray, [Some("POINT (30 10)"), Some("LINESTRING (30 10, 10 30, 40 40)"),
                                  Some("POLYGON ((30 10, 40 40, 20 40, 10 20, 30 10))")], ct, XY, metadata, parse, rejects).Ok?
    ensures ReadWkt(MixedArray, [Some("POINT (30 10)"), Some("LINESTRING (30 10, 10 30, 40 40)"),
                                 Some("POLYGON ((30 10, 40 40, 20 40, 10 20, 30 10))")], ct, XY, metadata, parse, rejects).value.geoms[0]
      == Some(PointGeom(Point(Some(Coord(Fin(30.0), Fin(10.0), None)))))
  {
  }
}
