/** Conversion between WKB columns and native geometry arrays: the dispatch
    from a target `NativeType` to a builder, the `FromWKB` implementations
    (typed, dynamic and chunked) and the `ToWKB` dispatch. The WKB byte
    format and the builders are not part of this model: a geometry's bytes
    come from an `encode` function, bytes are read back by a `decode`
    function that may fail, and a builder yields one optional geometry per
    row. */
module WkbApi {
  import opened Errors
  import opened Geometry
  import opened ArrayTypes
  import opened WkbArrays
  import opened Chunked

  /** The builder `from_wkb` fills: a builder of one concrete kind, or a
      Mixed or GeometryCollection builder with its `prefer_multi` flag. The
      `size` is the const generic `D` (2 or 3). */
  datatype WkbBuilder =
    | TypedBuilder(kind: ArrayKind, coordType: CoordType, size: nat)
    | MixedBuilder(coordType: CoordType, size: nat, preferMulti: bool)
    | CollectionBuilder(coordType: CoordType, size: nat, preferMulti: bool)

  /** The type of the array a builder finishes into. */
  function BuiltType(b: WkbBuilder): NativeType {
    match b
    case TypedBuilder(k, ct, size) => Native(k, ct, DimensionOf(size))
    case MixedBuilder(ct, size, _) => Native(MixedArray, ct, DimensionOf(size))
    case CollectionBuilder(ct, size, _) => Native(GeometryCollectionArray, ct, DimensionOf(size))
  }

  /** Whether a builder accepts a geometry: a typed builder only its own kind,
      the Mixed builder the six kinds a Mixed array is a union of, and the
      GeometryCollection builder any kind. */
  predicate Accepts(b: WkbBuilder, g: Geometry) {
    match b
    case TypedBuilder(k, _, _) => IsConcrete(k) && KindOf(g) == GeometryKindOf(k)
    case MixedBuilder(_, _, _) => InMixed(KindOf(g))
    case CollectionBuilder(_, _, _) => true
  }

  /** One row as a builder takes it: a null row stays null, a blob is decoded
      and then pushed in the builder's dimension, or rejected with
      `IncorrectType`. */
  function DecodeRow(b: WkbBuilder, decode: seq<Byte> -> Result<Geometry>, row: Option<seq<Byte>>): (r: Result<Option<Geometry>>)
    ensures row.None? ==> r == Ok(None)
    ensures row.Some? && decode(row.value).Err? ==> r == Err(decode(row.value).error)
    ensures row.Some? && decode(row.value).Ok? ==> (r.Ok? <==> Accepts(b, decode(row.value).value))
    ensures row.Some? && decode(row.value).Ok? && r.Err? ==> r.error.IncorrectType?
    ensures row.Some? && r.Ok? ==> r.value == Some(InDimension(decode(row.value).value, BuiltType(b).dim))
  {
    match row
    case None => Ok(None)
    case Some(bytes) =>
      var g :- decode(bytes);
      if Accepts(b, g) then Ok(Some(InDimension(g, DimensionOf(b.size)))) else Err(IncorrectType("geometry kind does not match the builder"))
  }

  function RowDecoder(b: WkbBuilder, decode: seq<Byte> -> Result<Geometry>): Option<seq<Byte>> -> Result<Option<Geometry>> {
    row => DecodeRow(b, decode, row)
  }

  /** `<Builder>::from_wkb(&arr.iter().collect(), coord_type, arr.metadata(), ..)`
      followed by `finish()`: every row is converted in order, the first
      failing row fails the whole array, and the metadata is carried over. */
  function BuildFromWkb(b: WkbBuilder, arr: WkbArray, decode: seq<Byte> -> Result<Geometry>): (r: Result<NativeArray>)
    requires Valid(arr)
    ensures r.Ok? <==> forall i | 0 <= i < Len(arr) :: DecodeRow(b, decode, Rows(arr)[i]).Ok?
    ensures r.Ok? ==> r.value.dataType == BuiltType(b) && r.value.metadata == arr.metadata
    ensures r.Ok? ==> |r.value.geoms| == Len(arr)
    ensures r.Ok? ==> forall i | 0 <= i < Len(arr) :: (r.value.geoms[i].Some? <==> IsValid(arr, i))
    ensures r.Ok? ==> forall i | 0 <= i < Len(arr) && IsValid(arr, i) ::
      && decode(Value(arr, i)).Ok? && Accepts(b, decode(Value(arr, i)).value)
      && r.value.geoms[i].value == InDimension(decode(Value(arr, i)).value, BuiltType(b).dim)
    ensures r.Err? ==> exists i | 0 <= i < Len(arr) ::
      DecodeRow(b, decode, Rows(arr)[i]) == Err(r.error) && forall j | 0 <= j < i :: DecodeRow(b, decode, Rows(arr)[j]).Ok?
  {
    var geoms :- TryMap(Rows(arr), RowDecoder(b, decode));
    Ok(NativeArray(BuiltType(b), geoms, arr.metadata))
  }

  /** The builder the typed `FromWKB` impl of an array kind uses: the kind's
      own builder, or a Mixed or GeometryCollection builder with
      `prefer_multi` fixed to `true`. */
  function ImplBuilder(kind: ArrayKind, ct: CoordType, size: nat): WkbBuilder {
    if kind == MixedArray then MixedBuilder(ct, size, true)
    else if kind == GeometryCollectionArray then CollectionBuilder(ct, size, true)
    else TypedBuilder(kind, ct, size)
  }

  /** `FromWKB for <Kind>Array<D>`. */
  function FromWkbImpl(kind: ArrayKind, size: nat, arr: WkbArray, ct: CoordType, decode: seq<Byte> -> Result<Geometry>): (r: Result<NativeArray>)
    requires Valid(arr)
    ensures r.Ok? ==> r.value.dataType == Native(kind, ct, DimensionOf(size)) && r.value.metadata == arr.metadata
    ensures r.Ok? ==> |r.value.geoms| == Len(arr)
    ensures r.Ok? && IsConcrete(kind) ==> forall i | 0 <= i < Len(arr) && r.value.geoms[i].Some? ::
      KindOf(r.value.geoms[i].value) == GeometryKindOf(kind)
    ensures r.Ok? && kind == MixedArray ==> forall i | 0 <= i < Len(arr) && r.value.geoms[i].Some? ::
      InMixed(KindOf(r.value.geoms[i].value))
  {
    BuildFromWkb(ImplBuilder(kind, ct, size), arr, decode)
  }

  /** `FromWKB for Arc<dyn NativeArray>`: always a 2D GeometryCollection,
      with `prefer_multi = true`, then `downcast(true)`. */
  function FromWkbDyn(arr: WkbArray, ct: CoordType, decode: seq<Byte> -> Result<Geometry>, downcast: (NativeArray, bool) -> NativeArray): (r: Result<NativeArray>)
    requires Valid(arr)
    ensures var gc := FromWkbImpl(GeometryCollectionArray, 2, arr, ct, decode);
      && (gc.Err? ==> r == Err(gc.error))
      && (gc.Ok? ==> r == Ok(downcast(gc.value, true)))
  {
    var gc :- FromWkbImpl(GeometryCollectionArray, 2, arr, ct, decode);
    Ok(downcast(gc, true))
  }

  /** `FromWKB for Chunked<Kind>Array<D>`: the chunks are converted in order
      and the first failing chunk fails the whole. */
  function FromWkbChunked(kind: ArrayKind, size: nat, chunks: seq<WkbArray>, ct: CoordType, decode: seq<Byte> -> Result<Geometry>): (r: Result<seq<NativeArray>>)
    requires forall i | 0 <= i < |chunks| :: Valid(chunks[i])
    ensures r.Ok? <==> forall i | 0 <= i < |chunks| :: FromWkbImpl(kind, size, chunks[i], ct, decode).Ok?
    ensures r.Ok? ==> |r.value| == |chunks|
    ensures r.Ok? ==> forall i | 0 <= i < |chunks| :: r.value[i] == FromWkbImpl(kind, size, chunks[i], ct, decode).value
    ensures r.Err? ==> exists i | 0 <= i < |chunks| ::
      FromWkbImpl(kind, size, chunks[i], ct, decode) == Err(r.error)
      && forall j | 0 <= j < i :: FromWkbImpl(kind, size, chunks[j], ct, decode).Ok?
  {
    TryMap(chunks, (c: WkbArray) requires Valid(c) => FromWkbImpl(kind, size, c, ct, decode))
  }

  /** `FromWKB for Arc<dyn ChunkedNativeArray>`: the chunked 2D
      GeometryCollection conversion, then the chunked `downcast(true)`. */
  function FromWkbChunkedDyn(chunks: seq<WkbArray>, ct: CoordType, decode: seq<Byte> -> Result<Geometry>,
                             chunkedDowncast: (seq<NativeArray>, bool) -> seq<NativeArray>): (r: Result<seq<NativeArray>>)
    requires forall i | 0 <= i < |chunks| :: Valid(chunks[i])
    ensures var gc := FromWkbChunked(GeometryCollectionArray, 2, chunks, ct, decode);
      && (gc.Err? ==> r == Err(gc.error))
      && (gc.Ok? ==> r == Ok(chunkedDowncast(gc.value, true)))
  {
    var gc :- FromWkbChunked(GeometryCollectionArray, 2, chunks, ct, decode);
    Ok(chunkedDowncast(gc, true))
  }

  /** The dispatch table of `from_wkb`: a concrete target selects that kind's
      builder (its `prefer_multi` is not used), Mixed and GeometryCollection
      targets receive the caller's `prefer_multi`, and `Rect` is refused. */
  function BuilderFor(target: NativeType, preferMulti: bool): (r: Result<WkbBuilder>)
    ensures target.RectType? <==> r.Err?
    ensures r.Err? ==> r.error.General?
    ensures r.Ok? ==> BuiltType(r.value) == target
    ensures r.Ok? && IsConcrete(target.kind) ==> r.value == TypedBuilder(target.kind, target.coordType, DimSize(target.dim))
    ensures r.Ok? && target.kind == MixedArray ==> r.value == MixedBuilder(target.coordType, DimSize(target.dim), preferMulti)
    ensures r.Ok? && target.kind == GeometryCollectionArray ==> r.value == CollectionBuilder(target.coordType, DimSize(target.dim), preferMulti)
  {
    match target
    case RectType(_) => Err(General("Unexpected data type Rect"))
    case Native(kind, ct, dim) =>
      if kind == MixedArray then Ok(MixedBuilder(ct, DimSize(dim), preferMulti))
      else if kind == GeometryCollectionArray then Ok(CollectionBuilder(ct, DimSize(dim), preferMulti))
      else Ok(TypedBuilder(kind, ct, DimSize(dim)))
  }

  /** `from_wkb(arr, target, prefer_multi)`: every row decoded and pushed
      into the target's builder, in the target's dimension; the first row
      that fails fails the whole. */
  function FromWkb(arr: WkbArray, target: NativeType, preferMulti: bool, decode: seq<Byte> -> Result<Geometry>): (r: Result<NativeArray>)
    requires Valid(arr)
    ensures target.RectType? ==> r.Err? && r.error.General?
    ensures target.Native? ==>
      (r.Ok? <==> forall i | 0 <= i < Len(arr) :: DecodeRow(BuilderFor(target, preferMulti).value, decode, Rows(arr)[i]).Ok?)
    ensures r.Ok? ==> r.value.dataType == target && r.value.metadata == arr.metadata
    ensures r.Ok? ==> |r.value.geoms| == Len(arr)
    ensures r.Ok? ==> forall i | 0 <= i < Len(arr) :: (r.value.geoms[i].Some? <==> IsValid(arr, i))
    ensures r.Ok? ==> forall i | 0 <= i < Len(arr) && IsValid(arr, i) ::
      && decode(Value(arr, i)).Ok? && Accepts(BuilderFor(target, preferMulti).value, decode(Value(arr, i)).value)
      && r.value.geoms[i].value == InDimension(decode(Value(arr, i)).value, target.dim)
    ensures r.Ok? && IsConcrete(target.kind) ==> forall i | 0 <= i < Len(arr) && r.value.geoms[i].Some? ::
      KindOf(r.value.geoms[i].value) == GeometryKindOf(target.kind)
    ensures r.Ok? && target.kind == MixedArray ==> forall i | 0 <= i < Len(arr) && r.value.geoms[i].Some? ::
      InMixed(KindOf(r.value.geoms[i].value))
    ensures r.Err? && target.Native? ==> exists i | 0 <= i < Len(arr) ::
      && DecodeRow(BuilderFor(target, preferMulti).value, decode, Rows(arr)[i]) == Err(r.error)
      && forall j | 0 <= j < i :: DecodeRow(BuilderFor(target, preferMulti).value, decode, Rows(arr)[j]).Ok?
  {
    var b :- BuilderFor(target, preferMulti);
    BuildFromWkb(b, arr, decode)
  }

  /** A 2D target keeps no z: every coordinate of every row `from_wkb`
      returns is two-dimensional, whatever the blobs held. */
  lemma TwoDimensionalTargetDropsZ(arr: WkbArray, target: NativeType, preferMulti: bool, decode: seq<Byte> -> Result<Geometry>)
    requires Valid(arr) && target.Native? && target.dim == XY
    requires FromWkb(arr, target, preferMulti, decode).Ok?
    ensures var geoms := FromWkb(arr, target, preferMulti, decode).value.geoms;
      forall i, j | 0 <= i < |geoms| && geoms[i].Some? && 0 <= j < |CoordsOf(geoms[i].value)| ::
        CoordsOf(geoms[i].value)[j].z.None?
  {
    var geoms := FromWkb(arr, target, preferMulti, decode).value.geoms;
    forall i | 0 <= i < |geoms| && geoms[i].Some?
      ensures forall j | 0 <= j < |CoordsOf(geoms[i].value)| :: CoordsOf(geoms[i].value)[j].z.None?
    {
      CoordsOfFlat(decode(Value(arr, i)).value);
    }
  }

  /** `from_wkb` with a concrete target is that kind's typed impl in the
      target's dimension; with a Mixed or GeometryCollection target and
      `prefer_multi = true` it is the typed impl of that kind. */
  lemma FromWkbIsImpl(arr: WkbArray, kind: ArrayKind, ct: CoordType, dim: Dimension, preferMulti: bool, decode: seq<Byte> -> Result<Geometry>)
    requires Valid(arr)
    requires IsConcrete(kind) || preferMulti
    ensures FromWkb(arr, Native(kind, ct, dim), preferMulti, decode) == FromWkbImpl(kind, DimSize(dim), arr, ct, decode)
  {
  }

  /** The bytes `to_wkb` writes for one row: nothing for a null row. */
  function Encoded(encode: Geometry -> seq<Byte>, row: Option<Geometry>): seq<Byte> {
    if row.Some? then encode(row.value) else []
  }

  /** The value buffer `to_wkb` writes: the rows' encodings one after another. */
  function ValuesOf(encode: Geometry -> seq<Byte>, rows: seq<Option<Geometry>>): seq<Byte> {
    if |rows| == 0 then [] else ValuesOf(encode, rows[..|rows| - 1]) + Encoded(encode, rows[|rows| - 1])
  }

  /** The offsets `to_wkb` writes: where each row's encoding starts, then the end. */
  function OffsetsOf(encode: Geometry -> seq<Byte>, rows: seq<Option<Geometry>>): seq<nat> {
    seq(|rows| + 1, i requires 0 <= i <= |rows| => |ValuesOf(encode, rows[..i])|)
  }

  lemma ValuesOfStep(encode: Geometry -> seq<Byte>, rows: seq<Option<Geometry>>, i: nat)
    requires i < |rows|
    ensures ValuesOf(encode, rows[..i + 1]) == ValuesOf(encode, rows[..i]) + Encoded(encode, rows[i])
  {
    assert rows[..i + 1][..i] == rows[..i];
  }

  /** The encodings of a prefix of the rows begin the value buffer. */
  lemma {:induction false} ValuesOfPrefix(encode: Geometry -> seq<Byte>, rows: seq<Option<Geometry>>, i: nat)
    requires i <= |rows|
    ensures ValuesOf(encode, rows[..i]) <= ValuesOf(encode, rows)
    decreases |rows|
  {
    if i < |rows| {
      var n := |rows| - 1;
      assert rows[..n][..i] == rows[..i];
      ValuesOfPrefix(encode, rows[..n], i);
      assert ValuesOf(encode, rows) == ValuesOf(encode, rows[..n]) + Encoded(encode, rows[n]);
    } else {
      assert rows[..i] == rows;
    }
  }

  /** Slot `i` of the column `to_wkb` writes holds exactly the encoding of row `i`. */
  lemma SlotIsEncoding(encode: Geometry -> seq<Byte>, rows: seq<Option<Geometry>>, i: nat)
    requires i < |rows|
    ensures OffsetsOf(encode, rows)[i] <= OffsetsOf(encode, rows)[i + 1] <= |ValuesOf(encode, rows)|
    ensures ValuesOf(encode, rows)[OffsetsOf(encode, rows)[i]..OffsetsOf(encode, rows)[i + 1]] == Encoded(encode, rows[i])
  {
    ValuesOfStep(encode, rows, i);
    ValuesOfPrefix(encode, rows, i + 1);
    var longer := ValuesOf(encode, rows[..i + 1]);
    assert ValuesOf(encode, rows)[..|longer|] == longer;
  }

  /** The binary column `to_wkb` writes is well formed. */
  lemma EncodedLayout(encode: Geometry -> seq<Byte>, rows: seq<Option<Geometry>>, w: OffsetWidth, nulls: Option<seq<bool>>)
    requires |ValuesOf(encode, rows)| <= MaxOffset(w)
    requires nulls.Some? ==> |nulls.value| == |rows|
    ensures ValidBinary(BinaryArray(OffsetsOf(encode, rows), ValuesOf(encode, rows), nulls), w)
  {
    assert rows[..|rows|] == rows;
    forall i | 0 <= i < |rows|
      ensures OffsetsOf(encode, rows)[i] <= OffsetsOf(encode, rows)[i + 1]
    {
      SlotIsEncoding(encode, rows, i);
    }
  }

  /** `to_wkb` (and `ToWKB for &dyn NativeArray`) on an array of one of the
      sixteen (kind, dimension) types: one slot per row, a null slot for a
      null row, and the encoding of the geometry otherwise. `Rect` arrays are
      not accepted (the source ends in `todo!()`), and the encodings must fit
      the offset width. */
  function ToWkb(arr: NativeArray, w: OffsetWidth, encode: Geometry -> seq<Byte>): (r: WkbArray)
    requires arr.dataType.Native?
    requires |ValuesOf(encode, arr.geoms)| <= MaxOffset(w)
    ensures Valid(r) && r.width == w && r.metadata == arr.metadata
    ensures Len(r) == |arr.geoms|
    ensures forall i | 0 <= i < |arr.geoms| :: IsValid(r, i) == arr.geoms[i].Some?
    ensures forall i | 0 <= i < |arr.geoms| :: Value(r, i) == Encoded(encode, arr.geoms[i])
  {
    var validity := seq(|arr.geoms|, i requires 0 <= i < |arr.geoms| => arr.geoms[i].Some?);
    EncodedLayout(encode, arr.geoms, w, Some(validity));
    var r := New(BinaryArray(OffsetsOf(encode, arr.geoms), ValuesOf(encode, arr.geoms), Some(validity)), w, arr.metadata);
    EncodedSlots(r, encode, arr.geoms);
    r
  }

  /** A column laid out as `to_wkb` lays it out holds row `i`'s encoding in slot `i`. */
  lemma EncodedSlots(r: WkbArray, encode: Geometry -> seq<Byte>, rows: seq<Option<Geometry>>)
    requires Valid(r)
    requires r.binary.offsets == OffsetsOf(encode, rows) && r.binary.values == ValuesOf(encode, rows)
    ensures Len(r) == |rows|
    ensures forall i | 0 <= i < |rows| :: Value(r, i) == Encoded(encode, rows[i])
  {
    forall i | 0 <= i < |rows| ensures Value(r, i) == Encoded(encode, rows[i]) {
      SlotIsEncoding(encode, rows, i);
    }
  }

  /** `ToWKB for &dyn ChunkedNativeArray`: every chunk converted on its own,
      in order. */
  function ToWkbChunked(chunks: seq<NativeArray>, w: OffsetWidth, encode: Geometry -> seq<Byte>): (r: seq<WkbArray>)
    requires forall i | 0 <= i < |chunks| :: chunks[i].dataType.Native? && |ValuesOf(encode, chunks[i].geoms)| <= MaxOffset(w)
    ensures |r| == |chunks|
    ensures forall i | 0 <= i < |chunks| :: r[i] == ToWkb(chunks[i], w, encode)
  {
    seq(|chunks|, i requires 0 <= i < |chunks| => ToWkb(chunks[i], w, encode))
  }

  /** A builder that accepts the geometry and stores it unchanged reads row
      `i` of the column `to_wkb` wrote back as row `i` of the array. */
  lemma DecodeWrittenRow(arr: NativeArray, w: OffsetWidth, b: WkbBuilder,
                         encode: Geometry -> seq<Byte>, decode: seq<Byte> -> Result<Geometry>, i: nat)
    requires arr.dataType.Native?
    requires |ValuesOf(encode, arr.geoms)| <= MaxOffset(w)
    requires i < |arr.geoms|
    requires arr.geoms[i].Some? ==> decode(encode(arr.geoms[i].value)) == Ok(arr.geoms[i].value)
    requires arr.geoms[i].Some? ==> Accepts(b, arr.geoms[i].value) && FitsDimension(arr.geoms[i].value, BuiltType(b).dim)
    ensures DecodeRow(b, decode, Rows(ToWkb(arr, w, encode))[i]) == Ok(arr.geoms[i])
  {
    var rows := Rows(ToWkb(arr, w, encode));
    if arr.geoms[i].Some? {
      assert rows[i] == Some(encode(arr.geoms[i].value));
    }
  }

  /** Writing a column with `to_wkb` and reading it back with a builder that
      accepts every row, in the rows' own dimension, gives back the rows,
      when decoding undoes encoding. */
  lemma {:induction false} BuildAfterToWkb(arr: NativeArray, w: OffsetWidth, b: WkbBuilder,
                                           encode: Geometry -> seq<Byte>, decode: seq<Byte> -> Result<Geometry>)
    requires arr.dataType.Native?
    requires |ValuesOf(encode, arr.geoms)| <= MaxOffset(w)
    requires forall i | 0 <= i < |arr.geoms| && arr.geoms[i].Some? :: decode(encode(arr.geoms[i].value)) == Ok(arr.geoms[i].value)
    requires forall i | 0 <= i < |arr.geoms| && arr.geoms[i].Some? ::
      Accepts(b, arr.geoms[i].value) && FitsDimension(arr.geoms[i].value, BuiltType(b).dim)
    ensures BuildFromWkb(b, ToWkb(arr, w, encode), decode) == Ok(NativeArray(BuiltType(b), arr.geoms, arr.metadata))
  {
    var rows := Rows(ToWkb(arr, w, encode));
    forall i | 0 <= i < |rows|
      ensures DecodeRow(b, decode, rows[i]) == Ok(arr.geoms[i])
    {
      DecodeWrittenRow(arr, w, b, encode, decode, i);
    }
    TryMapAllOk(rows, RowDecoder(b, decode), arr.geoms);
  }

  /** The round trip of `point_round_trip_explicit_casting` and
      `point_3d_round_trip`, for every concrete kind: `to_wkb`, then
      `from_wkb` with the array's own type as target, gives back the array. */
  lemma ConcreteRoundTrip(arr: NativeArray, w: OffsetWidth, preferMulti: bool,
                          encode: Geometry -> seq<Byte>, decode: seq<Byte> -> Result<Geometry>)
    requires arr.dataType.Native? && IsConcrete(arr.dataType.kind)
    requires forall i | 0 <= i < |arr.geoms| && arr.geoms[i].Some? ::
      KindOf(arr.geoms[i].value) == GeometryKindOf(arr.dataType.kind) && FitsDimension(arr.geoms[i].value, arr.dataType.dim)
    requires |ValuesOf(encode, arr.geoms)| <= MaxOffset(w)
    requires forall i | 0 <= i < |arr.geoms| && arr.geoms[i].Some? :: decode(encode(arr.geoms[i].value)) == Ok(arr.geoms[i].value)
    ensures FromWkb(ToWkb(arr, w, encode), arr.dataType, preferMulti, decode) == Ok(arr)
  {
    BuildAfterToWkb(arr, w, BuilderFor(arr.dataType, preferMulti).value, encode, decode);
  }

  /** `to_wkb`, then `from_wkb` with a Mixed target, keeps every row of an
      array whose rows are of the kinds a Mixed array holds. */
  lemma MixedRoundTrip(arr: NativeArray, w: OffsetWidth, preferMulti: bool,
                       encode: Geometry -> seq<Byte>, decode: seq<Byte> -> Result<Geometry>)
    requires arr.dataType.Native?
    requires forall i | 0 <= i < |arr.geoms| && arr.geoms[i].Some? ::
      InMixed(KindOf(arr.geoms[i].value)) && FitsDimension(arr.geoms[i].value, arr.dataType.dim)
    requires |ValuesOf(encode, arr.geoms)| <= MaxOffset(w)
    requires forall i | 0 <= i < |arr.geoms| && arr.geoms[i].Some? :: decode(encode(arr.geoms[i].value)) == Ok(arr.geoms[i].value)
    ensures FromWkb(ToWkb(arr, w, encode), Native(MixedArray, arr.dataType.coordType, arr.dataType.dim), preferMulti, decode)
      == Ok(NativeArray(Native(MixedArray, arr.dataType.coordType, arr.dataType.dim), arr.geoms, arr.metadata))
  {
    var target := Native(MixedArray, arr.dataType.coordType, arr.dataType.dim);
    BuildAfterToWkb(arr, w, BuilderFor(target, preferMulti).value, encode, decode);
  }

  /** The round trip of `point_round_trip`, for every concrete kind: through
      a Mixed target and `downcast(true)` back to the original array, when
      the array holds at least one geometry. */
  lemma MixedDowncastRoundTrip(arr: NativeArray, w: OffsetWidth,
                               encode: Geometry -> seq<Byte>, decode: seq<Byte> -> Result<Geometry>,
                               downcast: (NativeArray, bool) -> NativeArray)
    requires arr.dataType.Native? && IsConcrete(arr.dataType.kind)
    requires AllOfKind(arr.geoms, GeometryKindOf(arr.dataType.kind))
    requires forall i | 0 <= i < |arr.geoms| && arr.geoms[i].Some? :: FitsDimension(arr.geoms[i].value, arr.dataType.dim)
    requires |ValuesOf(encode, arr.geoms)| <= MaxOffset(w)
    requires forall i | 0 <= i < |arr.geoms| && arr.geoms[i].Some? :: decode(encode(arr.geoms[i].value)) == Ok(arr.geoms[i].value)
    requires NarrowsUniformArrays(downcast)
    ensures var mixed := FromWkb(ToWkb(arr, w, encode), Native(MixedArray, arr.dataType.coordType, arr.dataType.dim), true, decode);
      mixed.Ok? && downcast(mixed.value, true) == arr
  {
    MixedRoundTrip(arr, w, true, encode, decode);
    var mixed := NativeArray(Native(MixedArray, arr.dataType.coordType, arr.dataType.dim), arr.geoms, arr.metadata);
    assert CommonKind(mixed.geoms) == Some(arr.dataType.kind);
  }
}
