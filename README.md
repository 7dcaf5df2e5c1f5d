# geoarrow: bounding rects, WKB arrays and the WKB/WKT conversions

This project models, in Dafny, four pieces of the geometry array layer of
geoarrow-rs, and proves properties of the model:

- **The bounding-rect accumulator** (`BoundingRects`). `BoundingRect` holds
  six extents: minimum and maximum x, y and z.
  - The extents start at +inf for the minimums and -inf for the maximums.
  - `add_coord` widens them. Every other `add_*` method folds `add_coord` over
    the coordinates of its argument.
  - `+` merges two accumulators axis by axis.
  - `update` adds the 2D corners of another accumulator.
  - A class `BoundingRect` carries the six fields, and its methods update them
    in place. Each method is proved to leave the state
    `FoldCoords(old state, coordinates of the argument)`.
  - `FoldCoords` is characterised independently: on each axis, its result is
    the least (or greatest) of the starting extent and of every ordinate seen.
  - Coordinates are doubles without NaN: `Ext = NegInf | Fin(real) | PosInf`.
- **The WKB array** (`WkbArrays`). This is an Arrow variable-size binary
  column: offsets, value bytes and an optional validity.
  - It carries the tag `WKB` for 32-bit offsets or `LargeWKB` for 64-bit
    offsets, plus metadata.
  - The model covers its construction, `slice`, `with_metadata`,
    `into_arrow`, `buffer_lengths`, the i32↔i64 offset conversions and the
    conversions from an Arrow array.
- **The WKB conversion dispatch** (`WkbApi`).
  - `from_wkb` maps a target type to a builder.
  - The `FromWKB` impls are modelled for typed, dynamic and chunked inputs.
  - `to_wkb` writes a column of encodings.
  - The WKB byte format is the pair of function parameters `encode` and
    `decode`. The builders are modelled by what they produce: one optional
    geometry per row.
- **The WKT ingestion loop** (`WktApi`). A builder class is filled row by row
  by a loop proved against the function `ReadWkt`:
  - one push per row;
  - null rows stay null;
  - the first failing row fails the whole conversion.

  The WKT grammar is a `parse` parameter. The builder's own check of a pushed
  geometry is a `rejects` parameter. `downcast` is a parameter as well.

Chunked arrays are sequences of chunks converted with `Chunked.TryMap`. It
converts the chunks in order and returns the error of the first chunk that
fails.

Some details of the code shape the model:
- `from_wkb` refuses a `Rect` target with a `General` error
  (src/io/wkb/api.rs:195-200).
- `to_wkb` of a `Rect` array ends in `todo!()` (src/io/wkb/api.rs:241, 301
  and 327). The model therefore has it as a precondition.
- A builder stores each geometry in its own dimension: a 2D builder keeps x
  and y and drops z. The dynamic WKB conversion always builds 2D
  (src/io/wkb/api.rs:84). The GeometryCollection WKT impl converts each row
  with `to_geo()` (rust/geoarrow/src/io/geozero/api/wkt.rs:70), and a `geo`
  geometry has x and y only.

## Model

| member | source | states |
|---|---|---|
| BoundingRects.BoundingRect.constructor | rust/geoarrow/src/algorithm/native/bounding_rect.rs:21-30 | a new accumulator has every minimum at +inf and every maximum at -inf |
| BoundingRects.FreshIsEmpty | rust/geoarrow/src/algorithm/native/bounding_rect.rs:21-62 | a fresh accumulator reports no `minz`/`maxz` and dimension `Xy`; adding one coordinate to it gives that coordinate's extents |
| BoundingRects.MinZOfFold | rust/geoarrow/src/algorithm/native/bounding_rect.rs:40-46 | after adding coordinates to a fresh accumulator, `minz()` is absent exactly when no coordinate had a z below +inf (so while only 2D coordinates were added); otherwise it is a z that was added and no added z is smaller |
| BoundingRects.MaxZOfFold | rust/geoarrow/src/algorithm/native/bounding_rect.rs:56-62 | after adding coordinates to a fresh accumulator, `maxz()` is absent exactly when no coordinate had a z above -inf; otherwise it is a z that was added and no added z is greater |
| BoundingRects.AddCoordTo | rust/geoarrow/src/algorithm/native/bounding_rect.rs:64-92 | afterwards the extents cover the coordinate; minimums never increase and maximums never decrease; each extent either stays or becomes the coordinate's ordinate; a 2D coordinate leaves z untouched |
| BoundingRects.BoundingRect.AddCoord | rust/geoarrow/src/algorithm/native/bounding_rect.rs:64-92 | the six fields, updated in place by the conditional assignments, equal `AddCoordTo` of the old state |
| BoundingRects.AddCoordIdempotent | rust/geoarrow/src/algorithm/native/bounding_rect.rs:64-92 | adding the same coordinate twice equals adding it once |
| BoundingRects.AddCoordCovered | rust/geoarrow/src/algorithm/native/bounding_rect.rs:64-92 | adding a coordinate the extents already cover changes nothing |
| BoundingRects.FoldCoordsIsHull | rust/geoarrow/src/algorithm/native/bounding_rect.rs:64-104 | folding `add_coord` over coordinates gives, on each axis, the least (greatest) of the start and every ordinate present |
| BoundingRects.FoldCoordsAppend | rust/geoarrow/src/algorithm/native/bounding_rect.rs:106-114 | adding two runs of coordinates one after the other is adding their concatenation |
| BoundingRects.FoldCoordsCovers | rust/geoarrow/src/algorithm/native/bounding_rect.rs:100-104 | after a fold every folded coordinate is covered |
| BoundingRects.FoldCoordsCovered | rust/geoarrow/src/algorithm/native/bounding_rect.rs:100-104 | folding coordinates that are already covered changes nothing |
| BoundingRects.FoldCoordsIdempotent | rust/geoarrow/src/algorithm/native/bounding_rect.rs:100-104 | adding the same geometry twice equals adding it once |
| BoundingRects.FoldNonEmptyIsOrdered | rust/geoarrow/src/algorithm/native/bounding_rect.rs:100-104 | after at least one coordinate, minimum x ≤ maximum x and minimum y ≤ maximum y |
| BoundingRects.FoldFlatKeepsZ | rust/geoarrow/src/algorithm/native/bounding_rect.rs:75-91 | coordinates without z never change the z extent |
| BoundingRects.DimOfFold | rust/geoarrow/src/algorithm/native/bounding_rect.rs:197-203 | the accumulated dimension is `Xyz` exactly when some coordinate had a z below +inf and some had a z above -inf |
| BoundingRects.BoundingRect.AddPoint | rust/geoarrow/src/algorithm/native/bounding_rect.rs:94-98 | the new state is the old one with the point's coordinate added; an empty point changes nothing |
| BoundingRects.BoundingRect.AddLineString | rust/geoarrow/src/algorithm/native/bounding_rect.rs:100-104 | the loop leaves the fold of `add_coord` over the line string's coordinates, in order |
| BoundingRects.BoundingRect.AddPolygon | rust/geoarrow/src/algorithm/native/bounding_rect.rs:106-114 | the new state is the fold over the exterior ring, if any, then each interior ring |
| BoundingRects.BoundingRect.AddMultiPoint | rust/geoarrow/src/algorithm/native/bounding_rect.rs:116-120 | the new state is the fold over the points' coordinates, in order |
| BoundingRects.BoundingRect.AddMultiLineString | rust/geoarrow/src/algorithm/native/bounding_rect.rs:122-129 | the new state is the fold over every line string, in order |
| BoundingRects.BoundingRect.AddMultiPolygon | rust/geoarrow/src/algorithm/native/bounding_rect.rs:131-135 | the new state is the fold over every polygon, in order |
| BoundingRects.BoundingRect.AddGeometry | rust/geoarrow/src/algorithm/native/bounding_rect.rs:137-151 | each geometry kind is dispatched to its `add_*`; the new state is the fold over the geometry's coordinates (triangles and lines excluded) |
| BoundingRects.BoundingRect.AddGeometryCollection | rust/geoarrow/src/algorithm/native/bounding_rect.rs:153-160 | the new state is the fold over every member geometry, in order |
| BoundingRects.BoundingRect.AddRect | rust/geoarrow/src/algorithm/native/bounding_rect.rs:162-165 | the new state adds the rect's minimum corner, then its maximum corner |
| BoundingRects.BoundingRect.Update | rust/geoarrow/src/algorithm/native/bounding_rect.rs:167-169 | the new state adds the other accumulator's 2D corners as a rect |
| BoundingRects.UpdateKeepsZ | rust/geoarrow/src/algorithm/native/bounding_rect.rs:162-169 | `update` never changes the z extent: the other accumulator's z is never merged |
| BoundingRects.UpdateWithFreshIsNotIdentity | rust/geoarrow/src/algorithm/native/bounding_rect.rs:167-191 | updating with a fresh accumulator sets minimum x and y to -inf and maximum x and y to +inf, whereas `+` with a fresh accumulator is the identity |
| BoundingRects.UpdateIsMergeWithoutZ | rust/geoarrow/src/algorithm/native/bounding_rect.rs:167-169 | when the other accumulator is non-empty on x and y, `update` is `+` with that accumulator's z extent dropped |
| BoundingRects.MergeCommutative | rust/geoarrow/src/algorithm/native/bounding_rect.rs:178-191 | `a + b == b + a` |
| BoundingRects.MergeAssociative | rust/geoarrow/src/algorithm/native/bounding_rect.rs:178-191 | `(a + b) + c == a + (b + c)` |
| BoundingRects.MergeIdentity | rust/geoarrow/src/algorithm/native/bounding_rect.rs:178-191 | `new()` is a two-sided identity of `+`, z included |
| BoundingRects.MergeAddCoord | rust/geoarrow/src/algorithm/native/bounding_rect.rs:178-191 | adding a coordinate to either operand of `+` equals adding it to the sum |
| BoundingRects.MergeFoldLeft | rust/geoarrow/src/algorithm/native/bounding_rect.rs:178-191 | folding coordinates into one operand of `+` equals folding them into the sum |
| BoundingRects.MergeOfFolds | rust/geoarrow/src/algorithm/native/bounding_rect.rs:178-191 | the sum of two folds is the fold of the concatenated coordinates from the sum of the starts |
| BoundingRects.CollectionIsMergeOfMembers | rust/geoarrow/src/algorithm/native/bounding_rect.rs:153-160 | the bounding rect of a collection is the `+` of its members' bounding rects |
| BoundingRects.ToGeoRect | rust/geoarrow/src/algorithm/native/bounding_rect.rs:220-232 | the geo `Rect` has ordered corners on each axis and no z |
| BoundingRects.GeoRectOfExtents | rust/geoarrow/src/algorithm/native/bounding_rect.rs:220-232 | the geo rect of a non-empty accumulator has its corners unchanged; that of a fresh one spans the plane |
| BoundingRects.CornersOfFold | rust/geoarrow/src/algorithm/native/bounding_rect.rs:234-238 | the `([minx, miny], [maxx, maxy])` pair of a fold bounds every folded coordinate |
| BoundingRects.TupleOfFold | rust/geoarrow/src/algorithm/native/bounding_rect.rs:240-244 | the `(minx, miny, maxx, maxy)` tuple of a fold bounds every folded coordinate |
| BoundingRects.BoundingRectPoint | rust/geoarrow/src/algorithm/native/bounding_rect.rs:246-250 | the corners of a fresh accumulator after `add_point`, which bound the point |
| BoundingRects.BoundingRectMultiPoint | rust/geoarrow/src/algorithm/native/bounding_rect.rs:252-256 | the corners after `add_multi_point`, which bound every point |
| BoundingRects.BoundingRectLineString | rust/geoarrow/src/algorithm/native/bounding_rect.rs:258-262 | the corners after `add_line_string`, which bound every coordinate |
| BoundingRects.BoundingRectMultiLineString | rust/geoarrow/src/algorithm/native/bounding_rect.rs:264-270 | the corners after `add_multi_line_string`, which bound every coordinate |
| BoundingRects.BoundingRectPolygon | rust/geoarrow/src/algorithm/native/bounding_rect.rs:272-276 | the corners after `add_polygon`, which bound every ring coordinate |
| BoundingRects.BoundingRectMultiPolygon | rust/geoarrow/src/algorithm/native/bounding_rect.rs:278-282 | the corners after `add_multi_polygon`, which bound every ring coordinate |
| BoundingRects.BoundingRectGeometry | rust/geoarrow/src/algorithm/native/bounding_rect.rs:284-288 | the corners after `add_geometry`, which bound every coordinate of the geometry |
| BoundingRects.BoundingRectGeometryCollection | rust/geoarrow/src/algorithm/native/bounding_rect.rs:290-296 | the corners after `add_geometry_collection`; they are the corners of the `+` of the members' rects and bound every coordinate |
| BoundingRects.BoundingRectRect | rust/geoarrow/src/algorithm/native/bounding_rect.rs:298-302 | the corners after `add_rect`, which bound both corners of the rect |
| Chunked.TryMap | src/io/wkb/api.rs:103-104 | succeeds exactly when every chunk converts, with one result per chunk in order; otherwise it returns the error of the first failing chunk, all earlier chunks having converted |
| Chunked.TryMapPrefixErr | rust/geoarrow/src/io/geozero/api/wkt.rs:107-109 | a failure among the first chunks is the failure of the whole |
| WkbArrays.New | rust/geoarrow/src/array/binary/array.rs:36-47 | the tag is `LargeWKB` exactly when the offsets are 64-bit; the column and metadata are kept |
| WkbArrays.FromBinary | rust/geoarrow/src/array/binary/array.rs:208-212 | a binary column becomes a valid array with default metadata |
| WkbArrays.Rows | rust/geoarrow/src/array/binary/array.rs:187-194 | iterating yields one entry per slot: absent for a null slot, the slot's bytes otherwise |
| WkbArrays.IsEmpty | rust/geoarrow/src/array/binary/array.rs:50-52 | `is_empty()` holds exactly when `len() == 0`, that is when there are no rows |
| WkbArrays.BufferLengths | rust/geoarrow/src/array/binary/array.rs:64-69 | the geometry count is `len()`; the byte count is the last offset, which is the first offset plus the bytes of all slots |
| WkbArrays.LastOffsetIsValueBytes | rust/geoarrow/src/array/binary/array.rs:64-69 | each offset is the first offset plus the lengths of the slots before it |
| WkbArrays.Slice | rust/geoarrow/src/array/binary/array.rs:84-95 | only defined when `offset + length <= len()`; the result has `length` slots, each the same as slot `offset + i` of the input, with the same tag, metadata and value buffer |
| WkbArrays.SliceOfSlice | rust/geoarrow/src/array/binary/array.rs:84-95 | slicing a slice is one slice of the original |
| WkbArrays.WithMetadata | rust/geoarrow/src/array/binary/array.rs:122-126 | only the metadata changes; the column, width and tag stay |
| WkbArrays.WithMetadataFacts | rust/geoarrow/src/array/binary/array.rs:122-126 | setting the current metadata is the identity, the last of two settings wins, and slicing commutes with it |
| WkbArrays.IntoArrow | rust/geoarrow/src/array/binary/array.rs:199-205 | the Arrow column keeps offsets, values and validity exactly |
| WkbArrays.IntoArrowRoundTrip | rust/geoarrow/src/array/binary/array.rs:199-212 | wrapping the Arrow column again gives back the array once its metadata is restored |
| WkbArrays.Widen | rust/geoarrow/src/array/binary/array.rs:276-285 | widening always succeeds, keeps offsets, values, validity and metadata, and tags the result `LargeWKB` |
| WkbArrays.Narrow | rust/geoarrow/src/array/binary/array.rs:287-298 | narrowing fails with `Overflow` exactly when the last offset exceeds 2^31-1; otherwise it keeps the column and metadata and tags the result `WKB` |
| WkbArrays.NarrowWiden | rust/geoarrow/src/array/binary/array.rs:276-298 | narrowing a widened array gives it back |
| WkbArrays.WidenNarrow | rust/geoarrow/src/array/binary/array.rs:276-298 | widening a successfully narrowed array gives it back |
| WkbArrays.TryFromArrow32 | rust/geoarrow/src/array/binary/array.rs:214-233 | `Binary` is accepted; `LargeBinary` is accepted exactly when it narrows and fails with `Overflow` otherwise; every other type fails with `General` |
| WkbArrays.TryFromArrow64 | rust/geoarrow/src/array/binary/array.rs:235-254 | exactly `Binary` and `LargeBinary` are accepted, both as 64-bit `LargeWKB`; every other type fails with `General` |
| WkbArrays.TryFromArrowField | rust/geoarrow/src/array/binary/array.rs:256-274 | the array conversion's error comes first, then the field metadata's; on success the array carries the field's metadata |
| Geometry.CoordsOfFlat | src/io/wkb/api.rs:84 | what a builder with two ordinates per coordinate keeps of a geometry: every coordinate, in order, with its x and y and no z |
| WkbApi.DecodeRow | src/io/wkb/api.rs:34-35 | a null row stays null; a blob's decode error is returned; a decoded geometry is taken exactly when the builder accepts its kind, and is then stored in the builder's dimension; otherwise it is refused with `IncorrectType` |
| WkbApi.BuildFromWkb | src/io/wkb/api.rs:34-36 | the builder succeeds exactly when every row does, with the builder's type, the input's metadata and one slot per row, null where the input is null, each valid slot holding the decoded geometry in the builder's dimension; otherwise it returns the first failing row's error |
| WkbApi.FromWkbImpl | src/io/wkb/api.rs:25-77 | the typed impls build an array of their own kind and dimension with the input's metadata; a concrete kind holds only geometries of that kind, and a Mixed array only the six concrete kinds |
| WkbApi.FromWkbDyn | src/io/wkb/api.rs:79-92 | always the 2D GeometryCollection conversion (so every z is dropped), then `downcast(true)` on success |
| WkbApi.FromWkbChunked | src/io/wkb/api.rs:94-117 | each chunk is converted by the typed impl in order; one failing chunk fails the whole with the first failing chunk's error |
| WkbApi.FromWkbChunkedDyn | src/io/wkb/api.rs:119-129 | always the chunked 2D GeometryCollection conversion, then the chunked `downcast(true)` |
| WkbApi.BuilderFor | src/io/wkb/api.rs:142-200 | only a `Rect` target is refused, with `General`; a concrete target gets its typed builder; Mixed and GeometryCollection receive the caller's `prefer_multi`; the builder's type is the target |
| WkbApi.FromWkb | src/io/wkb/api.rs:134-203 | a `Rect` target fails with `General`; any other target succeeds exactly when every row decodes and its builder takes it, and otherwise returns the first failing row's error; on success the array has exactly the target type, the input's metadata and one slot per row with nulls preserved, each valid slot holding the decoded geometry in the target's dimension; a concrete target holds only its own kind and a Mixed target only the six concrete kinds |
| WkbApi.TwoDimensionalTargetDropsZ | src/io/wkb/api.rs:143-148 | with a 2D target, no coordinate of any row `from_wkb` returns has a z, whatever the blobs held |
| WkbApi.FromWkbIsImpl | src/io/wkb/api.rs:142-194 | `from_wkb` with a concrete target, or with Mixed or GeometryCollection and `prefer_multi = true`, equals that kind's typed impl in the target's dimension |
| WkbApi.SlotIsEncoding | src/io/wkb/api.rs:307-329 | slot `i` of the column `to_wkb` writes holds exactly the encoding of row `i` |
| WkbApi.EncodedLayout | src/io/wkb/api.rs:307-329 | the offsets `to_wkb` writes are non-decreasing, end at the value length and fit the offset width |
| WkbApi.ToWkb | src/io/wkb/api.rs:216-329 | `to_wkb` and `ToWKB for &dyn NativeArray`, for every (kind, dimension) pair: one slot per row; null exactly where the row is null; slot `i` holds the encoding of row `i`; the metadata is kept |
| WkbApi.ToWkbChunked | src/io/wkb/api.rs:246-304 | each chunk is converted on its own, in order |
| WkbApi.BuildAfterToWkb | src/io/wkb/api.rs:336-367 | when decoding undoes encoding for every geometry the array holds, a builder that takes each of them, in the geometry's own dimension, reads back exactly the rows `to_wkb` wrote |
| WkbApi.ConcreteRoundTrip | src/io/wkb/api.rs:336-349 | `to_wkb` then `from_wkb` with the array's own concrete type gives back the array, whatever `prefer_multi` is, when its rows fit its dimension and decoding undoes encoding for each of them |
| WkbApi.MixedRoundTrip | src/io/wkb/api.rs:370-392 | `to_wkb` then `from_wkb` with a Mixed target gives a Mixed array holding the same rows, when every row is of one of the six concrete kinds, fits the dimension and decodes back from its encoding |
| WkbApi.MixedDowncastRoundTrip | src/io/wkb/api.rs:351-367 | when the array holds at least one geometry, all of its own kind and fitting its dimension, and decoding undoes encoding for each of them: `to_wkb`, then `from_wkb` with a Mixed target and `prefer_multi = true`, then `downcast(true)` gives back the concrete array |
| WktApi.GeometryBuilder.constructor | rust/geoarrow/src/io/geozero/api/wkt.rs:39-40 | a new builder holds no rows and keeps the options it was given |
| WktApi.GeometryBuilder.PushNull | rust/geoarrow/src/io/geozero/api/wkt.rs:46 | one null row is appended |
| WktApi.PushError | rust/geoarrow/src/io/geozero/api/wkt.rs:39-40 | a Mixed builder refuses every geometry outside the six concrete kinds with `IncorrectType`; otherwise the builder's own check decides, and a geometry is taken exactly when neither refuses it |
| WktApi.GeometryBuilder.PushGeometry | rust/geoarrow/src/io/geozero/api/wkt.rs:71 | either the geometry is appended in the builder's dimension, or the builder's error is returned and nothing is pushed |
| WktApi.GeometryBuilder.Finish | rust/geoarrow/src/io/geozero/api/wkt.rs:50 | the finished array has the builder's kind, coordinate type, dimension and metadata, and the pushed rows |
| WktApi.ParseRow | rust/geoarrow/src/io/geozero/api/wkt.rs:66-70 | the parser's error is returned; the GeometryCollection impl's `to_geo()` keeps the kind and every coordinate with its x and y, without z |
| WktApi.ReadRow | rust/geoarrow/src/io/geozero/api/wkt.rs:42-47 | a null row reads as null; a string's parse error or the builder's error is returned; otherwise the parsed geometry is pushed in the builder's dimension |
| WktApi.ReadWkt | rust/geoarrow/src/io/geozero/api/wkt.rs:39-50 | succeeds exactly when every row reads; the result has one slot per row, null exactly for null rows, each valid slot holding the parsed geometry in the builder's dimension, and a Mixed array only the six concrete kinds; otherwise it returns the first failing row's error |
| WktApi.ReadWktDropsZ | rust/geoarrow/src/io/geozero/api/wkt.rs:64-72 | a 2D read, and any GeometryCollection read, stores no z in any coordinate of any row |
| WktApi.ReadIntoBuilder | rust/geoarrow/src/io/geozero/api/wkt.rs:65-77 | the loop over rows `0..len` returns `ReadWkt`: one push per row, and a return with the error of the first failing row |
| WktApi.ReadWktFails | rust/geoarrow/src/io/geozero/api/wkt.rs:44 | a row that fails makes the whole conversion return that row's error |
| WktApi.FromWktMixed | rust/geoarrow/src/io/geozero/api/wkt.rs:29-52 | the Mixed impl returns `ReadWkt` for a Mixed array with the caller's options, so every row it holds is of one of the six concrete kinds |
| WktApi.FromWktCollection | rust/geoarrow/src/io/geozero/api/wkt.rs:54-79 | the GeometryCollection impl returns `ReadWkt` for a GeometryCollection array with the caller's options |
| WktApi.FromWktDyn | rust/geoarrow/src/io/geozero/api/wkt.rs:81-95 | the GeometryCollection read with the caller's options, then always `downcast(true)` on success |
| WktApi.ReadWktChunked | rust/geoarrow/src/io/geozero/api/wkt.rs:97-129 | every chunk is read with the same options and metadata, in order; one failing chunk fails the whole with the first failing chunk's error |
| WktApi.ReadWktChunkedDyn | rust/geoarrow/src/io/geozero/api/wkt.rs:131-145 | the chunked GeometryCollection read, then always the chunked `downcast(true)` |
| WktApi.PointRowsDowncastToPoints | rust/geoarrow/src/io/geozero/api/wkt.rs:179-199 | a non-empty column of point strings read into a Mixed array downcasts to a Point array of the same dimension |
| WktApi.FirstRowIsParsedPoint | rust/geoarrow/src/io/geozero/api/wkt.rs:155-177 | after reading the three test rows, row 0 is the point (30, 10) the parser reads from `"POINT (30 10)"` |

## Left out

- Floating point: NaN and signed zero are not modelled. `f64::min`/`f64::max` and `<` are taken on non-NaN values, so coordinates are reals or ±inf.
- BoundingRects.BoundingRect.AddGeometry: triangles and lines end in `todo!()` in the source, so the model requires a geometry that contains neither.
- BoundingRects.BoundingRect.Update: requires `other` to be a different object. Rust's borrow rules already forbid `&mut self` and `&other` from aliasing.
- `BoundingRect::minx`/`miny`/`maxx`/`maxy`: these plain field reads are the class's fields themselves.
- The Arrow `Field`, extension-type and trait-object plumbing of `WKBArray` is not modelled: `storage_type`, `extension_field`, `extension_name`, `into_array_ref`, `to_array_ref`, `as_any`, `as_ref` and `into_inner`. None of these has logic beyond wrapping.
- `WKBArray::num_bytes` needs `WKBCapacity::num_bytes`, which is not part of this model.
- `WKBArray::owned_slice` and `infer_geo_data_type` have `todo!()` bodies.
- `Arc` sharing and zero-copy buffers are not modelled. Arrays are values, and a slice keeps the whole value buffer in the model as in the source.
- `offsets_buffer_i64_to_i32` and `offsets_buffer_i32_to_i64` are not part of this model. Narrowing is modelled as failing with `Overflow` exactly when an offset exceeds 2^31-1, and widening as keeping every offset.
- `ArrayMetadata::try_from(field)` is a `Result` parameter of `WkbArrays.TryFromArrowField`. The contents of the metadata are not interpreted.
- The text of `General` error messages is fixed text. The source formats the Arrow data type into it with `Debug`.
- The WKB byte format and the geometry builders are not part of this model. Encoding and decoding are the function parameters `encode` and `decode`. The round trips assume that decoding undoes encoding for each geometry the array holds.
- Builder validation is an assumption of this model. A typed builder refuses a geometry of another kind with `IncorrectType`. The Mixed WKB builder takes the six concrete kinds and refuses the others with `IncorrectType`; the error kind it really raises, and any unwrapping of a one-member collection, are not modelled. The Mixed WKT builder refuses the same kinds the same way. The GeometryCollection WKB builder takes every geometry. Rows are converted in order, and the first failing row fails the conversion.
- A 3D builder given a 2D geometry: the z it stores is not modelled, and the row is kept without z. A 2D builder drops z, as modelled by `Geometry.Flat`.
- `prefer_multi` decides whether a single-part geometry is stored in its multi-part child. That storage choice is not modelled: it is forwarded to the builder and recorded there, but the rows are kept as parsed. As a result the model's `from_wkb` returns the same rows for either value of `prefer_multi`, for every target.
- `downcast` and the chunked downcast are parameters. The downcast round trips assume `ArrayTypes.NarrowsUniformArrays`: a Mixed or GeometryCollection array whose non-null rows are all of one concrete kind narrows to that kind.
- The `.try_into()` that turns a vector of chunk results into a chunked array is not part of this model. It is taken to succeed and keep the chunks in order.
- WkbApi.ToWkb: the per-kind `From<&XArray> for WKBArray` converters are not part of this model. They are modelled as writing each row's encoding, with the metadata kept. The model requires the total encoded length to fit the offset width, and does not model an overflow of 32-bit offsets.
- WkbApi.ToWkb: a `Rect` array is excluded by precondition, because the source ends in `todo!()`.
- The WKT grammar belongs to the external `geozero` crate and is a `parse` parameter. The builder's check of a pushed geometry is a `rejects` parameter.
- The Mixed impl streams parse events into `MixedGeometryStreamBuilder` rather than parsing first and pushing after. The model treats the row as parsed, then pushed. Pushes made before a mid-row error are not modelled, because the builder is discarded on error.
- `test_read_wkt` reads the point back through `to_geo` and `geo::Point::try_from`. The model compares the stored geometry directly.
