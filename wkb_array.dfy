/** `WKBArray<O>`: a column of WKB blobs in the Arrow variable-size binary
    layout (offsets, value bytes, optional validity), tagged `WKB` for 32-bit
    offsets and `LargeWKB` for 64-bit offsets, with shared metadata. The
    offset type parameter `O` becomes the `width` field. */
module WkbArrays {
  import opened Errors
  import opened ArrayTypes

  type Byte = bv8

  /** `OffsetSizeTrait`: `i32` or `i64` offsets. */
  datatype OffsetWidth = I32 | I64

  const I32_MAX: nat := 0x7FFF_FFFF
  const I64_MAX: nat := 0x7FFF_FFFF_FFFF_FFFF

  function MaxOffset(w: OffsetWidth): nat {
    if w == I32 then I32_MAX else I64_MAX
  }

  datatype SerializedType = WKB | LargeWKB

  /** Arrow's `GenericBinaryArray<O>`. */
  datatype BinaryArray = BinaryArray(offsets: seq<nat>, values: seq<Byte>, nulls: Option<seq<bool>>)

  /** The invariant Arrow keeps for a binary array with offsets of width `w`:
      at least one offset, non-decreasing, within the value buffer and the
      offset type, and a validity of one bit per slot. */
  predicate ValidBinary(b: BinaryArray, w: OffsetWidth) {
    && |b.offsets| >= 1
    && (forall i | 0 <= i < |b.offsets| - 1 :: b.offsets[i] <= b.offsets[i + 1])
    && b.offsets[|b.offsets| - 1] <= |b.values|
    && b.offsets[|b.offsets| - 1] <= MaxOffset(w)
    && (b.nulls.Some? ==> |b.nulls.value| == |b.offsets| - 1)
  }

  function BinaryLen(b: BinaryArray): nat
    requires |b.offsets| >= 1
  {
    |b.offsets| - 1
  }

  function LastOffset(b: BinaryArray): nat
    requires |b.offsets| >= 1
  {
    b.offsets[|b.offsets| - 1]
  }

  /** Arrow's zero-copy slice: a window of the offsets and of the validity;
      the value buffer is shared as it is. */
  function BinarySlice(b: BinaryArray, offset: nat, length: nat): BinaryArray
    requires |b.offsets| >= 1 && offset + length <= BinaryLen(b)
    requires b.nulls.Some? ==> |b.nulls.value| == BinaryLen(b)
  {
    BinaryArray(
      b.offsets[offset..offset + length + 1],
      b.values,
      if b.nulls.Some? then Some(b.nulls.value[offset..offset + length]) else None)
  }

  datatype WkbArray = WkbArray(width: OffsetWidth, dataType: SerializedType, metadata: ArrayMetadata, binary: BinaryArray)

  /** The tag `new` gives to an array with offsets of width `w`. */
  function TypeFor(w: OffsetWidth): SerializedType {
    if w == I64 then LargeWKB else WKB
  }

  predicate Valid(a: WkbArray) {
    ValidBinary(a.binary, a.width) && a.dataType == TypeFor(a.width)
  }

  function Len(a: WkbArray): nat
    requires Valid(a)
  {
    BinaryLen(a.binary)
  }

  function IsValid(a: WkbArray, i: nat): bool
    requires Valid(a) && i < Len(a)
  {
    a.binary.nulls.None? || a.binary.nulls.value[i]
  }

  lemma OffsetsMonotone(b: BinaryArray, w: OffsetWidth, i: nat, j: nat)
    requires ValidBinary(b, w) && i <= j < |b.offsets|
    ensures b.offsets[i] <= b.offsets[j]
    decreases j - i
  {
    if i < j {
      OffsetsMonotone(b, w, i + 1, j);
    }
  }

  /** The bytes of slot `i` (`value(i)`). */
  function Value(a: WkbArray, i: nat): seq<Byte>
    requires Valid(a) && i < Len(a)
  {
    OffsetsMonotone(a.binary, a.width, i, i + 1);
    OffsetsMonotone(a.binary, a.width, i + 1, |a.binary.offsets| - 1);
    a.binary.values[a.binary.offsets[i]..a.binary.offsets[i + 1]]
  }

  /** `arr.iter().collect()`: one entry per slot, `None` for a null slot. */
  function Rows(a: WkbArray): (r: seq<Option<seq<Byte>>>)
    requires Valid(a)
    ensures |r| == Len(a)
    ensures forall i | 0 <= i < Len(a) :: r[i].Some? == IsValid(a, i)
    ensures forall i | 0 <= i < Len(a) :: r[i].Some? ==> r[i].value == Value(a, i)
  {
    seq(Len(a), i requires 0 <= i < Len(a) => if IsValid(a, i) then Some(Value(a, i)) else None)
  }

  /** `WKBArray::new`: the tag follows the offset width. */
  function New(b: BinaryArray, w: OffsetWidth, metadata: ArrayMetadata): (r: WkbArray)
    requires ValidBinary(b, w)
    ensures Valid(r)
    ensures r.dataType == LargeWKB <==> w == I64
    ensures r.width == w && r.binary == b && r.metadata == metadata
  {
    WkbArray(w, TypeFor(w), metadata, b)
  }

  /** `From<GenericBinaryArray<O>>`: `new` with default metadata. */
  function FromBinary(b: BinaryArray, w: OffsetWidth): (r: WkbArray)
    requires ValidBinary(b, w)
    ensures Valid(r) && r.width == w && r.binary == b && r.metadata == DefaultMetadata()
  {
    New(b, w, DefaultMetadata())
  }

  function IsEmpty(a: WkbArray): (r: bool)
    requires Valid(a)
    ensures r <==> Len(a) == 0
    ensures r <==> Rows(a) == []
  {
    Len(a) == 0
  }

  /** The total number of value bytes of the first `n` slots. */
  function ValueBytes(a: WkbArray, n: nat): nat
    requires Valid(a) && n <= Len(a)
  {
    if n == 0 then 0 else ValueBytes(a, n - 1) + |Value(a, n - 1)|
  }

  lemma {:induction false} LastOffsetIsValueBytes(a: WkbArray, n: nat)
    requires Valid(a) && n <= Len(a)
    ensures a.binary.offsets[n] == a.binary.offsets[0] + ValueBytes(a, n)
  {
    if n > 0 {
      LastOffsetIsValueBytes(a, n - 1);
      OffsetsMonotone(a.binary, a.width, n - 1, n);
      OffsetsMonotone(a.binary, a.width, n, |a.binary.offsets| - 1);
      assert |Value(a, n - 1)| == a.binary.offsets[n] - a.binary.offsets[n - 1];
    }
  }

  /** `WKBCapacity`: a byte count and a geometry count. */
  datatype WkbCapacity = WkbCapacity(bufferCapacity: nat, geomCapacity: nat)

  /** `buffer_lengths`: the last offset as the byte count and `len()` as the
      geometry count. The last offset counts the slots' bytes plus the bytes
      before the first offset, which a slice leaves in the shared buffer. */
  function BufferLengths(a: WkbArray): (c: WkbCapacity)
    requires Valid(a)
    ensures c.geomCapacity == Len(a)
    ensures c.bufferCapacity == a.binary.offsets[0] + ValueBytes(a, Len(a))
    ensures a.binary.offsets[0] == 0 ==> c.bufferCapacity == ValueBytes(a, Len(a))
  {
    LastOffsetIsValueBytes(a, Len(a));
    WkbCapacity(LastOffset(a.binary), Len(a))
  }

  /** `slice`: panics unless `offset + length <= len()`; the result views the
      same slots with the same tag and metadata, sharing the value buffer. */
  function Slice(a: WkbArray, offset: nat, length: nat): (r: WkbArray)
    requires Valid(a) && offset + length <= Len(a)
    ensures Valid(r) && Len(r) == length
    ensures r.width == a.width && r.dataType == a.dataType && r.metadata == a.metadata
    ensures r.binary.values == a.binary.values
    ensures forall i | 0 <= i < length :: IsValid(r, i) == IsValid(a, offset + i) && Value(r, i) == Value(a, offset + i)
  {
    var r := WkbArray(a.width, a.dataType, a.metadata, BinarySlice(a.binary, offset, length));
    assert r.binary.offsets[length] == a.binary.offsets[offset + length];
    OffsetsMonotone(a.binary, a.width, offset + length, |a.binary.offsets| - 1);
    r
  }

  /** A sub-range of a sub-range is one sub-range of the whole. */
  lemma SubrangeOfSubrange<T>(s: seq<T>, i: nat, j: nat, k: nat, l: nat)
    requires i <= j <= |s| && k <= l <= j - i
    ensures s[i..j][k..l] == s[i + k..i + l]
  {
    forall n | 0 <= n < l - k ensures s[i..j][k..l][n] == s[i + k..i + l][n] {
      assert s[i..j][k..l][n] == s[i..j][k + n] == s[i + k + n];
    }
  }

  lemma BinarySliceOfSlice(b: BinaryArray, o1: nat, l1: nat, o2: nat, l2: nat)
    requires |b.offsets| >= 1 && o1 + l1 <= BinaryLen(b) && o2 + l2 <= l1
    requires b.nulls.Some? ==> |b.nulls.value| == BinaryLen(b)
    ensures BinarySlice(BinarySlice(b, o1, l1), o2, l2) == BinarySlice(b, o1 + o2, l2)
  {
    SubrangeOfSubrange(b.offsets, o1, o1 + l1 + 1, o2, o2 + l2 + 1);
    if b.nulls.Some? {
      SubrangeOfSubrange(b.nulls.value, o1, o1 + l1, o2, o2 + l2);
    }
  }

  /** Slicing a slice is one slice of the original. */
  lemma SliceOfSlice(a: WkbArray, o1: nat, l1: nat, o2: nat, l2: nat)
    requires Valid(a) && o1 + l1 <= Len(a) && o2 + l2 <= l1
    ensures Slice(Slice(a, o1, l1), o2, l2) == Slice(a, o1 + o2, l2)
  {
    BinarySliceOfSlice(a.binary, o1, l1, o2, l2);
  }

  /** `with_metadata`: a copy with the metadata replaced and nothing else changed. */
  function WithMetadata(a: WkbArray, m: ArrayMetadata): (r: WkbArray)
    ensures r.metadata == m
    ensures r.width == a.width && r.dataType == a.dataType && r.binary == a.binary
    ensures Valid(a) ==> Valid(r)
  {
    a.(metadata := m)
  }

  lemma WithMetadataFacts(a: WkbArray, m: ArrayMetadata, m2: ArrayMetadata, offset: nat, length: nat)
    requires Valid(a) && offset + length <= Len(a)
    ensures WithMetadata(a, a.metadata) == a
    ensures WithMetadata(WithMetadata(a, m), m2) == WithMetadata(a, m2)
    ensures Slice(WithMetadata(a, m), offset, length) == WithMetadata(Slice(a, offset, length), m)
  {
  }

  /** `into_arrow`: the binary array with its offsets, values and validity. */
  function IntoArrow(a: WkbArray): (b: BinaryArray)
    requires Valid(a)
    ensures ValidBinary(b, a.width)
    ensures b.offsets == a.binary.offsets && b.values == a.binary.values && b.nulls == a.binary.nulls
  {
    BinaryArray(a.binary.offsets, a.binary.values, a.binary.nulls)
  }

  /** Handing the column to Arrow and wrapping it again loses only the metadata. */
  lemma IntoArrowRoundTrip(a: WkbArray)
    requires Valid(a)
    ensures WithMetadata(FromBinary(IntoArrow(a), a.width), a.metadata) == a
  {
  }

  /** `From<WKBArray<i32>> for WKBArray<i64>`: every 32-bit offset is a valid
      64-bit offset, so widening keeps the offsets, values, validity and
      metadata, and tags the result `LargeWKB`. */
  function Widen(a: WkbArray): (r: WkbArray)
    requires Valid(a) && a.width == I32
    ensures Valid(r) && r.width == I64 && r.dataType == LargeWKB
    ensures r.binary == a.binary && r.metadata == a.metadata
  {
    New(BinaryArray(a.binary.offsets, a.binary.values, a.binary.nulls), I64, a.metadata)
  }

  /** `TryFrom<WKBArray<i64>> for WKBArray<i32>`: every offset must fit 32
      bits; otherwise the conversion fails with an overflow. */
  function Narrow(a: WkbArray): (r: Result<WkbArray>)
    requires Valid(a) && a.width == I64
    ensures r.Ok? <==> LastOffset(a.binary) <= I32_MAX
    ensures r.Err? ==> r.error == Overflow
    ensures r.Ok? ==> Valid(r.value) && r.value.width == I32 && r.value.dataType == WKB
    ensures r.Ok? ==> r.value.binary == a.binary && r.value.metadata == a.metadata
  {
    if forall i | 0 <= i < |a.binary.offsets| :: a.binary.offsets[i] <= I32_MAX then
      Ok(New(BinaryArray(a.binary.offsets, a.binary.values, a.binary.nulls), I32, a.metadata))
    else
      assert forall i | 0 <= i < |a.binary.offsets| :: a.binary.offsets[i] <= LastOffset(a.binary) by {
        forall i | 0 <= i < |a.binary.offsets| ensures a.binary.offsets[i] <= LastOffset(a.binary) {
          OffsetsMonotone(a.binary, a.width, i, |a.binary.offsets| - 1);
        }
      }
      Err(Overflow)
  }

  /** Widening then narrowing gives back the 32-bit array. */
  lemma NarrowWiden(a: WkbArray)
    requires Valid(a) && a.width == I32
    ensures Narrow(Widen(a)) == Ok(a)
  {
  }

  /** A successful narrowing is undone by widening. */
  lemma WidenNarrow(a: WkbArray)
    requires Valid(a) && a.width == I64 && Narrow(a).Ok?
    ensures Widen(Narrow(a).value) == a
  {
  }

  /** Arrow's `DataType`, as far as the conversions distinguish it. */
  datatype ArrowDataType = Binary | LargeBinary | Utf8 | LargeUtf8 | OtherType(name: string)

  /** `&dyn Array`: a data type and, for the binary types, the binary column
      `downcast_ref` finds behind it. */
  datatype DynArray = DynArray(dataType: ArrowDataType, column: BinaryArray)

  /** What Arrow guarantees of a `Binary` or `LargeBinary` array. */
  predicate WellFormedDyn(d: DynArray) {
    && (d.dataType == Binary ==> ValidBinary(d.column, I32))
    && (d.dataType == LargeBinary ==> ValidBinary(d.column, I64))
  }

  function UnexpectedType(t: ArrowDataType): GeoArrowError {
    General("Unexpected type: " + match t
      case Binary => "Binary"
      case LargeBinary => "LargeBinary"
      case Utf8 => "Utf8"
      case LargeUtf8 => "LargeUtf8"
      case OtherType(name) => name)
  }

  /** `TryFrom<&dyn Array> for WKBArray<i32>`: `Binary` is wrapped, and
      `LargeBinary` is wrapped and then narrowed; every other type fails. */
  function TryFromArrow32(d: DynArray): (r: Result<WkbArray>)
    requires WellFormedDyn(d)
    ensures r.Ok? <==> d.dataType == Binary || (d.dataType == LargeBinary && LastOffset(d.column) <= I32_MAX)
    ensures d.dataType != Binary && d.dataType != LargeBinary ==> r.Err? && r.error.General?
    ensures d.dataType == LargeBinary && r.Err? ==> r.error == Overflow
    ensures r.Ok? ==> Valid(r.value) && r.value.width == I32 && r.value.dataType == WKB
    ensures r.Ok? ==> r.value.binary == d.column && r.value.metadata == DefaultMetadata()
  {
    match d.dataType
    case Binary => Ok(FromBinary(d.column, I32))
    case LargeBinary => Narrow(FromBinary(d.column, I64))
    case _ => Err(UnexpectedType(d.dataType))
  }

  /** `TryFrom<&dyn Array> for WKBArray<i64>`: `Binary` is wrapped and
      widened, `LargeBinary` is wrapped; every other type fails. */
  function TryFromArrow64(d: DynArray): (r: Result<WkbArray>)
    requires WellFormedDyn(d)
    ensures r.Ok? <==> d.dataType == Binary || d.dataType == LargeBinary
    ensures r.Err? ==> r.error.General?
    ensures r.Ok? ==> Valid(r.value) && r.value.width == I64 && r.value.dataType == LargeWKB
    ensures r.Ok? ==> r.value.binary == d.column && r.value.metadata == DefaultMetadata()
  {
    match d.dataType
    case Binary => Ok(Widen(FromBinary(d.column, I32)))
    case LargeBinary => Ok(FromBinary(d.column, I64))
    case _ => Err(UnexpectedType(d.dataType))
  }

  /** `TryFrom<(&dyn Array, &Field)>`: the array conversion, then the metadata
      parsed from the field (`fieldMetadata`, the outcome of
      `ArrayMetadata::try_from(field)`) replaces the default one. */
  function TryFromArrowField(d: DynArray, fieldMetadata: Result<ArrayMetadata>, w: OffsetWidth): (r: Result<WkbArray>)
    requires WellFormedDyn(d)
    ensures var conv := if w == I32 then TryFromArrow32(d) else TryFromArrow64(d);
      && (conv.Err? ==> r == Err(conv.error))
      && (conv.Ok? && fieldMetadata.Err? ==> r == Err(fieldMetadata.error))
      && (r.Ok? <==> conv.Ok? && fieldMetadata.Ok?)
      && (r.Ok? ==> r.value == WithMetadata(conv.value, fieldMetadata.value))
  {
    var arr :- if w == I32 then TryFromArrow32(d) else TryFromArrow64(d);
    var m :- fieldMetadata;
    Ok(arr.(metadata := m))
  }
}
