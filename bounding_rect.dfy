/** The bounding-rect accumulator: six extents that start empty (every minimum
    at +inf, every maximum at -inf) and widen as coordinates are added.

    `Extents` is the accumulator's value (the struct is `Copy`); the class
    `BoundingRect` is the same six fields updated in place by the `add_*`
    methods. Every `add_*` method is specified as a fold of `AddCoordTo` over
    the coordinates of its argument, and `FoldCoords` is characterised
    independently, axis by axis, as the least and greatest value seen. */
module BoundingRects {
  import opened Errors
  import opened Geometry

  datatype Extents = Extents(minx: Ext, miny: Ext, minz: Ext, maxx: Ext, maxy: Ext, maxz: Ext)

  datatype Dimensions = Xy | Xyz

  /** `BoundingRect::new()`: nothing seen yet. */
  function Empty(): Extents {
    Extents(PosInf, PosInf, PosInf, NegInf, NegInf, NegInf)
  }

  /** `minz()`: absent while the minimum z is still +inf. */
  function MinZ(e: Extents): (r: Option<Ext>)
    ensures r.None? <==> e.minz == PosInf
    ensures r.Some? ==> r.value == e.minz
  {
    if e.minz == PosInf then None else Some(e.minz)
  }

  /** `maxz()`: absent while the maximum z is still -inf. */
  function MaxZ(e: Extents): (r: Option<Ext>)
    ensures r.None? <==> e.maxz == NegInf
    ensures r.Some? ==> r.value == e.maxz
  {
    if e.maxz == NegInf then None else Some(e.maxz)
  }

  /** `RectTrait::dim`. */
  function Dim(e: Extents): (d: Dimensions)
    ensures d == Xyz <==> MinZ(e).Some? && MaxZ(e).Some?
  {
    if MinZ(e).Some? && MaxZ(e).Some? then Xyz else Xy
  }

  /** `RectTrait::min` and `RectTrait::max`: 2D corners, no z. */
  function MinCorner(e: Extents): Coord {
    Coord(e.minx, e.miny, None)
  }

  function MaxCorner(e: Extents): Coord {
    Coord(e.maxx, e.maxy, None)
  }

  /** The rect `other` presents to `add_rect` when `update` is called. */
  function AsRect(e: Extents): Rect {
    Rect(MinCorner(e), MaxCorner(e))
  }

  /** `c` lies inside the extents on every axis it has. */
  predicate Covers(e: Extents, c: Coord) {
    && Le(e.minx, c.x) && Le(c.x, e.maxx)
    && Le(e.miny, c.y) && Le(c.y, e.maxy)
    && (c.z.Some? ==> Le(e.minz, c.z.value) && Le(c.z.value, e.maxz))
  }

  /** `add_coord`: each extent moves only when the coordinate lies strictly
      beyond it; z is looked at only for a 3D coordinate. */
  function AddCoordTo(e: Extents, c: Coord): (r: Extents)
    ensures Covers(r, c)
    ensures Le(r.minx, e.minx) && Le(r.miny, e.miny) && Le(r.minz, e.minz)
    ensures Le(e.maxx, r.maxx) && Le(e.maxy, r.maxy) && Le(e.maxz, r.maxz)
    ensures (r.minx == e.minx || r.minx == c.x) && (r.maxx == e.maxx || r.maxx == c.x)
    ensures (r.miny == e.miny || r.miny == c.y) && (r.maxy == e.maxy || r.maxy == c.y)
    ensures c.z.None? ==> r.minz == e.minz && r.maxz == e.maxz
    ensures c.z.Some? ==> (r.minz == e.minz || r.minz == c.z.value) && (r.maxz == e.maxz || r.maxz == c.z.value)
  {
    Extents(
      if Lt(c.x, e.minx) then c.x else e.minx,
      if Lt(c.y, e.miny) then c.y else e.miny,
      if c.z.Some? && Lt(c.z.value, e.minz) then c.z.value else e.minz,
      if Lt(e.maxx, c.x) then c.x else e.maxx,
      if Lt(e.maxy, c.y) then c.y else e.maxy,
      if c.z.Some? && Lt(e.maxz, c.z.value) then c.z.value else e.maxz)
  }

  /** `add_coord` applied to each coordinate of `cs` in order. */
  function FoldCoords(e: Extents, cs: seq<Coord>): Extents {
    if |cs| == 0 then e else AddCoordTo(FoldCoords(e, cs[..|cs| - 1]), cs[|cs| - 1])
  }

  /** `Add::add`: per-axis minimum of the minimums and maximum of the maximums. */
  function Merge(a: Extents, b: Extents): Extents {
    Extents(Min(a.minx, b.minx), Min(a.miny, b.miny), Min(a.minz, b.minz),
            Max(a.maxx, b.maxx), Max(a.maxy, b.maxy), Max(a.maxz, b.maxz))
  }

  /** The state `update(other)` leaves: `add_rect` of `other`'s 2D corners. */
  function Updated(e: Extents, other: Extents): Extents {
    FoldCoords(e, RectCoords(AsRect(other)))
  }

  /** `From<BoundingRect> for Rect`, through the geo crate's `Rect::new`, which
      orders the two values of each axis. */
  function ToGeoRect(e: Extents): (r: Rect)
    ensures Le(r.min.x, r.max.x) && Le(r.min.y, r.max.y)
    ensures r.min.z.None? && r.max.z.None?
  {
    var (lx, hx) := if Lt(e.minx, e.maxx) then (e.minx, e.maxx) else (e.maxx, e.minx);
    var (ly, hy) := if Lt(e.miny, e.maxy) then (e.miny, e.maxy) else (e.maxy, e.miny);
    Rect(Coord(lx, ly, None), Coord(hx, hy, None))
  }

  /** `From<BoundingRect> for ([f64; 2], [f64; 2])`. */
  function ToCorners(e: Extents): (seq<Ext>, seq<Ext>) {
    ([e.minx, e.miny], [e.maxx, e.maxy])
  }

  /** `From<BoundingRect> for (f64, f64, f64, f64)`. */
  function ToTuple(e: Extents): (Ext, Ext, Ext, Ext) {
    (e.minx, e.miny, e.maxx, e.maxy)
  }

  // ---------------------------------------------------------------------
  // The independent description of a fold: on each axis, the result is the
  // least (greatest) of the starting extent and of every ordinate seen.

  function Ordinate(c: Coord, axis: nat): Option<Ext>
    requires axis < 3
  {
    if axis == 0 then Some(c.x) else if axis == 1 then Some(c.y) else c.z
  }

  ghost predicate IsLeast(v: Ext, start: Ext, cs: seq<Coord>, axis: nat)
    requires axis < 3
  {
    && Le(v, start)
    && (forall i | 0 <= i < |cs| && Ordinate(cs[i], axis).Some? :: Le(v, Ordinate(cs[i], axis).value))
    && (v == start || exists i | 0 <= i < |cs| :: Ordinate(cs[i], axis) == Some(v))
  }

  ghost predicate IsGreatest(v: Ext, start: Ext, cs: seq<Coord>, axis: nat)
    requires axis < 3
  {
    && Le(start, v)
    && (forall i | 0 <= i < |cs| && Ordinate(cs[i], axis).Some? :: Le(Ordinate(cs[i], axis).value, v))
    && (v == start || exists i | 0 <= i < |cs| :: Ordinate(cs[i], axis) == Some(v))
  }

  /** `r` is the bounding rect of `e` widened by every coordinate of `cs`. */
  ghost predicate IsHull(r: Extents, e: Extents, cs: seq<Coord>) {
    && IsLeast(r.minx, e.minx, cs, 0) && IsGreatest(r.maxx, e.maxx, cs, 0)
    && IsLeast(r.miny, e.miny, cs, 1) && IsGreatest(r.maxy, e.maxy, cs, 1)
    && IsLeast(r.minz, e.minz, cs, 2) && IsGreatest(r.maxz, e.maxz, cs, 2)
  }

  lemma LeTrans(a: Ext, b: Ext, c: Ext)
    requires Le(a, b) && Le(b, c)
    ensures Le(a, c)
  {
  }

  lemma LeastStep(v: Ext, start: Ext, cs: seq<Coord>, axis: nat, w: Ext)
    requires axis < 3 && |cs| > 0
    requires IsLeast(v, start, cs[..|cs| - 1], axis)
    requires Ordinate(cs[|cs| - 1], axis).None? ==> w == v
    requires Ordinate(cs[|cs| - 1], axis).Some? ==>
      Le(w, v) && Le(w, Ordinate(cs[|cs| - 1], axis).value) && (w == v || Some(w) == Ordinate(cs[|cs| - 1], axis))
    ensures IsLeast(w, start, cs, axis)
  {
    var n := |cs| - 1;
    forall i | 0 <= i < |cs| && Ordinate(cs[i], axis).Some?
      ensures Le(w, Ordinate(cs[i], axis).value)
    {
      if i < n {
        assert cs[..n][i] == cs[i];
        LeTrans(w, v, Ordinate(cs[i], axis).value);
      }
    }
    LeTrans(w, v, start);
    if w != start && w == v {
      var i :| 0 <= i < n && Ordinate(cs[..n][i], axis) == Some(v);
      assert cs[..n][i] == cs[i];
    }
  }

  lemma GreatestStep(v: Ext, start: Ext, cs: seq<Coord>, axis: nat, w: Ext)
    requires axis < 3 && |cs| > 0
    requires IsGreatest(v, start, cs[..|cs| - 1], axis)
    requires Ordinate(cs[|cs| - 1], axis).None? ==> w == v
    requires Ordinate(cs[|cs| - 1], axis).Some? ==>
      Le(v, w) && Le(Ordinate(cs[|cs| - 1], axis).value, w) && (w == v || Some(w) == Ordinate(cs[|cs| - 1], axis))
    ensures IsGreatest(w, start, cs, axis)
  {
    var n := |cs| - 1;
    forall i | 0 <= i < |cs| && Ordinate(cs[i], axis).Some?
      ensures Le(Ordinate(cs[i], axis).value, w)
    {
      if i < n {
        assert cs[..n][i] == cs[i];
        LeTrans(Ordinate(cs[i], axis).value, v, w);
      }
    }
    LeTrans(start, v, w);
    if w != start && w == v {
      var i :| 0 <= i < n && Ordinate(cs[..n][i], axis) == Some(v);
      assert cs[..n][i] == cs[i];
    }
  }

  /** Folding `add_coord` over `cs` computes, on every axis, exactly the least
      and the greatest of the start and the ordinates in `cs`. */
  lemma {:induction false} FoldCoordsIsHull(e: Extents, cs: seq<Coord>)
    ensures IsHull(FoldCoords(e, cs), e, cs)
  {
    if |cs| > 0 {
      var n := |cs| - 1;
      var p := FoldCoords(e, cs[..n]);
      var r := FoldCoords(e, cs);
      FoldCoordsIsHull(e, cs[..n]);
      assert r == AddCoordTo(p, cs[n]);
      LeastStep(p.minx, e.minx, cs, 0, r.minx);
      GreatestStep(p.maxx, e.maxx, cs, 0, r.maxx);
      LeastStep(p.miny, e.miny, cs, 1, r.miny);
      GreatestStep(p.maxy, e.maxy, cs, 1, r.maxy);
      LeastStep(p.minz, e.minz, cs, 2, r.minz);
      GreatestStep(p.maxz, e.maxz, cs, 2, r.maxz);
    }
  }

  /** Folding over a concatenation is folding over each part in turn. */
  lemma {:induction false} FoldCoordsAppend(e: Extents, a: seq<Coord>, b: seq<Coord>)
    ensures FoldCoords(e, a + b) == FoldCoords(FoldCoords(e, a), b)
  {
    if |b| == 0 {
      assert a + b == a;
    } else {
      var n := |b| - 1;
      assert (a + b)[..|a + b| - 1] == a + b[..n];
      assert (a + b)[|a + b| - 1] == b[n];
      FoldCoordsAppend(e, a, b[..n]);
    }
  }

  lemma FoldTwo(e: Extents, a: Coord, b: Coord)
    ensures FoldCoords(e, [a, b]) == AddCoordTo(AddCoordTo(e, a), b)
  {
    assert [a, b][..1] == [a];
    assert [a][..0] == [];
    assert FoldCoords(e, [a]) == AddCoordTo(FoldCoords(e, []), a);
  }

  /** A fresh accumulator has no z extent and reports two dimensions. */
  lemma FreshIsEmpty()
    ensures MinZ(Empty()) == None && MaxZ(Empty()) == None && Dim(Empty()) == Xy
    ensures forall c :: AddCoordTo(Empty(), c) == Extents(c.x, c.y,
      if c.z.Some? && c.z.value != PosInf then c.z.value else PosInf, c.x, c.y,
      if c.z.Some? && c.z.value != NegInf then c.z.value else NegInf)
  {
  }

  /** Adding a coordinate a second time changes nothing. */
  lemma AddCoordIdempotent(e: Extents, c: Coord)
    ensures AddCoordTo(AddCoordTo(e, c), c) == AddCoordTo(e, c)
  {
  }

  lemma AddCoordCovered(e: Extents, c: Coord)
    requires Covers(e, c)
    ensures AddCoordTo(e, c) == e
  {
  }

  /** Coordinates already inside the extents leave them as they are. */
  lemma {:induction false} FoldCoordsCovered(e: Extents, cs: seq<Coord>)
    requires forall i | 0 <= i < |cs| :: Covers(e, cs[i])
    ensures FoldCoords(e, cs) == e
  {
    if |cs| > 0 {
      FoldCoordsCovered(e, cs[..|cs| - 1]);
      AddCoordCovered(e, cs[|cs| - 1]);
    }
  }

  /** The folded extents cover every coordinate folded in. */
  lemma {:induction false} FoldCoordsCovers(e: Extents, cs: seq<Coord>)
    ensures forall i | 0 <= i < |cs| :: Covers(FoldCoords(e, cs), cs[i])
  {
    FoldCoordsIsHull(e, cs);
    var r := FoldCoords(e, cs);
    forall i | 0 <= i < |cs| ensures Covers(r, cs[i]) {
      assert Ordinate(cs[i], 0) == Some(cs[i].x);
      assert Ordinate(cs[i], 1) == Some(cs[i].y);
      assert Ordinate(cs[i], 2) == cs[i].z;
    }
  }

  /** Adding the same coordinates twice gives the state of adding them once. */
  lemma FoldCoordsIdempotent(e: Extents, cs: seq<Coord>)
    ensures FoldCoords(FoldCoords(e, cs), cs) == FoldCoords(e, cs)
  {
    FoldCoordsCovers(e, cs);
    FoldCoordsCovered(FoldCoords(e, cs), cs);
  }

  /** Once any coordinate was added, each minimum is at most its maximum on x and y. */
  lemma {:induction false} FoldNonEmptyIsOrdered(e: Extents, cs: seq<Coord>)
    requires |cs| > 0
    ensures var r := FoldCoords(e, cs); Le(r.minx, r.maxx) && Le(r.miny, r.maxy)
  {
    FoldCoordsCovers(e, cs);
    var r := FoldCoords(e, cs);
    assert Covers(r, cs[0]);
    LeTrans(r.minx, cs[0].x, r.maxx);
    LeTrans(r.miny, cs[0].y, r.maxy);
  }

  /** After a fold from the fresh accumulator, `dim()` is Xyz exactly when some
      coordinate had a z below +inf and some coordinate had a z above -inf
      (for finite coordinates: exactly when some coordinate was 3D). */
  lemma DimOfFold(cs: seq<Coord>)
    ensures Dim(FoldCoords(Empty(), cs)) == Xyz <==>
      (exists i | 0 <= i < |cs| :: cs[i].z.Some? && cs[i].z.value != PosInf) &&
      (exists j | 0 <= j < |cs| :: cs[j].z.Some? && cs[j].z.value != NegInf)
  {
    var r := FoldCoords(Empty(), cs);
    FoldCoordsIsHull(Empty(), cs);
    assert IsLeast(r.minz, PosInf, cs, 2) && IsGreatest(r.maxz, NegInf, cs, 2);
    if exists i | 0 <= i < |cs| :: cs[i].z.Some? && cs[i].z.value != PosInf {
      var i :| 0 <= i < |cs| && cs[i].z.Some? && cs[i].z.value != PosInf;
      assert Ordinate(cs[i], 2) == cs[i].z;
    }
    if exists j | 0 <= j < |cs| :: cs[j].z.Some? && cs[j].z.value != NegInf {
      var j :| 0 <= j < |cs| && cs[j].z.Some? && cs[j].z.value != NegInf;
      assert Ordinate(cs[j], 2) == cs[j].z;
    }
    if r.minz != PosInf {
      var i :| 0 <= i < |cs| && Ordinate(cs[i], 2) == Some(r.minz);
      assert cs[i].z == Some(r.minz);
    }
    if r.maxz != NegInf {
      var j :| 0 <= j < |cs| && Ordinate(cs[j], 2) == Some(r.maxz);
      assert cs[j].z == Some(r.maxz);
    }
  }

  /** After a fold from the fresh accumulator, `minz()` is absent exactly when
      no coordinate had a z below +inf (in particular while only 2D
      coordinates were added), and otherwise it is the least z seen. */
  lemma MinZOfFold(cs: seq<Coord>)
    ensures var m := MinZ(FoldCoords(Empty(), cs));
      && (m.None? <==> forall i | 0 <= i < |cs| :: cs[i].z.None? || cs[i].z.value == PosInf)
      && (m.Some? ==> (exists i | 0 <= i < |cs| :: cs[i].z == Some(m.value))
                      && forall i | 0 <= i < |cs| && cs[i].z.Some? :: Le(m.value, cs[i].z.value))
  {
    var r := FoldCoords(Empty(), cs);
    FoldCoordsIsHull(Empty(), cs);
    assert IsLeast(r.minz, PosInf, cs, 2);
    forall i | 0 <= i < |cs| && cs[i].z.Some? ensures Le(r.minz, cs[i].z.value) {
      assert Ordinate(cs[i], 2) == cs[i].z;
    }
    if r.minz != PosInf {
      var i :| 0 <= i < |cs| && Ordinate(cs[i], 2) == Some(r.minz);
      assert cs[i].z == Some(r.minz);
    }
  }

  /** After a fold from the fresh accumulator, `maxz()` is absent exactly when
      no coordinate had a z above -inf, and otherwise it is the greatest z seen. */
  lemma MaxZOfFold(cs: seq<Coord>)
    ensures var m := MaxZ(FoldCoords(Empty(), cs));
      && (m.None? <==> forall i | 0 <= i < |cs| :: cs[i].z.None? || cs[i].z.value == NegInf)
      && (m.Some? ==> (exists i | 0 <= i < |cs| :: cs[i].z == Some(m.value))
                      && forall i | 0 <= i < |cs| && cs[i].z.Some? :: Le(cs[i].z.value, m.value))
  {
    var r := FoldCoords(Empty(), cs);
    FoldCoordsIsHull(Empty(), cs);
    assert IsGreatest(r.maxz, NegInf, cs, 2);
    forall i | 0 <= i < |cs| && cs[i].z.Some? ensures Le(cs[i].z.value, r.maxz) {
      assert Ordinate(cs[i], 2) == cs[i].z;
    }
    if r.maxz != NegInf {
      var i :| 0 <= i < |cs| && Ordinate(cs[i], 2) == Some(r.maxz);
      assert cs[i].z == Some(r.maxz);
    }
  }

  /** Coordinates without z never give the accumulator a z extent. */
  lemma {:induction false} FoldFlatKeepsZ(e: Extents, cs: seq<Coord>)
    requires forall i | 0 <= i < |cs| :: cs[i].z.None?
    ensures FoldCoords(e, cs).minz == e.minz && FoldCoords(e, cs).maxz == e.maxz
  {
    if |cs| > 0 {
      FoldFlatKeepsZ(e, cs[..|cs| - 1]);
    }
  }

  // ---------------------------------------------------------------------
  // `Add::add`

  lemma MergeCommutative(a: Extents, b: Extents)
    ensures Merge(a, b) == Merge(b, a)
  {
  }

  lemma MergeAssociative(a: Extents, b: Extents, c: Extents)
    ensures Merge(Merge(a, b), c) == Merge(a, Merge(b, c))
  {
  }

  /** The fresh accumulator is the identity of `+`, on both sides. */
  lemma MergeIdentity(a: Extents)
    ensures Merge(a, Empty()) == a && Merge(Empty(), a) == a
  {
  }

  lemma MergeAddCoord(a: Extents, b: Extents, c: Coord)
    ensures Merge(AddCoordTo(a, c), b) == AddCoordTo(Merge(a, b), c)
    ensures Merge(a, AddCoordTo(b, c)) == AddCoordTo(Merge(a, b), c)
  {
  }

  lemma {:induction false} MergeFoldLeft(a: Extents, b: Extents, cs: seq<Coord>)
    ensures Merge(FoldCoords(a, cs), b) == FoldCoords(Merge(a, b), cs)
  {
    if |cs| > 0 {
      MergeFoldLeft(a, b, cs[..|cs| - 1]);
      MergeAddCoord(FoldCoords(a, cs[..|cs| - 1]), b, cs[|cs| - 1]);
    }
  }

  /** Merging two partial reductions equals reducing the concatenated input
      from the merged starts: `+` is how partial bounding rects combine. */
  lemma {:induction false} MergeOfFolds(a: Extents, b: Extents, xs: seq<Coord>, ys: seq<Coord>)
    ensures Merge(FoldCoords(a, xs), FoldCoords(b, ys)) == FoldCoords(Merge(a, b), xs + ys)
  {
    if |ys| == 0 {
      assert xs + ys == xs;
      MergeFoldLeft(a, b, xs);
    } else {
      var n := |ys| - 1;
      MergeOfFolds(a, b, xs, ys[..n]);
      MergeAddCoord(FoldCoords(a, xs), FoldCoords(b, ys[..n]), ys[n]);
      assert (xs + ys)[..|xs + ys| - 1] == xs + ys[..n];
    }
  }

  /** The bounding rect of a geometry, as `bounding_rect_geometry` computes it. */
  function RectOfGeometry(g: Geometry): Extents {
    FoldCoords(Empty(), CoordsOf(g))
  }

  /** The bounding rects of a sequence of geometries combined with `+`. */
  function MergeAll(gs: seq<Geometry>): Extents {
    if |gs| == 0 then Empty() else Merge(MergeAll(gs[..|gs| - 1]), RectOfGeometry(gs[|gs| - 1]))
  }

  /** The bounding rect of a collection is the `+` of its members' bounding rects. */
  lemma {:induction false} CollectionIsMergeOfMembers(gs: seq<Geometry>)
    ensures RectOfGeometry(GeometryCollectionGeom(gs)) == MergeAll(gs)
  {
    if |gs| > 0 {
      var n := |gs| - 1;
      CollectionIsMergeOfMembers(gs[..n]);
      assert RectOfGeometry(GeometryCollectionGeom(gs[..n])) == FoldCoords(Empty(), CoordsOfAll(gs[..n]));
      assert CoordsOfAll(gs) == CoordsOfAll(gs[..n]) + CoordsOf(gs[n]);
      MergeOfFolds(Empty(), Empty(), CoordsOfAll(gs[..n]), CoordsOf(gs[n]));
      MergeIdentity(Empty());
      assert MergeAll(gs) == Merge(MergeAll(gs[..n]), RectOfGeometry(gs[n]));
    } else {
      assert CoordsOfAll(gs) == [];
    }
  }

  // ---------------------------------------------------------------------
  // `update` reuses `add_rect`, so it is not `+`.

  /** `update` never looks at `other`'s z extent. */
  lemma UpdateKeepsZ(e: Extents, other: Extents)
    ensures Updated(e, other).minz == e.minz && Updated(e, other).maxz == e.maxz
  {
    FoldFlatKeepsZ(e, RectCoords(AsRect(other)));
  }

  /** Updating with a fresh accumulator is not the identity: its corners
      (+inf, +inf) and (-inf, -inf) stretch x and y to infinity, whereas `+`
      with a fresh accumulator changes nothing. */
  lemma UpdateWithFreshIsNotIdentity(e: Extents)
    ensures var u := Updated(e, Empty());
      u.minx == NegInf && u.miny == NegInf && u.maxx == PosInf && u.maxy == PosInf
    ensures Merge(e, Empty()) == e
  {
    FoldTwo(e, MinCorner(Empty()), MaxCorner(Empty()));
  }

  /** When `other` is non-empty on x and y, `update` is `+` with `other`'s
      z extent dropped. */
  lemma UpdateIsMergeWithoutZ(e: Extents, other: Extents)
    requires Le(other.minx, other.maxx) && Le(other.miny, other.maxy)
    ensures Updated(e, other) == Merge(e, Extents(other.minx, other.miny, PosInf, other.maxx, other.maxy, NegInf))
  {
    FoldTwo(e, MinCorner(other), MaxCorner(other));
  }

  /** The geo rect of a non-empty accumulator has its corners as they are;
      that of a fresh one spans the whole plane. */
  lemma GeoRectOfExtents(e: Extents)
    ensures Le(e.minx, e.maxx) && Le(e.miny, e.maxy) ==> ToGeoRect(e) == AsRect(e)
    ensures ToGeoRect(Empty()) == Rect(Coord(NegInf, NegInf, None), Coord(PosInf, PosInf, None))
  {
  }

  /** The 2D box of `corners` contains every coordinate of `cs`. */
  predicate CornersBound(corners: (seq<Ext>, seq<Ext>), cs: seq<Coord>) {
    && |corners.0| == 2 && |corners.1| == 2
    && forall i | 0 <= i < |cs| ::
         Le(corners.0[0], cs[i].x) && Le(cs[i].x, corners.1[0]) &&
         Le(corners.0[1], cs[i].y) && Le(cs[i].y, corners.1[1])
  }

  lemma CornersOfFold(cs: seq<Coord>)
    ensures CornersBound(ToCorners(FoldCoords(Empty(), cs)), cs)
  {
    FoldCoordsCovers(Empty(), cs);
  }

  /** The `(minx, miny, maxx, maxy)` tuple of a fold bounds every coordinate folded. */
  lemma TupleOfFold(cs: seq<Coord>)
    ensures var t := ToTuple(FoldCoords(Empty(), cs));
      forall i | 0 <= i < |cs| :: Le(t.0, cs[i].x) && Le(cs[i].x, t.2) && Le(t.1, cs[i].y) && Le(cs[i].y, t.3)
  {
    FoldCoordsCovers(Empty(), cs);
  }

  // ---------------------------------------------------------------------
  // The accumulator updated in place.

  class BoundingRect {
    var minx: Ext
    var miny: Ext
    var minz: Ext
    var maxx: Ext
    var maxy: Ext
    var maxz: Ext

    function State(): Extents
      reads this
    {
      Extents(minx, miny, minz, maxx, maxy, maxz)
    }

    constructor ()
      ensures State() == Empty()
    {
      minx, miny, minz := PosInf, PosInf, PosInf;
      maxx, maxy, maxz := NegInf, NegInf, NegInf;
    }

    method AddCoord(c: Coord)
      modifies this
      ensures State() == AddCoordTo(old(State()), c)
    {
      if Lt(c.x, minx) {
        minx := c.x;
      }
      if Lt(c.y, miny) {
        miny := c.y;
      }
      if c.z.Some? {
        if Lt(c.z.value, minz) {
          minz := c.z.value;
        }
      }
      if Lt(maxx, c.x) {
        maxx := c.x;
      }
      if Lt(maxy, c.y) {
        maxy := c.y;
      }
      if c.z.Some? {
        if Lt(maxz, c.z.value) {
          maxz := c.z.value;
        }
      }
    }

    method AddPoint(p: Point)
      modifies this
      ensures State() == FoldCoords(old(State()), PointCoords(p))
    {
      if p.coord.Some? {
        AddCoord(p.coord.value);
      }
    }

    method AddLineString(ls: LineString)
      modifies this
      ensures State() == FoldCoords(old(State()), ls.coords)
    {
      for i := 0 to |ls.coords|
        invariant State() == FoldCoords(old(State()), ls.coords[..i])
      {
        AddCoord(ls.coords[i]);
        assert ls.coords[..i + 1][..i] == ls.coords[..i];
      }
      assert ls.coords[..|ls.coords|] == ls.coords;
    }

    method AddPolygon(p: Polygon)
      modifies this
      ensures State() == FoldCoords(old(State()), PolygonCoords(p))
    {
      if p.exterior.Some? {
        AddLineString(p.exterior.value);
      }
      ghost var afterExterior := State();
      assert afterExterior == FoldCoords(old(State()), ExteriorCoords(p));
      for i := 0 to |p.interiors|
        invariant State() == FoldCoords(afterExterior, LineStringsCoords(p.interiors[..i]))
      {
        AddLineString(p.interiors[i]);
        assert p.interiors[..i + 1][..i] == p.interiors[..i];
        FoldCoordsAppend(afterExterior, LineStringsCoords(p.interiors[..i]), p.interiors[i].coords);
      }
      assert p.interiors[..|p.interiors|] == p.interiors;
      FoldCoordsAppend(old(State()), ExteriorCoords(p), LineStringsCoords(p.interiors));
    }

    method AddMultiPoint(ps: seq<Point>)
      modifies this
      ensures State() == FoldCoords(old(State()), PointsCoords(ps))
    {
      for i := 0 to |ps|
        invariant State() == FoldCoords(old(State()), PointsCoords(ps[..i]))
      {
        AddPoint(ps[i]);
        assert ps[..i + 1][..i] == ps[..i];
        FoldCoordsAppend(old(State()), PointsCoords(ps[..i]), PointCoords(ps[i]));
      }
      assert ps[..|ps|] == ps;
    }

    method AddMultiLineString(ls: seq<LineString>)
      modifies this
      ensures State() == FoldCoords(old(State()), LineStringsCoords(ls))
    {
      for i := 0 to |ls|
        invariant State() == FoldCoords(old(State()), LineStringsCoords(ls[..i]))
      {
        AddLineString(ls[i]);
        assert ls[..i + 1][..i] == ls[..i];
        FoldCoordsAppend(old(State()), LineStringsCoords(ls[..i]), ls[i].coords);
      }
      assert ls[..|ls|] == ls;
    }

    method AddMultiPolygon(ps: seq<Polygon>)
      modifies this
      ensures State() == FoldCoords(old(State()), PolygonsCoords(ps))
    {
      for i := 0 to |ps|
        invariant State() == FoldCoords(old(State()), PolygonsCoords(ps[..i]))
      {
        AddPolygon(ps[i]);
        assert ps[..i + 1][..i] == ps[..i];
        FoldCoordsAppend(old(State()), PolygonsCoords(ps[..i]), PolygonCoords(ps[i]));
      }
      assert ps[..|ps|] == ps;
    }

    method AddGeometry(g: Geometry)
      requires Supported(g)
      modifies this
      ensures State() == FoldCoords(old(State()), CoordsOf(g))
      decreases g, 1
    {
      match g
      case PointGeom(p) => AddPoint(p);
      case LineStringGeom(ls) => AddLineString(ls);
      case PolygonGeom(p) => AddPolygon(p);
      case MultiPointGeom(ps) => AddMultiPoint(ps);
      case MultiLineStringGeom(ls) => AddMultiLineString(ls);
      case MultiPolygonGeom(ps) => AddMultiPolygon(ps);
      case GeometryCollectionGeom(gs) => AddGeometryCollection(gs);
      case RectGeom(r) => AddRect(r);
    }

    method AddGeometryCollection(gs: seq<Geometry>)
      requires AllSupported(gs)
      modifies this
      ensures State() == FoldCoords(old(State()), CoordsOfAll(gs))
      decreases gs, 0
    {
      for i := 0 to |gs|
        invariant State() == FoldCoords(old(State()), CoordsOfAll(gs[..i]))
      {
        AllSupportedAt(gs, i);
        AddGeometry(gs[i]);
        assert gs[..i + 1][..i] == gs[..i];
        FoldCoordsAppend(old(State()), CoordsOfAll(gs[..i]), CoordsOf(gs[i]));
      }
      assert gs[..|gs|] == gs;
    }

    method AddRect(r: Rect)
      modifies this
      ensures State() == FoldCoords(old(State()), RectCoords(r))
    {
      AddCoord(r.min);
      AddCoord(r.max);
      FoldTwo(old(State()), r.min, r.max);
    }

    method Update(other: BoundingRect)
      requires other != this
      modifies this
      ensures State() == Updated(old(State()), other.State())
    {
      AddRect(AsRect(other.State()));
    }
  }

  lemma {:induction false} AllSupportedAt(gs: seq<Geometry>, i: nat)
    requires AllSupported(gs) && i < |gs|
    ensures Supported(gs[i])
  {
    if i < |gs| - 1 {
      AllSupportedAt(gs[..|gs| - 1], i);
      assert gs[..|gs| - 1][i] == gs[i];
    }
  }

  // ---------------------------------------------------------------------
  // The `bounding_rect_*` helpers: a fresh accumulator, one add, the 2D corners.

  method BoundingRectPoint(p: Point) returns (r: (seq<Ext>, seq<Ext>))
    ensures r == ToCorners(FoldCoords(Empty(), PointCoords(p)))
    ensures CornersBound(r, PointCoords(p))
  {
    var rect := new BoundingRect();
    rect.AddPoint(p);
    r := ToCorners(rect.State());
    CornersOfFold(PointCoords(p));
  }

  method BoundingRectMultiPoint(ps: seq<Point>) returns (r: (seq<Ext>, seq<Ext>))
    ensures r == ToCorners(FoldCoords(Empty(), PointsCoords(ps)))
    ensures CornersBound(r, PointsCoords(ps))
  {
    var rect := new BoundingRect();
    rect.AddMultiPoint(ps);
    r := ToCorners(rect.State());
    CornersOfFold(PointsCoords(ps));
  }

  method BoundingRectLineString(ls: LineString) returns (r: (seq<Ext>, seq<Ext>))
    ensures r == ToCorners(FoldCoords(Empty(), ls.coords))
    ensures CornersBound(r, ls.coords)
  {
    var rect := new BoundingRect();
    rect.AddLineString(ls);
    r := ToCorners(rect.State());
    CornersOfFold(ls.coords);
  }

  method BoundingRectMultiLineString(ls: seq<LineString>) returns (r: (seq<Ext>, seq<Ext>))
    ensures r == ToCorners(FoldCoords(Empty(), LineStringsCoords(ls)))
    ensures CornersBound(r, LineStringsCoords(ls))
  {
    var rect := new BoundingRect();
    rect.AddMultiLineString(ls);
    r := ToCorners(rect.State());
    CornersOfFold(LineStringsCoords(ls));
  }

  method BoundingRectPolygon(p: Polygon) returns (r: (seq<Ext>, seq<Ext>))
    ensures r == ToCorners(FoldCoords(Empty(), PolygonCoords(p)))
    ensures CornersBound(r, PolygonCoords(p))
  {
    var rect := new BoundingRect();
    rect.AddPolygon(p);
    r := ToCorners(rect.State());
    CornersOfFold(PolygonCoords(p));
  }

  method BoundingRectMultiPolygon(ps: seq<Polygon>) returns (r: (seq<Ext>, seq<Ext>))
    ensures r == ToCorners(FoldCoords(Empty(), PolygonsCoords(ps)))
    ensures CornersBound(r, PolygonsCoords(ps))
  {
    var rect := new BoundingRect();
    rect.AddMultiPolygon(ps);
    r := ToCorners(rect.State());
    CornersOfFold(PolygonsCoords(ps));
  }

  method BoundingRectGeometry(g: Geometry) returns (r: (seq<Ext>, seq<Ext>))
    requires Supported(g)
    ensures r == ToCorners(RectOfGeometry(g))
    ensures CornersBound(r, CoordsOf(g))
  {
    var rect := new BoundingRect();
    rect.AddGeometry(g);
    r := ToCorners(rect.State());
    CornersOfFold(CoordsOf(g));
  }

  method BoundingRectGeometryCollection(gs: seq<Geometry>) returns (r: (seq<Ext>, seq<Ext>))
    requires AllSupported(gs)
    ensures r == ToCorners(MergeAll(gs))
    ensures CornersBound(r, CoordsOfAll(gs))
  {
    var rect := new BoundingRect();
    rect.AddGeometryCollection(gs);
    r := ToCorners(rect.State());
    CornersOfFold(CoordsOfAll(gs));
    CollectionIsMergeOfMembers(gs);
  }

  method BoundingRectRect(rc: Rect) returns (r: (seq<Ext>, seq<Ext>))
    ensures r == ToCorners(FoldCoords(Empty(), RectCoords(rc)))
    ensures CornersBound(r, RectCoords(rc))
  {
    var rect := new BoundingRect();
    rect.AddRect(rc);
    r := ToCorners(rect.State());
    CornersOfFold(RectCoords(rc));
  }
}
