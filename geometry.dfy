/** Geometry values as the geometry traits present them to the algorithms:
    coordinates, the nine kinds of geometry and their flattening into the
    sequence of coordinates an algorithm visits. */
module Geometry {
  import opened Errors

  /** A non-NaN IEEE-754 double: a real number or one of the two infinities.
      The algorithms only compare such values; they never compute with them. */
  datatype Ext = NegInf | Fin(r: real) | PosInf

  /** Strict order on `Ext`, the meaning of `<` on non-NaN doubles. */
  predicate Lt(a: Ext, b: Ext) {
    match a
    case NegInf => !b.NegInf?
    case Fin(x) => (b.Fin? && x < b.r) || b.PosInf?
    case PosInf => false
  }

  predicate Le(a: Ext, b: Ext) {
    !Lt(b, a)
  }

  /** `f64::min` on non-NaN values. */
  function Min(a: Ext, b: Ext): Ext {
    if Lt(b, a) then b else a
  }

  /** `f64::max` on non-NaN values. */
  function Max(a: Ext, b: Ext): Ext {
    if Lt(a, b) then b else a
  }

  /** A coordinate: x, y, and the third ordinate when the coordinate is 3D
      (`nth(2)`). */
  datatype Coord = Coord(x: Ext, y: Ext, z: Option<Ext>)

  /** A point may be empty (no coordinate). */
  datatype Point = Point(coord: Option<Coord>)

  datatype LineString = LineString(coords: seq<Coord>)

  datatype Polygon = Polygon(exterior: Option<LineString>, interiors: seq<LineString>)

  datatype Rect = Rect(min: Coord, max: Coord)

  datatype Geometry =
    | PointGeom(point: Point)
    | LineStringGeom(lineString: LineString)
    | PolygonGeom(polygon: Polygon)
    | MultiPointGeom(points: seq<Point>)
    | MultiLineStringGeom(lineStrings: seq<LineString>)
    | MultiPolygonGeom(polygons: seq<Polygon>)
    | GeometryCollectionGeom(geometries: seq<Geometry>)
    | RectGeom(rect: Rect)
    | TriangleGeom(v0: Coord, v1: Coord, v2: Coord)
    | LineGeom(start: Coord, end: Coord)

  datatype GeometryKind =
    | PointKind | LineStringKind | PolygonKind | MultiPointKind | MultiLineStringKind
    | MultiPolygonKind | GeometryCollectionKind | RectKind | TriangleKind | LineKind

  function KindOf(g: Geometry): GeometryKind {
    match g
    case PointGeom(_) => PointKind
    case LineStringGeom(_) => LineStringKind
    case PolygonGeom(_) => PolygonKind
    case MultiPointGeom(_) => MultiPointKind
    case MultiLineStringGeom(_) => MultiLineStringKind
    case MultiPolygonGeom(_) => MultiPolygonKind
    case GeometryCollectionGeom(_) => GeometryCollectionKind
    case RectGeom(_) => RectKind
    case TriangleGeom(_, _, _) => TriangleKind
    case LineGeom(_, _) => LineKind
  }

  /** A geometry the bounding-rect algorithm can walk: no triangle and no line
      anywhere inside it (those two kinds end in `todo!()`). */
  predicate Supported(g: Geometry)
    decreases g, 1
  {
    match g
    case GeometryCollectionGeom(gs) => AllSupported(gs)
    case TriangleGeom(_, _, _) => false
    case LineGeom(_, _) => false
    case _ => true
  }

  predicate AllSupported(gs: seq<Geometry>)
    decreases gs, 0
  {
    if |gs| == 0 then true else AllSupported(gs[..|gs| - 1]) && Supported(gs[|gs| - 1])
  }

  // The coordinates of each shape, in the order the algorithms visit them.
  // Sequences of parts are flattened from the front, one part at a time.

  function PointCoords(p: Point): seq<Coord> {
    if p.coord.Some? then [p.coord.value] else []
  }

  function PointsCoords(ps: seq<Point>): seq<Coord> {
    if |ps| == 0 then [] else PointsCoords(ps[..|ps| - 1]) + PointCoords(ps[|ps| - 1])
  }

  function LineStringsCoords(ls: seq<LineString>): seq<Coord> {
    if |ls| == 0 then [] else LineStringsCoords(ls[..|ls| - 1]) + ls[|ls| - 1].coords
  }

  function ExteriorCoords(p: Polygon): seq<Coord> {
    if p.exterior.Some? then p.exterior.value.coords else []
  }

  /** The exterior ring first, then each interior ring. */
  function PolygonCoords(p: Polygon): seq<Coord> {
    ExteriorCoords(p) + LineStringsCoords(p.interiors)
  }

  function PolygonsCoords(ps: seq<Polygon>): seq<Coord> {
    if |ps| == 0 then [] else PolygonsCoords(ps[..|ps| - 1]) + PolygonCoords(ps[|ps| - 1])
  }

  /** A rectangle contributes its two corners, the minimum one first. */
  function RectCoords(r: Rect): seq<Coord> {
    [r.min, r.max]
  }

  function CoordsOf(g: Geometry): seq<Coord>
    decreases g, 1
  {
    match g
    case PointGeom(p) => PointCoords(p)
    case LineStringGeom(ls) => ls.coords
    case PolygonGeom(p) => PolygonCoords(p)
    case MultiPointGeom(ps) => PointsCoords(ps)
    case MultiLineStringGeom(ls) => LineStringsCoords(ls)
    case MultiPolygonGeom(ps) => PolygonsCoords(ps)
    case GeometryCollectionGeom(gs) => CoordsOfAll(gs)
    case RectGeom(r) => RectCoords(r)
    case TriangleGeom(a, b, c) => [a, b, c]
    case LineGeom(a, b) => [a, b]
  }

  function CoordsOfAll(gs: seq<Geometry>): seq<Coord>
    decreases gs, 0
  {
    if |gs| == 0 then [] else CoordsOfAll(gs[..|gs| - 1]) + CoordsOf(gs[|gs| - 1])
  }

  // ---------------------------------------------------------------------
  // Dropping the third ordinate: what a builder with two ordinates per
  // coordinate keeps of a geometry, and what a conversion to `geo` keeps.

  function FlatCoord(c: Coord): Coord {
    Coord(c.x, c.y, None)
  }

  function FlatCoords(cs: seq<Coord>): seq<Coord> {
    seq(|cs|, i requires 0 <= i < |cs| => FlatCoord(cs[i]))
  }

  function FlatPoint(p: Point): Point {
    Point(if p.coord.Some? then Some(FlatCoord(p.coord.value)) else None)
  }

  function FlatLineString(ls: LineString): LineString {
    LineString(FlatCoords(ls.coords))
  }

  function FlatPoints(ps: seq<Point>): seq<Point> {
    seq(|ps|, i requires 0 <= i < |ps| => FlatPoint(ps[i]))
  }

  function FlatLineStrings(ls: seq<LineString>): seq<LineString> {
    seq(|ls|, i requires 0 <= i < |ls| => FlatLineString(ls[i]))
  }

  function FlatPolygon(p: Polygon): Polygon {
    Polygon(if p.exterior.Some? then Some(FlatLineString(p.exterior.value)) else None, FlatLineStrings(p.interiors))
  }

  function FlatPolygons(ps: seq<Polygon>): seq<Polygon> {
    seq(|ps|, i requires 0 <= i < |ps| => FlatPolygon(ps[i]))
  }

  /** The same geometry with every z dropped: same kind, same parts. */
  function Flat(g: Geometry): (r: Geometry)
    ensures KindOf(r) == KindOf(g)
    decreases g, 1
  {
    match g
    case PointGeom(p) => PointGeom(FlatPoint(p))
    case LineStringGeom(ls) => LineStringGeom(FlatLineString(ls))
    case PolygonGeom(p) => PolygonGeom(FlatPolygon(p))
    case MultiPointGeom(ps) => MultiPointGeom(FlatPoints(ps))
    case MultiLineStringGeom(ls) => MultiLineStringGeom(FlatLineStrings(ls))
    case MultiPolygonGeom(ps) => MultiPolygonGeom(FlatPolygons(ps))
    case GeometryCollectionGeom(gs) => GeometryCollectionGeom(FlatAll(gs))
    case RectGeom(r) => RectGeom(Rect(FlatCoord(r.min), FlatCoord(r.max)))
    case TriangleGeom(a, b, c) => TriangleGeom(FlatCoord(a), FlatCoord(b), FlatCoord(c))
    case LineGeom(a, b) => LineGeom(FlatCoord(a), FlatCoord(b))
  }

  function FlatAll(gs: seq<Geometry>): (r: seq<Geometry>)
    ensures |r| == |gs|
    decreases gs, 0
  {
    if |gs| == 0 then [] else FlatAll(gs[..|gs| - 1]) + [Flat(gs[|gs| - 1])]
  }

  lemma FlatCoordsAppend(a: seq<Coord>, b: seq<Coord>)
    ensures FlatCoords(a + b) == FlatCoords(a) + FlatCoords(b)
  {
  }

  lemma {:induction false} PointsCoordsFlat(ps: seq<Point>)
    ensures PointsCoords(FlatPoints(ps)) == FlatCoords(PointsCoords(ps))
  {
    if |ps| > 0 {
      var n := |ps| - 1;
      assert FlatPoints(ps)[..n] == FlatPoints(ps[..n]);
      PointsCoordsFlat(ps[..n]);
      FlatCoordsAppend(PointsCoords(ps[..n]), PointCoords(ps[n]));
    }
  }

  lemma {:induction false} LineStringsCoordsFlat(ls: seq<LineString>)
    ensures LineStringsCoords(FlatLineStrings(ls)) == FlatCoords(LineStringsCoords(ls))
  {
    if |ls| > 0 {
      var n := |ls| - 1;
      assert FlatLineStrings(ls)[..n] == FlatLineStrings(ls[..n]);
      LineStringsCoordsFlat(ls[..n]);
      FlatCoordsAppend(LineStringsCoords(ls[..n]), ls[n].coords);
    }
  }

  lemma PolygonCoordsFlat(p: Polygon)
    ensures PolygonCoords(FlatPolygon(p)) == FlatCoords(PolygonCoords(p))
  {
    LineStringsCoordsFlat(p.interiors);
    FlatCoordsAppend(ExteriorCoords(p), LineStringsCoords(p.interiors));
  }

  lemma {:induction false} PolygonsCoordsFlat(ps: seq<Polygon>)
    ensures PolygonsCoords(FlatPolygons(ps)) == FlatCoords(PolygonsCoords(ps))
  {
    if |ps| > 0 {
      var n := |ps| - 1;
      assert FlatPolygons(ps)[..n] == FlatPolygons(ps[..n]);
      PolygonsCoordsFlat(ps[..n]);
      PolygonCoordsFlat(ps[n]);
      FlatCoordsAppend(PolygonsCoords(ps[..n]), PolygonCoords(ps[n]));
    }
  }

  /** Dropping z keeps every coordinate, in order, with its x and y and
      without its z. */
  lemma {:induction false} CoordsOfFlat(g: Geometry)
    ensures CoordsOf(Flat(g)) == FlatCoords(CoordsOf(g))
    ensures forall i | 0 <= i < |CoordsOf(Flat(g))| :: CoordsOf(Flat(g))[i].z.None?
    decreases g, 1
  {
    match g
    case PointGeom(p) =>
    case LineStringGeom(ls) =>
    case PolygonGeom(p) => PolygonCoordsFlat(p);
    case MultiPointGeom(ps) => PointsCoordsFlat(ps);
    case MultiLineStringGeom(ls) => LineStringsCoordsFlat(ls);
    case MultiPolygonGeom(ps) => PolygonsCoordsFlat(ps);
    case GeometryCollectionGeom(gs) => CoordsOfAllFlat(gs);
    case RectGeom(r) =>
    case TriangleGeom(a, b, c) =>
    case LineGeom(a, b) =>
  }

  lemma {:induction false} CoordsOfAllFlat(gs: seq<Geometry>)
    ensures CoordsOfAll(FlatAll(gs)) == FlatCoords(CoordsOfAll(gs))
    decreases gs, 0
  {
    if |gs| > 0 {
      var n := |gs| - 1;
      assert FlatAll(gs)[..n] == FlatAll(gs[..n]);
      CoordsOfAllFlat(gs[..n]);
      CoordsOfFlat(gs[n]);
      FlatCoordsAppend(CoordsOfAll(gs[..n]), CoordsOf(gs[n]));
    }
  }
}
