/** The static shape catalog (constants/Shapes.ts). The order of a shape's
    points is the order in which the user has to connect them. */
module Shapes {

  datatype Point = Point(x: real, y: real)

  datatype Shape = Shape(points: seq<Point>, count: nat)

  /** The catalog's keys in declaration order, which is the order `Object.keys` reports. */
  const ShapeKeys: seq<string> := ["star", "infinity", "arrow", "wave", "crown"]

  /** Every catalog coordinate stays in the band [0.1, 0.9] of the unit square. */
  predicate InBand(v: real) {
    0.1 <= v <= 0.9
  }

  /** A usable shape: `count` agrees with the point list, at least one point, all points in the band. */
  predicate WellFormed(s: Shape) {
    && s.count == |s.points|
    && s.count >= 1
    && forall i :: 0 <= i < |s.points| ==> InBand(s.points[i].x) && InBand(s.points[i].y)
  }

  function Star(): (s: Shape)
    ensures WellFormed(s) && s.count == 10
  {
    Shape([Point(0.5, 0.1), Point(0.6, 0.35), Point(0.9, 0.35), Point(0.7, 0.55), Point(0.8, 0.85),
           Point(0.5, 0.7), Point(0.2, 0.85), Point(0.3, 0.55), Point(0.1, 0.35), Point(0.4, 0.35)],
          10)
  }

  function Infinity(): (s: Shape)
    ensures WellFormed(s) && s.count == 11
  {
    Shape([Point(0.25, 0.5), Point(0.15, 0.3), Point(0.35, 0.2), Point(0.5, 0.5), Point(0.65, 0.8),
           Point(0.85, 0.7), Point(0.75, 0.5), Point(0.85, 0.3), Point(0.65, 0.2), Point(0.35, 0.8),
           Point(0.15, 0.7)],
          11)
  }

  function Arrow(): (s: Shape)
    ensures WellFormed(s) && s.count == 7
  {
    Shape([Point(0.8, 0.5), Point(0.6, 0.3), Point(0.6, 0.4), Point(0.2, 0.4), Point(0.2, 0.6),
           Point(0.6, 0.6), Point(0.6, 0.7)],
          7)
  }

  function Wave(): (s: Shape)
    ensures WellFormed(s) && s.count == 9
  {
    Shape([Point(0.1, 0.5), Point(0.2, 0.3), Point(0.3, 0.5), Point(0.4, 0.7), Point(0.5, 0.5),
           Point(0.6, 0.3), Point(0.7, 0.5), Point(0.8, 0.7), Point(0.9, 0.5)],
          9)
  }

  function Crown(): (s: Shape)
    ensures WellFormed(s) && s.count == 8
  {
    Shape([Point(0.15, 0.8), Point(0.25, 0.4), Point(0.35, 0.65), Point(0.45, 0.2), Point(0.55, 0.65),
           Point(0.65, 0.25), Point(0.85, 0.8), Point(0.1, 0.9)],
          8)
  }

  /** The catalog: exactly the five keys, every shape well formed, with the source's counts. */
  function Catalog(): (m: map<string, Shape>)
    ensures m.Keys == set k | k in ShapeKeys
    ensures forall k :: k in m ==> WellFormed(m[k])
    ensures m["star"].count == 10 && m["infinity"].count == 11 && m["arrow"].count == 7
    ensures m["wave"].count == 9 && m["crown"].count == 8
  {
    map["star" := Star(), "infinity" := Infinity(), "arrow" := Arrow(), "wave" := Wave(), "crown" := Crown()]
  }

  /** The catalog entry under the i-th key, selected by position so that no key comparison is needed. */
  function ShapeAt(i: nat): (s: Shape)
    requires i < |ShapeKeys|
    ensures WellFormed(s)
  {
    match i
    case 0 => Star()
    case 1 => Infinity()
    case 2 => Arrow()
    case 3 => Wave()
    case _ => Crown()
  }

  /** Selecting by position agrees with looking the i-th key up in the catalog. */
  lemma CatalogAt(i: nat)
    requires i < |ShapeKeys|
    ensures ShapeKeys[i] in Catalog() && Catalog()[ShapeKeys[i]] == ShapeAt(i)
  {
  }

  /** The catalog has five distinct keys, so a uniform pick over them is a pick among five shapes. */
  lemma CatalogHasFiveShapes()
    ensures |ShapeKeys| == 5
    ensures forall i, j :: 0 <= i < j < |ShapeKeys| ==> ShapeKeys[i] != ShapeKeys[j]
    ensures |Catalog().Keys| == 5
  {
    var ks := set k | k in ShapeKeys;
    assert ks == {"star", "infinity", "arrow", "wave", "crown"};
    assert "star"[0] == 's' && "infinity"[0] == 'i' && "arrow"[0] == 'a' && "wave"[0] == 'w';
    assert "crown"[0] == 'c';
  }
}
