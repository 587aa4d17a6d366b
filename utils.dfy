/** Layout generation, hit testing and order-preserving de-duplication
    (components/captcha/utils.ts; components/Captcha.tsx carries identical
    copies of the first two). */
module Utils {
  import opened Wrappers
  import opened Types
  import opened Shapes

  // ---------------------------------------------------------------------------
  // Layout generator

  /** Inset from every canvas edge in the unit-square-to-canvas mapping. */
  const Margin: real := NumberRadius * 2.0

  /** Full width of the jitter interval, centred on zero. */
  const JitterSpan: real := 0.05

  /** A value drawn by `Math.random()`. */
  predicate IsRandom(r: real) {
    0.0 <= r < 1.0
  }

  /** The two random draws the generator consumes for one point (x first, then y). */
  datatype Draw = Draw(rx: real, ry: real)

  predicate IsRandomDraw(d: Draw) {
    IsRandom(d.rx) && IsRandom(d.ry)
  }

  /** The catalog index chosen by `Math.floor(Math.random() * shapeKeys.length)`. */
  function ShapeIndex(pick: real): (i: nat)
    requires IsRandom(pick)
    ensures i < |ShapeKeys|
    ensures i as real <= pick * |ShapeKeys| as real < i as real + 1.0
  {
    (pick * |ShapeKeys| as real).Floor
  }

  /** The shape the generator lays out for the key draw `pick`. */
  function PickedShape(pick: real): (s: Shape)
    requires IsRandom(pick)
    ensures WellFormed(s)
  {
    ShapeAt(ShapeIndex(pick))
  }

  /** The picked shape is the catalog entry under the key at index `floor(pick * 5)`. */
  lemma PickedShapeInCatalog(pick: real)
    requires IsRandom(pick)
    ensures ShapeKeys[ShapeIndex(pick)] in Catalog()
    ensures PickedShape(pick) == Catalog()[ShapeKeys[ShapeIndex(pick)]]
  {
    CatalogAt(ShapeIndex(pick));
  }

  /** The jitter added to a unit coordinate for the random draw r. */
  function Jitter(r: real): real {
    (r - 0.5) * JitterSpan
  }

  lemma JitterRange(r: real)
    requires IsRandom(r)
    ensures -0.025 <= Jitter(r) < 0.025
  {
  }

  /** Maps a (jittered) unit coordinate onto a canvas axis of length `width`, inset by the margin. */
  function Scale(u: real, width: real): real {
    u * (width - Margin * 2.0) + Margin
  }

  /** Any unit coordinate, jittered, lands at least one hit radius inside a canvas
      of side between twice the margin and MaxCanvasSize. */
  lemma PlaceInCanvas(p: real, r: real, width: real)
    requires 0.0 <= p <= 1.0 && IsRandom(r)
    requires Margin * 2.0 <= width <= MaxCanvasSize
    ensures NumberRadius <= Scale(p + Jitter(r), width) <= width - NumberRadius
  {
    var t := p + Jitter(r);
    var d := width - Margin * 2.0;
    assert -0.025 <= t <= 1.025 by { JitterRange(r); }
    assert 0.0 <= d <= 320.0;
    MulNonNegative(t + 0.025, d);
    MulNonNegative(1.025 - t, d);
    assert Scale(t, width) == t * d + Margin;
  }

  lemma MulNonNegative(a: real, b: real)
    requires 0.0 <= a && 0.0 <= b
    ensures 0.0 <= a * b
  {
  }

  /** The i-th node the generator produces (0-based position i, id i + 1). */
  function NodeAt(shape: Shape, draws: seq<Draw>, width: real, i: nat): Node
    requires i < |shape.points| && i < |draws|
  {
    Node(i + 1, Scale(shape.points[i].x + Jitter(draws[i].rx), width), Scale(shape.points[i].y + Jitter(draws[i].ry), width))
  }

  /** The layout of `shape` for the given draws: one node per point, in point order. */
  function Layout(shape: Shape, draws: seq<Draw>, width: real): seq<Node>
    requires shape.count <= |shape.points| && shape.count <= |draws|
  {
    seq(shape.count, i requires 0 <= i < shape.count => NodeAt(shape, draws, width, i))
  }

  /** Node ids are 1, 2, ..., in list order. */
  predicate IdsInOrder(ns: seq<Node>) {
    forall i :: 0 <= i < |ns| ==> ns[i].id == i + 1
  }

  /** A node whose hit circle lies inside the canvas. */
  predicate InCanvas(n: Node, width: real) {
    NumberRadius <= n.x <= width - NumberRadius && NumberRadius <= n.y <= width - NumberRadius
  }

  /** The layout has one node per point, ids 1..count, each placed from its own point
      and draws; on a canvas of admissible size every node lies inside the canvas. */
  lemma LayoutProperties(shape: Shape, draws: seq<Draw>, width: real)
    requires WellFormed(shape) && shape.count <= |draws|
    requires forall d :: d in draws ==> IsRandomDraw(d)
    ensures |Layout(shape, draws, width)| == shape.count
    ensures IdsInOrder(Layout(shape, draws, width))
    ensures forall i :: 0 <= i < shape.count ==>
              Layout(shape, draws, width)[i].x == Scale(shape.points[i].x + Jitter(draws[i].rx), width) &&
              Layout(shape, draws, width)[i].y == Scale(shape.points[i].y + Jitter(draws[i].ry), width)
    ensures Margin * 2.0 <= width <= MaxCanvasSize ==>
              forall n :: n in Layout(shape, draws, width) ==> InCanvas(n, width)
  {
    var ns := Layout(shape, draws, width);
    if Margin * 2.0 <= width <= MaxCanvasSize {
      forall n | n in ns ensures InCanvas(n, width) {
        var i :| 0 <= i < |ns| && ns[i] == n;
        assert draws[i] in draws;
        PlaceInCanvas(shape.points[i].x, draws[i].rx, width);
        PlaceInCanvas(shape.points[i].y, draws[i].ry, width);
      }
    }
  }

  /** `generateNumbers`: picks a shape with `pick` and lays it out, pushing one node per point. */
  method GenerateNumbers(width: real, pick: real, draws: seq<Draw>) returns (numbers: seq<Node>)
    requires IsRandom(pick)
    requires |draws| >= PickedShape(pick).count
    requires forall d :: d in draws ==> IsRandomDraw(d)
    ensures numbers == Layout(PickedShape(pick), draws, width)
    ensures |numbers| == PickedShape(pick).count >= 1
    ensures IdsInOrder(numbers)
    ensures Margin * 2.0 <= width <= MaxCanvasSize ==> forall n :: n in numbers ==> InCanvas(n, width)
  {
    var shape := PickedShape(pick);
    numbers := [];
    for i := 0 to shape.count
      invariant numbers == Layout(shape, draws, width)[..i]
    {
      var point := shape.points[i];
      var randomXJitter := Jitter(draws[i].rx);
      var randomYJitter := Jitter(draws[i].ry);
      var x := Scale(point.x + randomXJitter, width);
      var y := Scale(point.y + randomYJitter, width);
      assert Layout(shape, draws, width)[i] == Node(i + 1, x, y);
      assert Layout(shape, draws, width)[..i + 1] == numbers + [Node(i + 1, x, y)];
      numbers := numbers + [Node(i + 1, x, y)];
    }
    assert Layout(shape, draws, width)[..shape.count] == Layout(shape, draws, width);
    LayoutProperties(shape, draws, width);
  }

  // ---------------------------------------------------------------------------
  // Hit tester

  /** The pointer (x, y) is strictly closer than NumberRadius to the node's centre
      (compared on squared distances, which agree with `Math.hypot(...) < NUMBER_RADIUS`). */
  predicate Touches(n: Node, x: real, y: real) {
    (n.x - x) * (n.x - x) + (n.y - y) * (n.y - y) < NumberRadius * NumberRadius
  }

  /** The first node at or after position k that the pointer touches. */
  function FirstHitFrom(ns: seq<Node>, x: real, y: real, k: nat): (r: Option<Node>)
    requires k <= |ns|
    ensures r.None? <==> forall i :: k <= i < |ns| ==> !Touches(ns[i], x, y)
    ensures r.Some? ==> exists i :: k <= i < |ns| && ns[i] == r.value && Touches(ns[i], x, y) &&
                                    forall j :: k <= j < i ==> !Touches(ns[j], x, y)
    decreases |ns| - k
  {
    if k == |ns| then None
    else if Touches(ns[k], x, y) then Some(ns[k])
    else FirstHitFrom(ns, x, y, k + 1)
  }

  /** What `checkCollision` returns: the first node in list order that the pointer touches. */
  function FirstHit(ns: seq<Node>, x: real, y: real): Option<Node> {
    FirstHitFrom(ns, x, y, 0)
  }

  /** `checkCollision`: a scan in list order that returns at the first node touched. */
  method CheckCollision(x: real, y: real, numbers: seq<Node>) returns (hit: Option<Node>)
    ensures hit == FirstHit(numbers, x, y)
    ensures hit.None? <==> forall i :: 0 <= i < |numbers| ==> !Touches(numbers[i], x, y)
    ensures hit.Some? ==> exists i :: 0 <= i < |numbers| && numbers[i] == hit.value &&
                                      Touches(numbers[i], x, y) &&
                                      forall j :: 0 <= j < i ==> !Touches(numbers[j], x, y)
  {
    var i := 0;
    while i < |numbers|
      invariant 0 <= i <= |numbers|
      invariant FirstHitFrom(numbers, x, y, i) == FirstHit(numbers, x, y)
    {
      var num := numbers[i];
      if Touches(num, x, y) {
        return Some(num);
      }
      i := i + 1;
    }
    return None;
  }

  /** A node returned by the hit test belongs to the layout, so its id is a layout id. */
  lemma FirstHitInLayout(ns: seq<Node>, x: real, y: real)
    requires IdsInOrder(ns)
    ensures FirstHit(ns, x, y).Some? ==>
              FirstHit(ns, x, y).value in ns && 1 <= FirstHit(ns, x, y).value.id <= |ns|
  {
  }

  /** A pointer exactly NumberRadius away from a node never selects that node. */
  lemma BoundaryNeverHits(ns: seq<Node>, n: Node, x: real, y: real)
    requires (n.x - x) * (n.x - x) + (n.y - y) * (n.y - y) == NumberRadius * NumberRadius
    ensures FirstHit(ns, x, y) != Some(n)
  {
    assert !Touches(n, x, y);
  }

  /** A pointer on the centre of the i-th node always hits, and what it hits comes no later than that node. */
  lemma CentreAlwaysHits(ns: seq<Node>, i: nat)
    requires i < |ns|
    ensures FirstHit(ns, ns[i].x, ns[i].y).Some?
    ensures exists j :: 0 <= j <= i && ns[j] == FirstHit(ns, ns[i].x, ns[i].y).value
  {
    assert Touches(ns[i], ns[i].x, ns[i].y);
  }

  /** The hit test is first-match, not nearest: with two overlapping circles the
      earlier node wins even when the pointer is closer to the later one. */
  lemma FirstMatchNotNearest()
    ensures FirstHit([Node(1, 100.0, 100.0), Node(2, 110.0, 100.0)], 109.0, 100.0) == Some(Node(1, 100.0, 100.0))
  {
    assert Touches(Node(1, 100.0, 100.0), 109.0, 100.0);
  }

  // ---------------------------------------------------------------------------
  // De-duplication

  /** The reference result of `removeDuplicates`: an item is kept exactly when it
      does not occur earlier in the input. */
  function Dedup<T(==)>(s: seq<T>): seq<T>
    decreases |s|
  {
    if |s| == 0 then []
    else if s[|s| - 1] in s[..|s| - 1] then Dedup(s[..|s| - 1])
    else Dedup(s[..|s| - 1]) + [s[|s| - 1]]
  }

  predicate NoDuplicates<T(==)>(s: seq<T>) {
    forall i, j :: 0 <= i < j < |s| ==> s[i] != s[j]
  }

  /** `a` is obtained from `b` by deleting elements. */
  ghost predicate IsSubsequence<T>(a: seq<T>, b: seq<T>)
    decreases |b|
  {
    |a| == 0 ||
    (|b| > 0 &&
     ((a[|a| - 1] == b[|b| - 1] && IsSubsequence(a[..|a| - 1], b[..|b| - 1])) ||
      IsSubsequence(a, b[..|b| - 1])))
  }

  /** The position of the first occurrence of x in s. */
  function IndexOf<T(==)>(s: seq<T>, x: T): (i: nat)
    requires x in s
    ensures i < |s| && s[i] == x && x !in s[..i]
    decreases |s|
  {
    if x in s[..|s| - 1] then IndexOf(s[..|s| - 1], x) else |s| - 1
  }

  /** `removeDuplicates`: a filter that records every item in `seen` and drops the ones already there. */
  method RemoveDuplicates<T(==)>(arr: seq<T>) returns (out: seq<T>)
    ensures out == Dedup(arr)
    ensures NoDuplicates(out)
    ensures forall x :: x in out <==> x in arr
  {
    var seen: set<T> := {};
    out := [];
    var i := 0;
    while i < |arr|
      invariant 0 <= i <= |arr|
      invariant forall x :: x in seen <==> x in arr[..i]
      invariant out == Dedup(arr[..i])
    {
      var item := arr[i];
      assert arr[..i + 1][..i] == arr[..i];
      if item !in seen {
        seen := seen + {item};
        out := out + [item];
      }
      i := i + 1;
    }
    assert arr[..i] == arr;
    DedupSameElements(arr);
    DedupNoDuplicates(arr);
  }

  /** De-duplication keeps exactly the input's elements. */
  lemma {:induction false} DedupSameElements<T>(s: seq<T>)
    ensures forall x :: x in Dedup(s) <==> x in s
    decreases |s|
  {
    if |s| > 0 {
      var p := s[..|s| - 1];
      DedupSameElements(p);
      assert s == p + [s[|s| - 1]];
    }
  }

  /** No value occurs twice in the output. */
  lemma {:induction false} DedupNoDuplicates<T>(s: seq<T>)
    ensures NoDuplicates(Dedup(s))
    decreases |s|
  {
    if |s| > 0 {
      var p := s[..|s| - 1];
      DedupNoDuplicates(p);
      DedupSameElements(p);
    }
  }

  /** The output is a subsequence of the input. */
  lemma {:induction false} DedupSubsequence<T>(s: seq<T>)
    ensures IsSubsequence(Dedup(s), s)
    decreases |s|
  {
    if |s| > 0 {
      var p := s[..|s| - 1];
      DedupSubsequence(p);
      var r := Dedup(s);
      if s[|s| - 1] in p {
        assert r == Dedup(p);
        assert |r| == 0 || IsSubsequence(r, s[..|s| - 1]);
      } else {
        assert r[..|r| - 1] == Dedup(p);
      }
    }
  }

  /** Output order is the order of first occurrence in the input. */
  lemma {:induction false} DedupFirstOccurrenceOrder<T>(s: seq<T>)
    ensures forall x :: x in Dedup(s) ==> x in s
    ensures forall i, j :: 0 <= i < j < |Dedup(s)| ==> IndexOf(s, Dedup(s)[i]) < IndexOf(s, Dedup(s)[j])
    decreases |s|
  {
    DedupSameElements(s);
    if |s| > 0 {
      var p := s[..|s| - 1];
      var y := s[|s| - 1];
      DedupFirstOccurrenceOrder(p);
      DedupSameElements(p);
      var r := Dedup(s);
      forall i, j | 0 <= i < j < |r| ensures IndexOf(s, r[i]) < IndexOf(s, r[j]) {
        if y in p {
          assert r == Dedup(p);
          assert IndexOf(s, r[i]) == IndexOf(p, r[i]);
          assert IndexOf(s, r[j]) == IndexOf(p, r[j]);
        } else if j < |r| - 1 {
          assert r[i] == Dedup(p)[i] && r[j] == Dedup(p)[j];
          assert IndexOf(s, r[i]) == IndexOf(p, r[i]);
          assert IndexOf(s, r[j]) == IndexOf(p, r[j]);
        } else {
          assert r[i] == Dedup(p)[i] && r[i] in p;
          assert IndexOf(s, r[i]) == IndexOf(p, r[i]);
          assert IndexOf(s, r[j]) == |s| - 1;
        }
      }
    }
  }

  /** On an input without duplicates de-duplication is the identity. */
  lemma {:induction false} DedupIdentity<T>(s: seq<T>)
    requires NoDuplicates(s)
    ensures Dedup(s) == s
    decreases |s|
  {
    if |s| > 0 {
      var p := s[..|s| - 1];
      assert NoDuplicates(p);
      assert s[|s| - 1] !in p;
      DedupIdentity(p);
      assert s == p + [s[|s| - 1]];
    }
  }

  /** De-duplicating twice is the same as de-duplicating once. */
  lemma DedupIdempotent<T>(s: seq<T>)
    ensures Dedup(Dedup(s)) == Dedup(s)
  {
    DedupNoDuplicates(s);
    DedupIdentity(Dedup(s));
  }
}
