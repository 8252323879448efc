/**
 * Slippry.c, the older of the two element libraries: an element is a
 * rounded rectangle drawn as three filled rectangles, four corner arcs made
 * by the midpoint circle algorithm, an optional straight border, and a
 * welded triangle mesh of the arc points.
 *
 * The arcs are collected in growable point buffers that drop a point equal
 * to the last one stored. Floats appear only in the builder's fractions and
 * curve, modelled as exact ratios truncated like the source's int casts.
 */
module Slippry {
  import opened Wrappers
  import opened CTypes
  import opened Sdl

  /** SL_INNERFLAG_BOOL_ACTIVE, _BORDER and _AA. */
  const BOOL_ACTIVE: bv8 := 0x1
  const BOOL_BORDER: bv8 := 0x2
  const BOOL_AA: bv8 := 0x4
  /** INIT_ARRAY_SIZE: the starting capacity of every point, vertex and index buffer. */
  const INIT_ARRAY_SIZE: int := 128
  const NUM_CURVED_EDGES: int := 4
  const NUM_OUTLINE_POINTS: int := 8

  // ------------------------------------------------------------ point buffer

  /**
   * The append rule of addAndCheckBounds: p is stored after s unless it is
   * the point stored last.
   */
  function Pushed(s: seq<Point>, p: Point): seq<Point>
  {
    if |s| > 0 && s[|s| - 1] == p then s else s + [p]
  }

  /** The points of ps offered one by one to a buffer holding s. */
  function PushAll(s: seq<Point>, ps: seq<Point>): seq<Point>
    decreases |ps|
  {
    if ps == [] then s else PushAll(Pushed(s, ps[0]), ps[1..])
  }

  /** No two neighbouring points are the same. */
  predicate NoAdjacentRepeats(s: seq<Point>)
  {
    forall i :: 0 < i < |s| ==> s[i - 1] != s[i]
  }

  /**
   * A growable point array: the points stored so far, their count, and the
   * capacity the caller tracks in `bounds`, kept above the count.
   */
  class PointBuffer {
    var points: array<Point>
    var count: int
    var bounds: int

    ghost predicate Valid()
      reads this, points
    {
      points.Length == bounds && 0 <= count < bounds
    }

    function Contents(): seq<Point>
      requires Valid()
      reads this, points
    {
      points[..count]
    }

    /** `calloc(INIT_ARRAY_SIZE, sizeof(SDL_Point))` with a zero count. */
    constructor ()
      ensures Valid() && Contents() == [] && bounds == INIT_ARRAY_SIZE && fresh(points)
    {
      points := new Point[INIT_ARRAY_SIZE](_ => Point(0, 0));
      count := 0;
      bounds := INIT_ARRAY_SIZE;
    }

    /**
     * addAndCheckBounds: a point equal to the last stored one is dropped;
     * otherwise it is stored and the count grows by one, and the capacity
     * doubles (a larger copy of the array) once the count reaches it.
     */
    method Add(p: Point)
      requires Valid()
      modifies this, points
      ensures Valid() && Contents() == Pushed(old(Contents()), p)
      ensures bounds == (if count >= old(bounds) then 2 * old(bounds) else old(bounds))
      ensures points == old(points) || fresh(points)
    {
      if count > 0 && points[count - 1] == p {
        return;
      }
      ghost var before := points[..count];
      points[count] := p;
      count := count + 1;
      assert points[..count] == before + [p];
      if count >= bounds {
        var grown := new Point[2 * bounds](_ => Point(0, 0));
        forall i | 0 <= i < points.Length {
          grown[i] := points[i];
        }
        assert grown[..count] == points[..count];
        points := grown;
        bounds := 2 * bounds;
      }
    }
  }

  // ------------------------------------------------------------ corner arcs

  /** The variables of GenerateCircle's loop. */
  datatype Midpoint = Midpoint(x: int, y: int, dx: int, dy: int, err: int)

  /** The loop's state before its first round, for the given radius. */
  function Start(radius: int): Midpoint
  {
    Midpoint(radius - 1, 0, 1, 1, 1 - radius * 2)
  }

  /**
   * One round's update: y moves up when the error is not positive, then x
   * moves in when it is. At least one of them moves, so x - y shrinks.
   */
  function Next(m: Midpoint, radius: int): (n: Midpoint)
    ensures n.x - n.y < m.x - m.y
    ensures n.y == m.y || n.y == m.y + 1
    ensures n.x == m.x || n.x == m.x - 1
  {
    var y := if m.err <= 0 then m.y + 1 else m.y;
    var err := if m.err <= 0 then m.err + m.dy else m.err;
    var dy := if m.err <= 0 then m.dy + 2 else m.dy;
    if err > 0 then Midpoint(m.x - 1, y, m.dx + 2, dy, err + m.dx + 2 - radius * 2)
    else Midpoint(m.x, y, m.dx, dy, err)
  }

  /** The eight points a round offers, mirrored about the centre c. */
  function Octants(c: Point, x: int, y: int): seq<Point>
  {
    [Point(c.x + x, c.y + y), Point(c.x + x, c.y - y), Point(c.x + y, c.y + x), Point(c.x + y, c.y - x),
     Point(c.x - x, c.y + y), Point(c.x - x, c.y - y), Point(c.x - y, c.y + x), Point(c.x - y, c.y - x)]
  }

  /** Every point offered from state m on, while x >= y. */
  function Offered(c: Point, radius: int, m: Midpoint): seq<Point>
    decreases if m.x >= m.y then m.x - m.y + 1 else 0
  {
    if m.x < m.y then [] else Octants(c, m.x, m.y) + Offered(c, radius, Next(m, radius))
  }

  /**
   * The centre of a corner's circle: the corner point moved by the radius
   * towards the inside of the element. Corners in the right column (corner % 2
   * == 1) move left and those in the bottom row (corner / 2 == 1) move up; any
   * other corner number takes the upper-left default.
   */
  function Center(radius: int, originX: int, originY: int, corner: int): (c: Point)
    ensures 0 <= corner < NUM_CURVED_EDGES ==>
      c.x - originX == (if corner % 2 == 1 then -radius else radius) &&
      c.y - originY == (if corner / 2 == 1 then -radius else radius)
    ensures !(0 <= corner < NUM_CURVED_EDGES) ==> c == Point(originX + radius, originY + radius)
  {
    var xOffset := if corner == 1 || corner == 3 then -radius else radius;
    var yOffset := if corner == 2 || corner == 3 then -radius else radius;
    Point(originX + xOffset, originY + yOffset)
  }

  /** The points GenerateCircle leaves in a fresh buffer. */
  function Arc(radius: int, originX: int, originY: int, corner: int): seq<Point>
  {
    PushAll([], Offered(Center(radius, originX, originY, corner), radius, Start(radius)))
  }

  /**
   * GenerateCircle: the midpoint circle loop around the shifted centre,
   * offering its eight mirrored points each round to addAndCheckBounds. The
   * buffer is the fresh INIT_ARRAY_SIZE one its caller allocates, which is
   * the capacity the loop's own bound starts from.
   */
  method GenerateCircle(buf: PointBuffer, radius: int, originX: int, originY: int, corner: int)
    requires buf.Valid() && buf.count == 0 && buf.bounds == INIT_ARRAY_SIZE
    modifies buf, buf.points
    ensures buf.Valid() && buf.Contents() == Arc(radius, originX, originY, corner)
  {
    var x := radius - 1;
    var y := 0;
    var dx := 1;
    var dy := 1;
    var err := dx - radius * 2;
    var xOffset, yOffset := radius, radius;
    if corner == 1 {
      xOffset := -xOffset;
    } else if corner == 2 {
      yOffset := -yOffset;
    } else if corner == 3 {
      xOffset := -xOffset;
      yOffset := -yOffset;
    }
    var cx := originX + xOffset;
    var cy := originY + yOffset;
    ghost var c := Point(cx, cy);
    assert c == Center(radius, originX, originY, corner);
    assert buf.Contents() == [];
    assert Midpoint(x, y, dx, dy, err) == Start(radius);
    while x >= y
      invariant buf.Valid()
      invariant buf.points == old(buf.points) || fresh(buf.points)
      invariant PushAll(buf.Contents(), Offered(c, radius, Midpoint(x, y, dx, dy, err))) == Arc(radius, originX, originY, corner)
      decreases x - y
    {
      ghost var m := Midpoint(x, y, dx, dy, err);
      ghost var s := buf.Contents();
      AddRound(buf, cx, cy, x, y);
      PushAllAppend(s, Octants(c, x, y), Offered(c, radius, Next(m, radius)));
      if err <= 0 {
        y := y + 1;
        err := err + dy;
        dy := dy + 2;
      }
      if err > 0 {
        x := x - 1;
        dx := dx + 2;
        err := err + dx - radius * 2;
      }
      assert Midpoint(x, y, dx, dy, err) == Next(m, radius);
    }
  }

  /** The eight addAndCheckBounds calls of one round of GenerateCircle. */
  method AddRound(buf: PointBuffer, cx: int, cy: int, x: int, y: int)
    requires buf.Valid()
    modifies buf, buf.points
    ensures buf.Valid() && buf.Contents() == PushAll(old(buf.Contents()), Octants(Point(cx, cy), x, y))
    ensures buf.points == old(buf.points) || fresh(buf.points)
  {
    ghost var o := Octants(Point(cx, cy), x, y);
    ghost var s := buf.Contents();
    AddFour(buf, Point(cx + x, cy + y), Point(cx + x, cy - y), Point(cx + y, cy + x), Point(cx + y, cy - x));
    AddFour(buf, Point(cx - x, cy + y), Point(cx - x, cy - y), Point(cx - y, cy + x), Point(cx - y, cy - x));
    assert o[..4] == [Point(cx + x, cy + y), Point(cx + x, cy - y), Point(cx + y, cy + x), Point(cx + y, cy - x)];
    assert o[4..] == [Point(cx - x, cy + y), Point(cx - x, cy - y), Point(cx - y, cy + x), Point(cx - y, cy - x)];
    assert o == o[..4] + o[4..];
    PushAllAppend(s, o[..4], o[4..]);
  }

  /** Four addAndCheckBounds calls in a row. */
  method AddFour(buf: PointBuffer, a: Point, b: Point, c: Point, d: Point)
    requires buf.Valid()
    modifies buf, buf.points
    ensures buf.Valid() && buf.Contents() == PushAll(old(buf.Contents()), [a, b, c, d])
    ensures buf.points == old(buf.points) || fresh(buf.points)
  {
    ghost var o := [a, b, c, d];
    ghost var target := PushAll(buf.Contents(), o);
    assert o[0..] == o;
    PushStep(buf.Contents(), o, 0);
    buf.Add(a);
    assert PushAll(buf.Contents(), o[1..]) == target;
    PushStep(buf.Contents(), o, 1);
    buf.Add(b);
    assert PushAll(buf.Contents(), o[2..]) == target;
    PushStep(buf.Contents(), o, 2);
    buf.Add(c);
    assert PushAll(buf.Contents(), o[3..]) == target;
    PushStep(buf.Contents(), o, 3);
    buf.Add(d);
    assert o[4..] == [];
  }

  /** Offering ps from position k: its point k, then the rest. */
  lemma PushStep(s: seq<Point>, ps: seq<Point>, k: int)
    requires 0 <= k < |ps|
    ensures PushAll(s, ps[k..]) == PushAll(Pushed(s, ps[k]), ps[k + 1..])
  {
    assert ps[k..][0] == ps[k] && ps[k..][1..] == ps[k + 1..];
  }

  /** Offering a + b is offering a, then b. */
  lemma {:induction false} PushAllAppend(s: seq<Point>, a: seq<Point>, b: seq<Point>)
    ensures PushAll(s, a + b) == PushAll(PushAll(s, a), b)
    decreases |a|
  {
    if a != [] {
      assert (a + b)[0] == a[0] && (a + b)[1..] == a[1..] + b;
      PushAllAppend(Pushed(s, a[0]), a[1..], b);
    } else {
      assert a + b == b;
    }
  }

  // --------------------------------------------------- rects and outline

  /** The three filled rectangles: the centre and the two side strips. */
  datatype Sides = Sides(center: Rect, left: Rect, right: Rect)

  /**
   * The rectangles SL_CreateElement derives from the element's rectangle r
   * and corner radius: the side strips run between the corner arcs, one
   * pixel inside r's left and right edges; the centre spans from one
   * radius in to two pixels short of the other radius, one pixel inside r's
   * top and bottom edges.
   */
  function SidesOf(r: Rect, radius: int): (s: Sides)
    ensures s.left.x == r.x + 1 && s.left.w == radius
    ensures s.right.x + s.right.w == r.x + r.w - 1 && s.right.w == radius - 2
    ensures s.left.y == s.right.y == r.y + radius && s.left.h == s.right.h == r.h - 2 * radius
    ensures s.center.x == r.x + radius && s.center.x + s.center.w == r.x + r.w - radius + 2
    ensures s.center.y == r.y + 1 && s.center.y + s.center.h == r.y + r.h - 1
  {
    var left := Rect(r.x + 1, r.y + radius, radius, r.h - radius * 2);
    var right := left.(x := left.x + r.w - radius, w := left.w - 2);
    var center := Rect(r.x + radius, r.y + 1, r.w - (radius * 2 - 2), r.h - 2);
    Sides(center, left, right)
  }

  /**
   * outline_straight, p1 to p8: the centre's top corners, its bottom
   * corners, the left strip's top and bottom left corners and the right
   * strip's top and bottom right corners.
   */
  function OutlineOf(s: Sides): (o: seq<Point>)
    ensures |o| == NUM_OUTLINE_POINTS
  {
    [Point(s.center.x, s.center.y), Point(s.center.x + s.center.w, s.center.y),
     Point(s.center.x, s.center.y + s.center.h), Point(s.center.x + s.center.w, s.center.y + s.center.h),
     Point(s.left.x, s.left.y), Point(s.left.x, s.left.y + s.left.h),
     Point(s.right.x + s.right.w, s.right.y), Point(s.right.x + s.right.w, s.right.y + s.right.h)]
  }

  // ------------------------------------------------------- curve filtering

  /**
   * The per-corner test of both outline passes: the arc point lies beyond
   * the straight parts, left of the centre for the left corners and right
   * of the right strip's start for the right ones, above the side strips
   * for the upper corners and below them for the lower ones.
   */
  predicate OnOutline(corner: int, p: Point, s: Sides)
  {
    if corner == 0 then p.x <= s.center.x && p.y <= s.left.y
    else if corner == 2 then p.x <= s.center.x && p.y >= s.left.y + s.left.h
    else if corner == 1 then p.x >= s.right.x && p.y <= s.right.y
    else p.x >= s.right.x && p.y >= s.right.y + s.right.h
  }

  /** The points of ps that pass corner's test, in order. */
  function Kept(ps: seq<Point>, corner: int, s: Sides): (k: seq<Point>)
    ensures |k| <= |ps|
  {
    if ps == [] then []
    else Kept(ps[..|ps| - 1], corner, s) + (if OnOutline(corner, ps[|ps| - 1], s) then [ps[|ps| - 1]] else [])
  }

  /** outline_curves: the kept points of corners 0, 2, 1 and 3, in that order. */
  function OutlineCurves(edges: seq<seq<Point>>, s: Sides): seq<Point>
    requires |edges| == NUM_CURVED_EDGES
  {
    Kept(edges[0], 0, s) + Kept(edges[2], 2, s) + Kept(edges[1], 1, s) + Kept(edges[3], 3, s)
  }

  /** One counting loop: outline_curve_count grows by the points of ps that pass. */
  method CountKept(ps: seq<Point>, corner: int, s: Sides, count: int) returns (count': int)
    ensures count' == count + |Kept(ps, corner, s)|
  {
    count' := count;
    for i := 0 to |ps|
      invariant count' == count + |Kept(ps[..i], corner, s)|
    {
      assert ps[..i + 1][..i] == ps[..i];
      if OnOutline(corner, ps[i], s) {
        count' := count' + 1;
      }
    }
    assert ps[..|ps|] == ps;
  }

  /** One copying loop: the points of ps that pass are written from position next on. */
  method CopyKept(ps: seq<Point>, corner: int, s: Sides, curves: array<Point>, next: int) returns (next': int)
    requires 0 <= next && next + |Kept(ps, corner, s)| <= curves.Length
    modifies curves
    ensures next' == next + |Kept(ps, corner, s)|
    ensures curves[..next] == old(curves[..next]) && curves[next..next'] == Kept(ps, corner, s)
  {
    next' := next;
    for i := 0 to |ps|
      invariant next' == next + |Kept(ps[..i], corner, s)|
      invariant next' <= curves.Length
      invariant curves[..next] == old(curves[..next]) && curves[next..next'] == Kept(ps[..i], corner, s)
    {
      assert ps[..i + 1][..i] == ps[..i];
      KeptGrows(ps, i + 1, corner, s);
      if OnOutline(corner, ps[i], s) {
        curves[next'] := ps[i];
        next' := next' + 1;
      }
    }
    assert ps[..|ps|] == ps;
  }

  /** A longer prefix keeps at least as many points. */
  lemma {:induction false} KeptGrows(ps: seq<Point>, i: int, corner: int, s: Sides)
    requires 0 <= i <= |ps|
    ensures |Kept(ps[..i], corner, s)| <= |Kept(ps, corner, s)|
    decreases |ps| - i
  {
    if i < |ps| {
      assert ps[..i + 1][..i] == ps[..i];
      KeptGrows(ps, i + 1, corner, s);
    } else {
      assert ps[..i] == ps;
    }
  }

  /**
   * The two outline passes of SL_CreateElement: count the arc points that
   * pass their corner's test, allocate that many, and copy them with the
   * same tests in the same corner order, so the copy fills the array
   * exactly.
   */
  method FilterCurves(edges: seq<seq<Point>>, s: Sides) returns (curves: array<Point>)
    requires |edges| == NUM_CURVED_EDGES
    ensures fresh(curves) && curves[..] == OutlineCurves(edges, s)
  {
    var count := 0;
    count := CountKept(edges[0], 0, s, count);
    count := CountKept(edges[2], 2, s, count);
    count := CountKept(edges[1], 1, s, count);
    count := CountKept(edges[3], 3, s, count);
    curves := new Point[count](_ => Point(0, 0));
    var next := 0;
    next := CopyKept(edges[0], 0, s, curves, next);
    ghost var a := curves[..next];
    next := CopyKept(edges[2], 2, s, curves, next);
    PrefixGrows(curves[..], |a|, next, a, Kept(edges[2], 2, s));
    ghost var b := curves[..next];
    next := CopyKept(edges[1], 1, s, curves, next);
    PrefixGrows(curves[..], |b|, next, b, Kept(edges[1], 1, s));
    ghost var c := curves[..next];
    next := CopyKept(edges[3], 3, s, curves, next);
    PrefixGrows(curves[..], |c|, next, c, Kept(edges[3], 3, s));
    assert curves[..] == curves[..next];
  }

  /** A prefix followed by the slice after it is the longer prefix. */
  lemma PrefixGrows<T>(x: seq<T>, n: int, m: int, pre: seq<T>, mid: seq<T>)
    requires 0 <= n <= m <= |x| && x[..n] == pre && x[n..m] == mid
    ensures x[..m] == pre + mid
  {
    assert x[..m] == x[..n] + x[n..m];
  }

  // ------------------------------------------------------------- welding

  /**
   * The offset of quad corner k (0 to 5) as convertPointArrayToVertices
   * computes it: dx = (k % 3) / 2, dy = dx, then k % 2 is added to dy for
   * the first three corners and to dx for the last three.
   */
  function CornerOffset(k: int): (o: Point)
    requires 0 <= k < 6
    ensures k == 0 ==> o == Point(0, 0)
    ensures k == 1 ==> o == Point(0, 1)
    ensures k == 2 ==> o == Point(1, 1)
    ensures k == 3 ==> o == Point(1, 0)
    ensures k == 4 ==> o == Point(0, 0)
    ensures k == 5 ==> o == Point(2, 1)
  {
    var d := (k % 3) / 2;
    if k <= 2 then Point(d, d + k % 2) else Point(d + k % 2, d)
  }

  /** The position searched for corner k of the quad at p. */
  function Probe(p: Point, k: int): Point
    requires 0 <= k < 6
  {
    Point(p.x + CornerOffset(k).x, p.y + CornerOffset(k).y)
  }

  /** The first index of q in vs, if q occurs. */
  function FirstAt(vs: seq<Point>, q: Point): (r: Option<int>)
    ensures r.Some? ==> 0 <= r.value < |vs| && vs[r.value] == q && forall i :: 0 <= i < r.value ==> vs[i] != q
    ensures r.None? ==> q !in vs
  {
    if vs == [] then None
    else if vs[0] == q then Some(0)
    else match FirstAt(vs[1..], q)
      case None => None
      case Some(j) => Some(j + 1)
  }

  /**
   * Where a vertex that was not found is stored: AtPoint is the code as
   * written (the quad's unshifted point), AtProbe the position that was
   * searched for.
   */
  datatype StoreMode = AtPoint | AtProbe

  /** The vertex and index arrays. */
  datatype Weld = Weld(vertices: seq<Point>, indices: seq<int>)

  /**
   * One step: the vertices are searched for q; the first match is recorded,
   * or a new vertex is appended (at p for AtPoint, at q for AtProbe) and its
   * index recorded.
   */
  function WeldStep(w: Weld, q: Point, p: Point, mode: StoreMode): Weld
  {
    match FirstAt(w.vertices, q)
    case Some(j) => Weld(w.vertices, w.indices + [j])
    case None => Weld(w.vertices + [if mode == AtPoint then p else q], w.indices + [|w.vertices|])
  }

  /** The arrays after the first k corners of the quad at p. */
  function WeldCorners(w: Weld, p: Point, k: int, mode: StoreMode): (w': Weld)
    requires 0 <= k <= 6
    ensures |w'.indices| == |w.indices| + k && |w.vertices| <= |w'.vertices| <= |w.vertices| + k
    decreases k
  {
    if k == 0 then w else WeldStep(WeldCorners(w, p, k - 1, mode), Probe(p, k - 1), p, mode)
  }

  /**
   * The arrays after all six corners of every point of ps: six indices per
   * point, and never more vertices than indices.
   */
  function Welded(ps: seq<Point>, mode: StoreMode): (w: Weld)
    ensures |w.indices| == 6 * |ps| && |w.vertices| <= |w.indices|
    decreases |ps|
  {
    if ps == [] then Weld([], [])
    else WeldCorners(Welded(ps[..|ps| - 1], mode), ps[|ps| - 1], 6, mode)
  }

  /**
   * convertPointArrayToVertices: six corners per point, each searched for
   * among the vertices stored so far and recorded.
   */
  method ConvertPointArrayToVertices(points: seq<Point>, mode: StoreMode) returns (vertices: seq<Point>, indices: seq<int>)
    ensures Weld(vertices, indices) == Welded(points, mode)
  {
    vertices, indices := [], [];
    for i := 0 to |points|
      invariant Weld(vertices, indices) == Welded(points[..i], mode)
    {
      assert points[..i + 1][..i] == points[..i];
      vertices, indices := WeldPoint(points[i], mode, vertices, indices);
    }
    assert points[..|points|] == points;
  }

  /** One pass of the outer loop: the six corners of the quad at p. */
  method WeldPoint(p: Point, mode: StoreMode, vertices: seq<Point>, indices: seq<int>)
    returns (vertices': seq<Point>, indices': seq<int>)
    ensures Weld(vertices', indices') == WeldCorners(Weld(vertices, indices), p, 6, mode)
  {
    vertices', indices' := vertices, indices;
    for k := 0 to 6
      invariant Weld(vertices', indices') == WeldCorners(Weld(vertices, indices), p, k, mode)
    {
      var q := Probe(p, k);
      var found := Search(vertices', q);
      if found >= 0 {
        indices' := indices' + [found];
      } else {
        var v := if mode == AtPoint then p else q;
        indices' := indices' + [|vertices'|];
        vertices' := vertices' + [v];
      }
    }
  }

  /** The search loop: the first vertex equal to q, or -1. */
  method Search(vertices: seq<Point>, q: Point) returns (found: int)
    ensures found >= 0 ==> FirstAt(vertices, q) == Some(found)
    ensures found < 0 ==> found == -1 && FirstAt(vertices, q).None?
  {
    found := -1;
    var j := 0;
    while j < |vertices|
      invariant 0 <= j <= |vertices|
      invariant found == -1 && forall t :: 0 <= t < j ==> vertices[t] != q
    {
      if vertices[j] == q {
        found := j;
        break;
      }
      j := j + 1;
    }
  }

  // --------------------------------------------------------------- flags

  /** bool_flags from the builder's three int switches: any nonzero value sets its bit. */
  function BoolFlags(isActive: int, border: int, antiAlias: int): (f: bv8)
    ensures (f & BOOL_ACTIVE != 0) == (isActive != 0)
    ensures (f & BOOL_BORDER != 0) == (border != 0)
    ensures (f & BOOL_AA != 0) == (antiAlias != 0)
    ensures f & 0xF8 == 0
  {
    (if isActive != 0 then BOOL_ACTIVE else 0) | (if border != 0 then BOOL_BORDER else 0) |
    (if antiAlias != 0 then BOOL_AA else 0)
  }

  // ------------------------------------------------------------- element

  /** SDL_Color. */
  datatype Color = Color(r: Byte, g: Byte, b: Byte, a: Byte)

  /**
   * SL_UIElementBuilder: the fractions of the screen the element covers and
   * its curve (the corner radius as a fraction of the screen width), exact
   * ratios standing for the source's floats, and the switches and values
   * copied into the element.
   */
  datatype Builder = Builder(name: CString, x: Ratio, y: Ratio, w: Ratio, h: Ratio, curve: Ratio,
                             isActive: int, border: int, drawLayer: int, antiAlias: int, color: Color)

  /** Every ratio of the builder has a positive denominator. */
  predicate RatiosWellFormed(b: Builder)
  {
    b.x.den > 0 && b.y.den > 0 && b.w.den > 0 && b.h.den > 0 && b.curve.den > 0
  }

  /** The corner the arc of corner i is drawn from: r's corners in reading order. */
  function CornerOrigin(r: Rect, i: int): (o: Point)
    requires 0 <= i < NUM_CURVED_EDGES
    ensures i == 0 ==> o == Point(r.x, r.y)
    ensures i == 1 ==> o == Point(r.x + r.w, r.y)
    ensures i == 2 ==> o == Point(r.x, r.y + r.h)
    ensures i == 3 ==> o == Point(r.x + r.w, r.y + r.h)
  {
    Point(r.x + (i % 2) * r.w, r.y + (i / 2) * r.h)
  }

  /** The four curved edges: the arc of each corner of r. */
  function Edges(r: Rect, radius: int): (edges: seq<seq<Point>>)
    ensures |edges| == NUM_CURVED_EDGES
  {
    seq(NUM_CURVED_EDGES, i requires 0 <= i < NUM_CURVED_EDGES => Arc(radius, CornerOrigin(r, i).x, CornerOrigin(r, i).y, i))
  }

  /** The state of an SL_UIElement. */
  datatype ElementView = ElementView(
    name: CString, color: Color, rawRect: Rect, drawLayer: int, flags: bv8,
    rects: seq<Rect>, edges: seq<seq<Point>>, outlineStraight: seq<Point>, outlineCurves: seq<Point>,
    vertices: seq<Point>, indices: seq<int>)

  /** The element's rectangle: each builder fraction times the screen size, truncated. */
  function RawRect(b: Builder, width: int, height: int): Rect
    requires RatiosWellFormed(b)
  {
    Rect(Scaled(width, b.x), Scaled(height, b.y), Scaled(width, b.w), Scaled(height, b.h))
  }

  /** The corner radius: the curve times the screen width, truncated. */
  function Radius(b: Builder, width: int): int
    requires RatiosWellFormed(b)
  {
    Scaled(width, b.curve)
  }

  /**
   * The element SL_CreateElement builds from b on a width x height screen.
   * The test mesh welds the points of all four curved edges as the code
   * does: a vertex that was not found is stored at the arc point itself.
   */
  function ElementOf(b: Builder, width: int, height: int): (v: ElementView)
    requires RatiosWellFormed(b)
    ensures |v.edges| == NUM_CURVED_EDGES && |v.outlineStraight| == NUM_OUTLINE_POINTS
  {
    var r := RawRect(b, width, height);
    var radius := Radius(b, width);
    var edges := Edges(r, radius);
    var sides := SidesOf(r, radius);
    var w := Welded(edges[0] + edges[1] + edges[2] + edges[3], AtPoint);
    ElementView(b.name, b.color, r, b.drawLayer, BoolFlags(b.isActive, b.border, b.antiAlias),
                [sides.center, sides.left, sides.right], edges, OutlineOf(sides),
                OutlineCurves(edges, sides), w.vertices, w.indices)
  }

  /** SL_UIElement. */
  class Element {
    var name: CString
    var color: Color
    var rawRect: Rect
    var drawLayer: int
    var boolFlags: bv8
    var rects: seq<Rect>
    var curvedEdges: seq<seq<Point>>
    var outlineStraight: seq<Point>
    var outlineCurves: array<Point>
    var testVertices: seq<Point>
    var testIndices: seq<int>

    function View(): ElementView
      reads this, outlineCurves
    {
      ElementView(name, color, rawRect, drawLayer, boolFlags, rects, curvedEdges, outlineStraight,
                  outlineCurves[..], testVertices, testIndices)
    }

    /**
     * The element's fields copied from the builder: name, rectangle, draw
     * layer, colour and flags; the geometry is still empty.
     */
    constructor (b: Builder, width: int, height: int)
      requires RatiosWellFormed(b)
      ensures View() == ElementOf(b, width, height).(rects := [], edges := [], outlineStraight := [],
                                                    outlineCurves := [], vertices := [], indices := [])
    {
      name := b.name;
      rawRect := RawRect(b, width, height);
      drawLayer := b.drawLayer;
      color := b.color;
      var flags: bv8 := 0;
      if b.isActive != 0 {
        flags := flags | BOOL_ACTIVE;
      }
      if b.border != 0 {
        flags := flags | BOOL_BORDER;
      }
      if b.antiAlias != 0 {
        flags := flags | BOOL_AA;
      }
      boolFlags := flags;
      rects, curvedEdges, outlineStraight := [], [], [];
      outlineCurves := new Point[0];
      testVertices, testIndices := [], [];
    }
  }

  /**
   * The corner loop of SL_CreateElement: a fresh buffer per corner, filled
   * by GenerateCircle from that corner of r.
   */
  method GenerateEdges(r: Rect, radius: int) returns (edges: seq<seq<Point>>)
    ensures edges == Edges(r, radius)
  {
    edges := [];
    for i := 0 to NUM_CURVED_EDGES
      invariant edges == Edges(r, radius)[..i]
    {
      var originX := r.x + (i % 2) * r.w;
      var originY := r.y + (i / 2) * r.h;
      assert Point(originX, originY) == CornerOrigin(r, i);
      var buf := new PointBuffer();
      GenerateCircle(buf, radius, originX, originY, i);
      edges := edges + [buf.Contents()];
    }
  }

  /**
   * SL_CreateElement: the builder's fields, then the corner arcs, the three
   * rectangles, the straight outline, the outline curves and the welded test
   * mesh of the arc points.
   */
  method CreateElement(b: Builder, width: int, height: int) returns (e: Element)
    requires RatiosWellFormed(b)
    ensures fresh(e) && e.View() == ElementOf(b, width, height)
  {
    e := new Element(b, width, height);
    var radius := Radius(b, width);
    var r := e.rawRect;
    var edges := GenerateEdges(r, radius);
    var sides := SidesOf(r, radius);
    var curves := FilterCurves(edges, sides);
    var ps := edges[0] + edges[1] + edges[2] + edges[3];
    var vertices, indices := ConvertPointArrayToVertices(ps, AtPoint);
    e.curvedEdges := edges;
    e.rects := [sides.center, sides.left, sides.right];
    e.outlineStraight := OutlineOf(sides);
    e.outlineCurves := curves;
    e.testVertices, e.testIndices := vertices, indices;
  }

  /** SL_ElementIsActive: 1 when the ACTIVE bit is set, else 0. */
  function ElementIsActive(e: Element): (r: int)
    reads e
    ensures r == 0 || r == 1
    ensures r == 1 <==> e.boolFlags & BOOL_ACTIVE != 0
  {
    if e.boolFlags & BOOL_ACTIVE != 0 then 1 else 0
  }

  /** SL_ActivateElement: sets the ACTIVE bit and no other. */
  method ActivateElement(e: Element)
    modifies e
    ensures e.View() == old(e.View()).(flags := old(e.boolFlags) | BOOL_ACTIVE)
    ensures ElementIsActive(e) == 1
    ensures e.boolFlags & !BOOL_ACTIVE == old(e.boolFlags) & !BOOL_ACTIVE
  {
    e.boolFlags := e.boolFlags | BOOL_ACTIVE;
  }

  /** SL_DeactivateElement: clears the ACTIVE bit and no other. */
  method DeactivateElement(e: Element)
    modifies e
    ensures e.View() == old(e.View()).(flags := old(e.boolFlags) & !BOOL_ACTIVE)
    ensures ElementIsActive(e) == 0
    ensures e.boolFlags & !BOOL_ACTIVE == old(e.boolFlags) & !BOOL_ACTIVE
  {
    e.boolFlags := e.boolFlags & !BOOL_ACTIVE;
  }

  // ---------------------------------------------------------------- draw

  /** The renderer calls of SL_DrawElement. */
  datatype Draw =
    | SetColor(color: Color)
    | FillRects(rects: seq<Rect>)
    | DrawLines(points: seq<Point>)
    | DrawLine(from: Point, to: Point)

  const WHITE: Color := Color(0xFF, 0xFF, 0xFF, 0xFF)
  const BLACK: Color := Color(0, 0, 0, 0xFF)
  const BLUE: Color := Color(0, 0, 0xFF, 0xFF)

  /** The border pass: a line between outline points i and i + 1 for i = 0, 2, 4, 6. */
  function BorderLines(o: seq<Point>): seq<Draw>
    requires |o| == NUM_OUTLINE_POINTS
  {
    [DrawLine(o[0], o[1]), DrawLine(o[2], o[3]), DrawLine(o[4], o[5]), DrawLine(o[6], o[7])]
  }

  /**
   * SL_DrawElement: white, the three rectangles filled, each curved edge as
   * a polyline; with the BORDER bit, black and the border lines; then blue.
   */
  function DrawCallsOf(v: ElementView): seq<Draw>
    requires |v.edges| == NUM_CURVED_EDGES && |v.outlineStraight| == NUM_OUTLINE_POINTS
  {
    [SetColor(WHITE), FillRects(v.rects)] + [DrawLines(v.edges[0]), DrawLines(v.edges[1]), DrawLines(v.edges[2]), DrawLines(v.edges[3])] +
    (if v.flags & BOOL_BORDER != 0 then [SetColor(BLACK)] + BorderLines(v.outlineStraight) else []) +
    [SetColor(BLUE)]
  }

  /** SL_DrawElement with the renderer calls as its result. */
  method DrawElement(e: Element) returns (calls: seq<Draw>)
    requires |e.curvedEdges| == NUM_CURVED_EDGES && |e.outlineStraight| == NUM_OUTLINE_POINTS
    ensures calls == DrawCallsOf(e.View())
  {
    calls := [SetColor(WHITE), FillRects(e.rects)];
    var edges := e.curvedEdges;
    for i := 0 to NUM_CURVED_EDGES
      invariant |calls| == 2 + i && calls[..2] == [SetColor(WHITE), FillRects(e.rects)]
      invariant forall j :: 0 <= j < i ==> calls[2 + j] == DrawLines(edges[j])
    {
      calls := calls + [DrawLines(edges[i])];
    }
    assert calls == [SetColor(WHITE), FillRects(e.rects)] + [DrawLines(edges[0]), DrawLines(edges[1]), DrawLines(edges[2]), DrawLines(edges[3])];
    if e.boolFlags & BOOL_BORDER != 0 {
      calls := calls + [SetColor(BLACK)];
      ghost var before := calls;
      var i := 0;
      while i < NUM_OUTLINE_POINTS - 1
        invariant 0 <= i <= NUM_OUTLINE_POINTS && i % 2 == 0
        invariant calls == before + BorderLines(e.outlineStraight)[..i / 2]
      {
        calls := calls + [DrawLine(e.outlineStraight[i], e.outlineStraight[i + 1])];
        i := i + 2;
      }
    }
    calls := calls + [SetColor(BLUE)];
  }
}
