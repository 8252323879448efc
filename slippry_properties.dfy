/**
 * Properties of the Slippry geometry: the point buffer keeps no two equal
 * neighbours and loses no point, every corner arc hugs its circle inside
 * the corner square, the outline passes keep exactly the points their tests
 * accept, and the border is the four straight sides of the element. The
 * welded mesh with the corrected store puts every quad corner where it was
 * searched for; as written, and so in every created element, each vertex is
 * an arc point and a quad's corners collapse onto it.
 */
module SlippryProperties {
  import opened Wrappers
  import opened CTypes
  import opened Sdl
  import opened Slippry

  // ------------------------------------------------------------ point buffer

  /**
   * addAndCheckBounds keeps what was stored, ends with the offered point,
   * and leaves the count unchanged exactly when that point was the last one.
   */
  lemma PushedKeeps(s: seq<Point>, p: Point)
    ensures var t := Pushed(s, p);
      |s| <= |t| <= |s| + 1 && t[..|s|] == s && t[|t| - 1] == p &&
      (|t| == |s| <==> |s| > 0 && s[|s| - 1] == p)
  {
  }

  /** A buffer without equal neighbours keeps none after any run of adds. */
  lemma {:induction false} PushAllNoRepeats(s: seq<Point>, ps: seq<Point>)
    requires NoAdjacentRepeats(s)
    ensures NoAdjacentRepeats(PushAll(s, ps))
    decreases |ps|
  {
    if ps != [] {
      var t := Pushed(s, ps[0]);
      assert NoAdjacentRepeats(t) by {
        if t != s {
          forall i | 0 < i < |t|
            ensures t[i - 1] != t[i]
          {
            if i < |s| {
              assert t[i - 1] == s[i - 1] && t[i] == s[i];
            }
          }
        }
      }
      PushAllNoRepeats(t, ps[1..]);
    }
  }

  /** Dropping repeats loses no point: the buffer holds exactly what it held and what it was offered. */
  lemma {:induction false} PushAllMembers(s: seq<Point>, ps: seq<Point>)
    ensures forall p :: p in PushAll(s, ps) <==> p in s || p in ps
    decreases |ps|
  {
    if ps != [] {
      var t := Pushed(s, ps[0]);
      assert forall p :: p in t <==> p in s || p == ps[0];
      PushAllMembers(t, ps[1..]);
      assert ps == [ps[0]] + ps[1..];
    }
  }

  /** A corner arc never holds the same point twice in a row. */
  lemma ArcNoRepeats(radius: int, originX: int, originY: int, corner: int)
    ensures NoAdjacentRepeats(Arc(radius, originX, originY, corner))
  {
    PushAllNoRepeats([], Offered(Center(radius, originX, originY, corner), radius, Start(radius)));
  }

  // ------------------------------------------------------------ corner arcs

  /**
   * The midpoint loop's bookkeeping: err is x*x + y*y - r*r, dx and dy are
   * the next odd steps, and while x >= y the point (x, y) is within one
   * step of the circle.
   */
  predicate Tracks(m: Midpoint, r: int)
  {
    m.err == m.x * m.x + m.y * m.y - r * r && m.dx == 2 * (r - 1 - m.x) + 1 && m.dy == 2 * m.y + 1 &&
    0 <= m.y && m.x <= r - 1 && -2 * m.x - 1 <= m.err && (m.x >= m.y ==> m.err <= 2 * m.y - 1)
  }

  /** The loop starts tracking, whatever the radius. */
  lemma StartTracks(r: int)
    ensures Tracks(Start(r), r)
  {
    assert (r - 1) * (r - 1) == r * r - 2 * r + 1;
  }

  /** Each round of the loop keeps tracking. */
  lemma NextTracks(m: Midpoint, r: int)
    requires Tracks(m, r) && m.x >= m.y
    ensures Tracks(Next(m, r), r)
  {
    var y := if m.err <= 0 then m.y + 1 else m.y;
    var err := if m.err <= 0 then m.err + m.dy else m.err;
    var dy := if m.err <= 0 then m.dy + 2 else m.dy;
    StepUp(m, r);
    if err > 0 {
      StepIn(m.x, y, m.dx, dy, err, r);
    }
  }

  /** The y half of a round: the error moves by (y + 1)^2 - y^2 and stays in its bounds. */
  lemma StepUp(m: Midpoint, r: int)
    requires Tracks(m, r) && m.x >= m.y
    ensures var y := if m.err <= 0 then m.y + 1 else m.y;
      var err := if m.err <= 0 then m.err + m.dy else m.err;
      var dy := if m.err <= 0 then m.dy + 2 else m.dy;
      err == m.x * m.x + y * y - r * r && dy == 2 * y + 1 && 0 <= y && -2 * m.x - 1 <= err <= 2 * y - 1 &&
      (err > 0 ==> m.x >= 1)
  {
    assert (m.y + 1) * (m.y + 1) == m.y * m.y + 2 * m.y + 1;
  }

  /** The x half of a round, taken when the error is positive. */
  lemma StepIn(x: int, y: int, dx: int, dy: int, err: int, r: int)
    requires err == x * x + y * y - r * r && dx == 2 * (r - 1 - x) + 1 && dy == 2 * y + 1
    requires 0 <= y && 1 <= x <= r - 1 && 0 < err <= 2 * y - 1
    ensures var m' := Midpoint(x - 1, y, dx + 2, dy, err + dx + 2 - r * 2);
      Tracks(m', r)
  {
    assert (x - 1) * (x - 1) == x * x - 2 * x + 1;
  }

  /**
   * A point at distance u, v from the centre c of a radius-r circle lies
   * within one pixel of the circle (its squared distance between (r - 1)^2
   * and (r + 1)^2) and inside the square of side 2r - 1 around c.
   */
  predicate NearCircle(p: Point, c: Point, r: int)
  {
    var u := p.x - c.x;
    var v := p.y - c.y;
    (r - 1) * (r - 1) <= u * u + v * v < (r + 1) * (r + 1) &&
    -(r - 1) <= u <= r - 1 && -(r - 1) <= v <= r - 1
  }

  /** A point at offset (u, v) from c with u*u + v*v between the bounds is near the circle. */
  lemma NearAt(c: Point, r: int, u: int, v: int, x: int, y: int)
    requires 0 <= y <= x <= r - 1
    requires (u == x || u == -x || u == y || u == -y) && (v == x || v == -x || v == y || v == -y)
    requires u * u + v * v == x * x + y * y
    requires (r - 1) * (r - 1) <= x * x + y * y < (r + 1) * (r + 1)
    ensures NearCircle(Point(c.x + u, c.y + v), c, r)
  {
  }

  /** The eight points of a round at (x, y) are near the circle when (x, y) is. */
  lemma OctantsNear(c: Point, r: int, x: int, y: int)
    requires 0 <= y <= x <= r - 1
    requires (r - 1) * (r - 1) <= x * x + y * y < (r + 1) * (r + 1)
    ensures forall p :: p in Octants(c, x, y) ==> NearCircle(p, c, r)
  {
    assert (-x) * (-x) == x * x && (-y) * (-y) == y * y;
    NearAt(c, r, x, y, x, y);
    NearAt(c, r, x, -y, x, y);
    NearAt(c, r, y, x, x, y);
    NearAt(c, r, y, -x, x, y);
    NearAt(c, r, -x, y, x, y);
    NearAt(c, r, -x, -y, x, y);
    NearAt(c, r, -y, x, x, y);
    NearAt(c, r, -y, -x, x, y);
  }

  /** While x >= y, a tracking state's point is within one pixel of the circle. */
  lemma TrackedNear(m: Midpoint, r: int)
    requires Tracks(m, r) && m.x >= m.y
    ensures (r - 1) * (r - 1) <= m.x * m.x + m.y * m.y < (r + 1) * (r + 1)
  {
    assert (r - 1) * (r - 1) == r * r - 2 * r + 1;
    assert (r + 1) * (r + 1) == r * r + 2 * r + 1;
  }

  /** Every point a tracking loop offers is near the circle. */
  lemma {:induction false} OfferedNearCircle(c: Point, r: int, m: Midpoint)
    requires Tracks(m, r)
    ensures forall p :: p in Offered(c, r, m) ==> NearCircle(p, c, r)
    decreases if m.x >= m.y then m.x - m.y + 1 else 0
  {
    if m.x >= m.y {
      TrackedNear(m, r);
      OctantsNear(c, r, m.x, m.y);
      NextTracks(m, r);
      OfferedNearCircle(c, r, Next(m, r));
    }
  }

  /**
   * Every point of a corner's arc lies within one pixel of the circle of the
   * given radius around the shifted centre, inside that circle's square.
   */
  lemma ArcNearCircle(radius: int, originX: int, originY: int, corner: int)
    ensures forall p :: p in Arc(radius, originX, originY, corner) ==>
      NearCircle(p, Center(radius, originX, originY, corner), radius)
  {
    var c := Center(radius, originX, originY, corner);
    StartTracks(radius);
    OfferedNearCircle(c, radius, Start(radius));
    PushAllMembers([], Offered(c, radius, Start(radius)));
  }

  /**
   * So the arc of each corner stays strictly inside the 2 * radius square
   * at that corner of the element, on the element's side of the corner.
   */
  lemma ArcInsideCorner(radius: int, originX: int, originY: int, corner: int)
    ensures forall p :: p in Arc(radius, originX, originY, corner) ==>
      (if corner == 1 || corner == 3 then originX - 2 * radius < p.x < originX else originX < p.x < originX + 2 * radius) &&
      (if corner == 2 || corner == 3 then originY - 2 * radius < p.y < originY else originY < p.y < originY + 2 * radius)
  {
    ArcNearCircle(radius, originX, originY, corner);
  }

  // ------------------------------------------------------- rects and outline

  /**
   * The border SL_DrawElement draws is the element's four straight sides
   * between the corner arcs: the top and bottom lines of the centre, one
   * pixel inside r, and the outer sides of the two strips, one pixel inside
   * r's left and right edges.
   */
  lemma BorderIsStraightSides(r: Rect, radius: int)
    ensures BorderLines(OutlineOf(SidesOf(r, radius))) ==
      [DrawLine(Point(r.x + radius, r.y + 1), Point(r.x + r.w - radius + 2, r.y + 1)),
       DrawLine(Point(r.x + radius, r.y + r.h - 1), Point(r.x + r.w - radius + 2, r.y + r.h - 1)),
       DrawLine(Point(r.x + 1, r.y + radius), Point(r.x + 1, r.y + r.h - radius)),
       DrawLine(Point(r.x + r.w - 1, r.y + radius), Point(r.x + r.w - 1, r.y + r.h - radius))]
  {
    var s := SidesOf(r, radius);
    assert s.right.y + s.right.h == r.y + r.h - radius;
  }

  /**
   * SL_DrawElement's calls: white, the rectangles filled, each curved edge
   * as a polyline; then, exactly when the BORDER bit is set, black and the
   * four border lines; blue last.
   */
  lemma DrawCallsShape(v: ElementView)
    requires |v.edges| == NUM_CURVED_EDGES && |v.outlineStraight| == NUM_OUTLINE_POINTS
    ensures var calls := DrawCallsOf(v);
      |calls| == (if v.flags & BOOL_BORDER != 0 then 12 else 7) &&
      calls[0] == SetColor(WHITE) && calls[1] == FillRects(v.rects) && calls[|calls| - 1] == SetColor(BLUE) &&
      (forall i :: 0 <= i < NUM_CURVED_EDGES ==> calls[2 + i] == DrawLines(v.edges[i])) &&
      (v.flags & BOOL_BORDER != 0 ==> calls[6] == SetColor(BLACK) && calls[7..11] == BorderLines(v.outlineStraight))
  {
    var calls := DrawCallsOf(v);
    if v.flags & BOOL_BORDER != 0 {
      assert calls[7..11] == BorderLines(v.outlineStraight);
    }
  }

  /**
   * What SL_DrawElement issues for an element SL_CreateElement made: the
   * centre and side rectangles, the four corner arcs, and the four straight
   * sides exactly when the builder asked for a border.
   */
  lemma CreatedElementDraws(b: Builder, width: int, height: int)
    requires RatiosWellFormed(b)
    ensures var v := ElementOf(b, width, height);
      var calls := DrawCallsOf(v);
      var r := RawRect(b, width, height);
      var radius := Radius(b, width);
      |calls| == (if b.border != 0 then 12 else 7) &&
      calls[1] == FillRects([SidesOf(r, radius).center, SidesOf(r, radius).left, SidesOf(r, radius).right]) &&
      (forall i :: 0 <= i < NUM_CURVED_EDGES ==>
        calls[2 + i] == DrawLines(Arc(radius, CornerOrigin(r, i).x, CornerOrigin(r, i).y, i))) &&
      (b.border != 0 ==> calls[7..11] == BorderLines(OutlineOf(SidesOf(r, radius))))
  {
    ElementOfDrawnParts(b, width, height);
    DrawCallsShape(ElementOf(b, width, height));
  }

  /** The parts of ElementOf that SL_DrawElement reads. */
  lemma ElementOfDrawnParts(b: Builder, width: int, height: int)
    requires RatiosWellFormed(b)
    ensures var v := ElementOf(b, width, height);
      var r := RawRect(b, width, height);
      var radius := Radius(b, width);
      (v.flags & BOOL_BORDER != 0 <==> b.border != 0) &&
      v.rects == [SidesOf(r, radius).center, SidesOf(r, radius).left, SidesOf(r, radius).right] &&
      v.edges == Edges(r, radius) && v.outlineStraight == OutlineOf(SidesOf(r, radius))
  {
  }

  // ------------------------------------------------------- curve filtering

  /** An outline pass keeps exactly the points of its edge that pass its corner's test. */
  lemma {:induction false} KeptMembers(ps: seq<Point>, corner: int, s: Sides)
    ensures forall p :: p in Kept(ps, corner, s) <==> p in ps && OnOutline(corner, p, s)
    decreases |ps|
  {
    if ps != [] {
      var init := ps[..|ps| - 1];
      KeptMembers(init, corner, s);
      assert ps == init + [ps[|ps| - 1]];
    }
  }

  /**
   * outline_curves holds a point exactly when one of the four edges holds
   * it and it passes that edge's corner test.
   */
  lemma OutlineCurvesMembers(edges: seq<seq<Point>>, s: Sides)
    requires |edges| == NUM_CURVED_EDGES
    ensures forall p :: p in OutlineCurves(edges, s) <==>
      exists i :: 0 <= i < NUM_CURVED_EDGES && p in edges[i] && OnOutline(i, p, s)
  {
    KeptMembers(edges[0], 0, s);
    KeptMembers(edges[1], 1, s);
    KeptMembers(edges[2], 2, s);
    KeptMembers(edges[3], 3, s);
    forall p | p in OutlineCurves(edges, s)
      ensures exists i :: 0 <= i < NUM_CURVED_EDGES && p in edges[i] && OnOutline(i, p, s)
    {
      if p in Kept(edges[0], 0, s) {
        assert p in edges[0] && OnOutline(0, p, s);
      } else if p in Kept(edges[2], 2, s) {
        assert p in edges[2] && OnOutline(2, p, s);
      } else if p in Kept(edges[1], 1, s) {
        assert p in edges[1] && OnOutline(1, p, s);
      } else {
        assert p in edges[3] && OnOutline(3, p, s);
      }
    }
  }

  // ------------------------------------------------------------- welding

  /** No vertex is stored twice. */
  predicate Distinct(vs: seq<Point>)
  {
    forall a, b :: 0 <= a < b < |vs| ==> vs[a] != vs[b]
  }

  /** Every recorded index names a stored vertex. */
  predicate InRange(w: Weld)
  {
    forall t :: 0 <= t < |w.indices| ==> 0 <= w.indices[t] < |w.vertices|
  }

  /** w' only appended to w's arrays. */
  predicate Extends(w': Weld, w: Weld)
  {
    |w.vertices| <= |w'.vertices| && w'.vertices[..|w.vertices|] == w.vertices &&
    |w.indices| <= |w'.indices| && w'.indices[..|w.indices|] == w.indices
  }

  /**
   * One step appends one index, naming the first vertex at q if there is
   * one and otherwise the new vertex; indices stay in range.
   */
  lemma StepRecords(w: Weld, q: Point, p: Point, mode: StoreMode)
    requires InRange(w)
    ensures var w' := WeldStep(w, q, p, mode);
      Extends(w', w) && InRange(w') && |w'.indices| == |w.indices| + 1 &&
      (q in w.vertices ==> w'.vertices == w.vertices && w'.indices[|w.indices|] == FirstAt(w.vertices, q).value) &&
      (q !in w.vertices ==> w'.vertices == w.vertices + [if mode == AtPoint then p else q] &&
                            w'.indices[|w.indices|] == |w.vertices|)
  {
  }

  /** The six corners of one quad keep indices in range and only append. */
  lemma {:induction false} CornersRecord(w: Weld, p: Point, k: int, mode: StoreMode)
    requires 0 <= k <= 6 && InRange(w)
    ensures Extends(WeldCorners(w, p, k, mode), w) && InRange(WeldCorners(w, p, k, mode))
    decreases k
  {
    if k > 0 {
      var w1 := WeldCorners(w, p, k - 1, mode);
      CornersRecord(w, p, k - 1, mode);
      StepRecords(w1, Probe(p, k - 1), p, mode);
      var w2 := WeldCorners(w, p, k, mode);
      assert w2.vertices[..|w.vertices|] == w1.vertices[..|w1.vertices|][..|w.vertices|];
      assert w2.indices[..|w.indices|] == w1.indices[..|w1.indices|][..|w.indices|];
    }
  }

  /** Every index convertPointArrayToVertices records is below the vertex count. */
  lemma {:induction false} WeldedInRange(ps: seq<Point>, mode: StoreMode)
    ensures InRange(Welded(ps, mode))
    decreases |ps|
  {
    if ps != [] {
      WeldedInRange(ps[..|ps| - 1], mode);
      CornersRecord(Welded(ps[..|ps| - 1], mode), ps[|ps| - 1], 6, mode);
    }
  }

  /**
   * Storing at the probe: the vertices stay distinct and, after the first k
   * corners of the quad at p, index |w.indices| + j names a vertex at the
   * probe of corner j.
   */
  lemma {:induction false} CornersAtProbes(w: Weld, p: Point, k: int)
    requires 0 <= k <= 6 && InRange(w) && Distinct(w.vertices)
    ensures var w' := WeldCorners(w, p, k, AtProbe);
      |w'.indices| == |w.indices| + k && InRange(w') && Distinct(w'.vertices) &&
      forall j :: 0 <= j < k ==> w'.vertices[w'.indices[|w.indices| + j]] == Probe(p, j)
    decreases k
  {
    if k > 0 {
      var w1 := WeldCorners(w, p, k - 1, AtProbe);
      CornersAtProbes(w, p, k - 1);
      CornersRecord(w, p, k - 1, AtProbe);
      var q := Probe(p, k - 1);
      StepRecords(w1, q, p, AtProbe);
      var w2 := WeldCorners(w, p, k, AtProbe);
      forall j | 0 <= j < k
        ensures w2.vertices[w2.indices[|w.indices| + j]] == Probe(p, j)
      {
        if j < k - 1 {
          assert w2.indices[|w.indices| + j] == w1.indices[|w.indices| + j];
          assert w2.vertices[w1.indices[|w.indices| + j]] == w1.vertices[w1.indices[|w.indices| + j]];
        }
      }
    }
  }

  /** The index recorded for corner k of point j names a vertex at that corner's position. */
  predicate CornerAt(w: Weld, ps: seq<Point>, j: int, k: int)
    requires 0 <= j < |ps| && 0 <= k < 6
  {
    6 * j + k < |w.indices| && 0 <= w.indices[6 * j + k] < |w.vertices| &&
    w.vertices[w.indices[6 * j + k]] == Probe(ps[j], k)
  }

  /** Every corner of every point's quad is recorded at its position. */
  predicate AtProbes(w: Weld, ps: seq<Point>)
  {
    forall j, k :: 0 <= j < |ps| && 0 <= k < 6 ==> CornerAt(w, ps, j, k)
  }

  /** Appending to the arrays keeps what the earlier quads recorded. */
  lemma ExtendsKeepsAtProbes(w0: Weld, w: Weld, ps: seq<Point>)
    requires AtProbes(w0, ps) && Extends(w, w0)
    ensures AtProbes(w, ps)
  {
    forall j, k | 0 <= j < |ps| && 0 <= k < 6
      ensures CornerAt(w, ps, j, k)
    {
      var t := 6 * j + k;
      assert CornerAt(w0, ps, j, k);
      assert w.indices[t] == w.indices[..|w0.indices|][t] == w0.indices[t];
      assert w.vertices[w0.indices[t]] == w.vertices[..|w0.vertices|][w0.indices[t]];
    }
  }

  /** The quads before the last and the last one together. */
  lemma LastQuadAtProbes(w0: Weld, w: Weld, ps: seq<Point>, p: Point)
    requires ps != [] && p == ps[|ps| - 1] && AtProbes(w, ps[..|ps| - 1]) && |w0.indices| == 6 * (|ps| - 1)
    requires |w.indices| == |w0.indices| + 6 && InRange(w)
    requires forall k :: 0 <= k < 6 ==> w.vertices[w.indices[|w0.indices| + k]] == Probe(p, k)
    ensures AtProbes(w, ps)
  {
    var init := ps[..|ps| - 1];
    forall j, k | 0 <= j < |ps| && 0 <= k < 6
      ensures CornerAt(w, ps, j, k)
    {
      if j < |ps| - 1 {
        assert CornerAt(w, init, j, k);
        assert ps[j] == init[j];
      } else {
        assert w.vertices[w.indices[|w0.indices| + k]] == Probe(p, k);
      }
    }
  }

  /**
   * The corrected welding: no vertex is stored twice, and the index recorded
   * for corner k of point j names a vertex at that corner's position, so a
   * found index is the one vertex at the probed position.
   */
  lemma {:induction false} WeldedAtProbes(ps: seq<Point>)
    ensures Distinct(Welded(ps, AtProbe).vertices) && AtProbes(Welded(ps, AtProbe), ps)
    decreases |ps|
  {
    if ps != [] {
      var init := ps[..|ps| - 1];
      var p := ps[|ps| - 1];
      var w0 := Welded(init, AtProbe);
      var w := Welded(ps, AtProbe);
      assert w == WeldCorners(w0, p, 6, AtProbe);
      WeldedAtProbes(init);
      WeldedInRange(init, AtProbe);
      CornersAtProbes(w0, p, 6);
      CornersRecord(w0, p, 6, AtProbe);
      ExtendsKeepsAtProbes(w0, w, init);
      LastQuadAtProbes(w0, w, ps, p);
    }
  }

  /** As written, every vertex stored is one of the input points, never a shifted corner. */
  lemma {:induction false} WeldedAsWrittenAtPoints(ps: seq<Point>)
    ensures forall v :: v in Welded(ps, AtPoint).vertices ==> v in ps
    decreases |ps|
  {
    if ps != [] {
      var init := ps[..|ps| - 1];
      var p := ps[|ps| - 1];
      WeldedAsWrittenAtPoints(init);
      CornersKeepPoints(Welded(init, AtPoint), p, 6);
      forall v | v in Welded(ps, AtPoint).vertices
        ensures v in ps
      {
        if v != p {
          assert v in init;
        }
      }
    }
  }

  /** The AtPoint corners of the quad at p add no vertex other than p. */
  lemma {:induction false} CornersKeepPoints(w: Weld, p: Point, k: int)
    requires 0 <= k <= 6
    ensures forall v :: v in WeldCorners(w, p, k, AtPoint).vertices ==> v in w.vertices || v == p
    decreases k
  {
    if k > 0 {
      CornersKeepPoints(w, p, k - 1);
    }
  }

  /** The six probe positions of the quad at p. */
  lemma ProbeTable(p: Point)
    ensures Probe(p, 0) == p && Probe(p, 1) == Point(p.x, p.y + 1) && Probe(p, 2) == Point(p.x + 1, p.y + 1)
    ensures Probe(p, 3) == Point(p.x + 1, p.y) && Probe(p, 4) == p && Probe(p, 5) == Point(p.x + 2, p.y + 1)
  {
  }

  /**
   * The discrepancy, for any single point p: as written every vertex of its
   * quad is p itself, so the indices recorded for corners 1, 2, 3 and 5 name
   * vertices at p rather than at p + (0, 1), p + (1, 1), p + (1, 0) and
   * p + (2, 1).
   */
  lemma AsWrittenQuadCollapses(p: Point)
    ensures var w := Welded([p], AtPoint);
      |w.indices| == 6 && (forall v :: v in w.vertices ==> v == p) &&
      (forall k :: 0 <= k < 6 ==> 0 <= w.indices[k] < |w.vertices| && w.vertices[w.indices[k]] == p) &&
      w.vertices[w.indices[1]] != Probe(p, 1) && w.vertices[w.indices[2]] != Probe(p, 2) &&
      w.vertices[w.indices[3]] != Probe(p, 3) && w.vertices[w.indices[5]] != Probe(p, 5)
  {
    var w := Welded([p], AtPoint);
    WeldedAsWrittenAtPoints([p]);
    WeldedInRange([p], AtPoint);
    QuadOfOnePoint(p, w);
  }

  /** Arrays holding only p as a vertex, with six indices in range. */
  lemma QuadOfOnePoint(p: Point, w: Weld)
    requires |w.indices| == 6 && InRange(w) && forall v :: v in w.vertices ==> v in [p]
    ensures (forall v :: v in w.vertices ==> v == p) &&
      (forall k :: 0 <= k < 6 ==> 0 <= w.indices[k] < |w.vertices| && w.vertices[w.indices[k]] == p) &&
      w.vertices[w.indices[1]] != Probe(p, 1) && w.vertices[w.indices[2]] != Probe(p, 2) &&
      w.vertices[w.indices[3]] != Probe(p, 3) && w.vertices[w.indices[5]] != Probe(p, 5)
  {
    forall k | 0 <= k < 6
      ensures 0 <= w.indices[k] < |w.vertices| && w.vertices[w.indices[k]] == p
    {
      assert w.vertices[w.indices[k]] in w.vertices;
    }
    ProbeTable(p);
  }

  /**
   * The welded test mesh of a created element, as the code builds it: six
   * indices per arc point, each naming a stored vertex, and every vertex one
   * of the arc points of some corner, never a shifted quad corner.
   */
  lemma CreatedElementMesh(b: Builder, width: int, height: int)
    requires RatiosWellFormed(b)
    ensures var v := ElementOf(b, width, height);
      var ps := v.edges[0] + v.edges[1] + v.edges[2] + v.edges[3];
      |v.indices| == 6 * |ps| && InRange(Weld(v.vertices, v.indices)) &&
      forall q :: q in v.vertices ==> exists i :: 0 <= i < NUM_CURVED_EDGES && q in v.edges[i]
  {
    var v := ElementOf(b, width, height);
    var ps := v.edges[0] + v.edges[1] + v.edges[2] + v.edges[3];
    assert Weld(v.vertices, v.indices) == Welded(ps, AtPoint);
    WeldedInRange(ps, AtPoint);
    WeldedAsWrittenAtPoints(ps);
    forall q | q in v.vertices
      ensures exists i :: 0 <= i < NUM_CURVED_EDGES && q in v.edges[i]
    {
      assert q in ps;
      if q in v.edges[0] {
      } else if q in v.edges[1] {
        assert q in v.edges[1];
      } else if q in v.edges[2] {
        assert q in v.edges[2];
      } else {
        assert q in v.edges[3];
      }
    }
  }
}
