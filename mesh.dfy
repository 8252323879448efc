/**
 * The geometry SL_DrawElement submits (Sliggy.c): the nine-slice skin grid of
 * sixteen vertices drawn through the fixed 54-entry index table, and one quad
 * per glyph of a text object, laid out by a cursor that wraps to a new line
 * only right after a space glyph.
 *
 * Vertex positions of glyph quads are float arithmetic in the source; here a
 * quad is the pen position it is drawn at together with the glyph and scale
 * that place its four corners.
 */
module Mesh {
  import opened Wrappers
  import opened CTypes
  import opened Sdl
  import opened FontAtlas
  import opened TextLayout

  const NUM_VERTICES: int := 16
  const NUM_INDICES: int := 54

  /**
   * The skin's index table: two triangles for each of the nine cells of the
   * 4x4 vertex grid, row by row (upper, middle, lower), left to right.
   */
  const INDICES: seq<int> :=
    [0, 4, 5, 0, 1, 5] + [1, 5, 6, 1, 2, 6] + [2, 6, 7, 2, 3, 7] +
    [4, 5, 9, 4, 8, 9] + [5, 6, 10, 5, 9, 10] + [6, 7, 11, 6, 10, 11] +
    [8, 9, 13, 8, 12, 13] + [9, 10, 14, 9, 13, 14] + [10, 11, 15, 10, 14, 15]

  // ------------------------------------------------------------ nine-slice

  /** A vertex of the skin: its screen position and its texture coordinates (u, v). */
  datatype Vertex = Vertex(pos: Point, u: Ratio, v: Ratio)

  /** The offset of grid line i along one axis: 0, the skin step, size - step, size. */
  function Step(i: int, step: int, size: int): int
  {
    if i == 1 then step else if i == 2 then size - step else if i == 3 then size else 0
  }

  /** Grid vertex (x, y) of an element drawn at r with the given skin steps; its UV is (x/3, y/3). */
  function SliceVertex(r: Rect, stepX: int, stepY: int, x: int, y: int): Vertex
  {
    Vertex(Point(r.x + Step(x, stepX, r.w), r.y + Step(y, stepY, r.h)), Ratio(x, 3), Ratio(y, 3))
  }

  /** The nested loops of SL_DrawElement that fill the sixteen skin vertices. */
  method NineSlice(r: Rect, stepX: int, stepY: int) returns (vs: seq<Vertex>)
    ensures |vs| == NUM_VERTICES
    ensures forall y, x :: 0 <= y < 4 && 0 <= x < 4 ==> vs[4 * y + x] == SliceVertex(r, stepX, stepY, x, y)
  {
    var a := new Vertex[NUM_VERTICES](_ => Vertex(Point(0, 0), Ratio(0, 1), Ratio(0, 1)));
    for y := 0 to 4
      invariant forall y', x :: 0 <= y' < y && 0 <= x < 4 ==> a[4 * y' + x] == SliceVertex(r, stepX, stepY, x, y')
    {
      var stepY' := Step(y, stepY, r.h);
      for x := 0 to 4
        invariant forall y', x' :: 0 <= y' < y && 0 <= x' < 4 ==> a[4 * y' + x'] == SliceVertex(r, stepX, stepY, x', y')
        invariant forall x' :: 0 <= x' < x ==> a[4 * y + x'] == SliceVertex(r, stepX, stepY, x', y)
      {
        var stepX' := Step(x, stepX, r.w);
        a[4 * y + x] := Vertex(Point(r.x + stepX', r.y + stepY'), Ratio(x, 3), Ratio(y, 3));
      }
    }
    vs := a[..];
  }

  // ------------------------------------------------------------ glyph quads

  /** The indices of one glyph quad, before the offset 4i of the i-th glyph. */
  const QUAD_INDICES: seq<int> := [0, 1, 2, 1, 2, 3]

  /** The index list of n glyph quads: position j holds QUAD_INDICES[j % 6] + 4 * (j / 6). */
  function QuadIndices(n: nat): (s: seq<int>)
    ensures |s| == 6 * n
  {
    seq(6 * n, j requires 0 <= j < 6 * n => QUAD_INDICES[j % 6] + 4 * (j / 6))
  }

  /** A glyph drawn at a pen position; its corners are the pen plus the glyph's scaled offsets and size. */
  datatype Quad = Quad(pen: Point, glyph: Glyph, scale: Ratio)

  /** The text cursor: pen position and the index of the word being drawn. */
  datatype Cursor = Cursor(x: int, y: int, word: int)

  /**
   * The cursor after drawing glyph g: it moves by the scaled advance; after a
   * glyph whose character is a space, the word index moves on and the cursor
   * wraps to home on the next line when it is already past limit, or when the
   * next word's width would take it past limit. The width is read only when
   * the first test fails, and reading past the word widths is a fault.
   */
  function AfterGlyph(t: TextObject, home: int, limit: int, lineHeight: int, c: Cursor, g: Glyph): Option<Cursor>
    requires t.scale.den > 0
  {
    var x := c.x + Scaled(g.xAdvance, t.scale);
    if g.rawChar != SPACE then Some(Cursor(x, c.y, c.word))
    else
      var w := c.word + 1;
      var wrapped := Cursor(home, c.y + Scaled(lineHeight, t.scale), w);
      if x > limit then Some(wrapped)
      else if w < 0 || w >= |t.wordWidths| then None
      else if x + t.wordWidths[w] > limit then Some(wrapped)
      else Some(Cursor(x, c.y, w))
  }

  /** The quads of glyphs i.. of t drawn from cursor c; None when the layout faults. */
  function QuadsFrom(t: TextObject, home: int, limit: int, lineHeight: int, c: Cursor, i: nat): Option<seq<Quad>>
    requires t.scale.den > 0
    decreases |t.text| - i
  {
    if i >= |t.text| then Some([])
    else
      var q := Quad(Point(c.x, c.y), t.text[i], t.scale);
      match AfterGlyph(t, home, limit, lineHeight, c, t.text[i])
      case None => None
      case Some(c') =>
        match QuadsFrom(t, home, limit, lineHeight, c', i + 1)
        case None => None
        case Some(qs) => Some([q] + qs)
  }

  /** One text draw call: the glyph quads and their index list. */
  datatype TextMesh = TextMesh(quads: seq<Quad>, indices: seq<int>)

  /**
   * The mesh of text object t in an element drawn at r: the cursor starts at
   * the object's offset inside the element, and wraps back to that x at the
   * element's right edge.
   */
  function TextMeshOf(t: TextObject, r: Rect, lineHeight: int): Option<TextMesh>
    requires t.scale.den > 0
  {
    var home := t.xStart + r.x;
    match QuadsFrom(t, home, r.x + r.w, lineHeight, Cursor(home, t.yStart + r.y, 0), 0)
    case None => None
    case Some(qs) => Some(TextMesh(qs, QuadIndices(|t.text|)))
  }

  /** The text loop of SL_DrawElement for one text object. */
  method DrawText(t: TextObject, r: Rect, lineHeight: int) returns (m: Option<TextMesh>)
    requires t.scale.den > 0
    ensures m == TextMeshOf(t, r, lineHeight)
  {
    var n := |t.text|;
    var home := t.xStart + r.x;
    var limit := r.x + r.w;
    var idxs := new int[6 * n];
    var quads := new Quad[n](_ => Quad(Point(0, 0), ZERO_GLYPH, t.scale));
    var textx := home;
    var texty := t.yStart + r.y;
    var currWord := 0;
    ghost var all := QuadsFrom(t, home, limit, lineHeight, Cursor(home, texty, 0), 0);
    assert quads[..0] == [];
    PrependNothing(all);
    for i := 0 to n
      invariant idxs[..6 * i] == QuadIndices(i)
      invariant Prepend(quads[..i], QuadsFrom(t, home, limit, lineHeight, Cursor(textx, texty, currWord), i)) == all
    {
      QuadIndicesOf(idxs, i);
      var g := t.text[i];
      ghost var c := Cursor(textx, texty, currWord);
      var q := Quad(Point(textx, texty), g, t.scale);
      ghost var done := quads[..i];
      QuadsStep(t, home, limit, lineHeight, c, i);
      quads[i] := q;
      assert quads[..i + 1] == done + [q];
      textx := textx + Scaled(g.xAdvance, t.scale);
      if g.rawChar == SPACE {
        currWord := currWord + 1;
        if textx > limit {
          textx := home;
          texty := texty + Scaled(lineHeight, t.scale);
        } else if currWord < 0 || currWord >= |t.wordWidths| {
          assert AfterGlyph(t, home, limit, lineHeight, c, g) == None;
          return None;
        } else if textx + t.wordWidths[currWord] > limit {
          textx := home;
          texty := texty + Scaled(lineHeight, t.scale);
        }
      }
      assert AfterGlyph(t, home, limit, lineHeight, c, g) == Some(Cursor(textx, texty, currWord));
      PrependStep(done, q, QuadsFrom(t, home, limit, lineHeight, Cursor(textx, texty, currWord), i + 1));
    }
    assert quads[..n] == quads[..];
    assert idxs[..6 * n] == idxs[..];
    assert QuadsFrom(t, home, limit, lineHeight, Cursor(textx, texty, currWord), n) == Some([]);
    assert quads[..] + [] == quads[..];
    assert all == Some(quads[..]);
    m := Some(TextMesh(quads[..], idxs[..]));
  }

  lemma PrependNothing(rest: Option<seq<Quad>>)
    ensures Prepend([], rest) == rest
  {
    if rest.Some? {
      assert [] + rest.value == rest.value;
    }
  }

  lemma PrependStep(done: seq<Quad>, q: Quad, rest: Option<seq<Quad>>)
    ensures Prepend(done, Prepend([q], rest)) == Prepend(done + [q], rest)
  {
    if rest.Some? {
      assert done + ([q] + rest.value) == (done + [q]) + rest.value;
    }
  }

  /** The inner loop of the text pass: the six indices of quad i. */
  method QuadIndicesOf(idxs: array<int>, i: nat)
    requires 6 * i + 6 <= idxs.Length && idxs[..6 * i] == QuadIndices(i)
    modifies idxs
    ensures idxs[..6 * i + 6] == QuadIndices(i + 1)
    ensures forall j :: 6 * i + 6 <= j < idxs.Length ==> idxs[j] == old(idxs[j])
  {
    for j := 6 * i to 6 * i + 6
      invariant forall k :: 0 <= k < j ==> idxs[k] == QuadIndices(i + 1)[k]
      invariant forall k :: j <= k < idxs.Length ==> idxs[k] == old(idxs[k])
    {
      idxs[j] := QUAD_INDICES[j % 6] + 4 * i;
      assert j / 6 == i;
    }
  }

  /** One glyph of the text pass: its quad, then the rest from the cursor after it. */
  lemma QuadsStep(t: TextObject, home: int, limit: int, lineHeight: int, c: Cursor, i: nat)
    requires t.scale.den > 0 && i < |t.text|
    ensures QuadsFrom(t, home, limit, lineHeight, c, i) ==
      match AfterGlyph(t, home, limit, lineHeight, c, t.text[i])
      case None => None
      case Some(c') => Prepend([Quad(Point(c.x, c.y), t.text[i], t.scale)], QuadsFrom(t, home, limit, lineHeight, c', i + 1))
  {
  }

  /** The quads before position i followed by the rest, or the rest's fault. */
  function Prepend(done: seq<Quad>, rest: Option<seq<Quad>>): Option<seq<Quad>>
  {
    match rest
    case None => None
    case Some(qs) => Some(done + qs)
  }
}

/** Properties of the skin grid and of text layout. */
module MeshProperties {
  import opened Wrappers
  import opened CTypes
  import opened Sdl
  import opened FontAtlas
  import opened FontAtlasProperties
  import opened TextLayout
  import opened Mesh

  /** The four grid vertices at the corners of cell (col, row): a, a+1, a+4 and a+5. */
  function Corners(col: int, row: int): (cs: set<int>)
    ensures 4 * row + col in cs && 4 * row + col + 5 in cs
  {
    var a := 4 * row + col;
    {a, a + 1, a + 4, a + 5}
  }

  /** Three distinct vertices, two of which are the ends a and a+5 of the cell's diagonal. */
  predicate OnDiagonal(t: seq<int>, a: int)
    requires |t| == 3
  {
    t[0] != t[1] && t[1] != t[2] && t[0] != t[2] && a in t && a + 5 in t
  }

  /**
   * Six indices that draw cell (col, row): two triangles sharing the cell's
   * diagonal, whose third vertices are the two other corners, so that
   * together they cover exactly the cell's four corners.
   */
  predicate SplitsCell(t: seq<int>, col: int, row: int)
  {
    var a := 4 * row + col;
    |t| == 6 && OnDiagonal(t[..3], a) && OnDiagonal(t[3..], a)
    && {t[0], t[1], t[2]} != {t[3], t[4], t[5]}
    && {t[0], t[1], t[2], t[3], t[4], t[5]} == Corners(col, row)
  }

  /**
   * The winding the table uses for cell k (column k % 3 of row k / 3): the
   * upper row lists the lower-left triangle first, the other two rows the
   * upper-right one.
   */
  function CellPattern(k: nat): (t: seq<int>)
    requires k < 9
    ensures |t| == 6
  {
    var a := 4 * (k / 3) + k % 3;
    if k / 3 == 0 then [a, a + 4, a + 5, a, a + 1, a + 5] else [a, a + 1, a + 5, a, a + 4, a + 5]
  }

  /** Both windings split their cell along its diagonal. */
  lemma PatternSplitsCell(k: nat)
    requires k < 9
    ensures SplitsCell(CellPattern(k), k % 3, k / 3)
  {
    var a := 4 * (k / 3) + k % 3;
    assert Corners(k % 3, k / 3) == {a, a + 1, a + 4, a + 5};
  }

  /** Entries 6k to 6k+5 of the table are cell k's pattern. */
  lemma TableRows(k: nat)
    requires k < 9
    ensures |INDICES| == NUM_INDICES
    ensures INDICES[6 * k .. 6 * k + 6] == CellPattern(k)
  {
    if k == 0 { assert INDICES[0..6] == [0, 4, 5, 0, 1, 5] == CellPattern(k); }
    else if k == 1 { assert INDICES[6..12] == [1, 5, 6, 1, 2, 6] == CellPattern(k); }
    else if k == 2 { assert INDICES[12..18] == [2, 6, 7, 2, 3, 7] == CellPattern(k); }
    else if k == 3 { assert INDICES[18..24] == [4, 5, 9, 4, 8, 9] == CellPattern(k); }
    else if k == 4 { assert INDICES[24..30] == [5, 6, 10, 5, 9, 10] == CellPattern(k); }
    else if k == 5 { assert INDICES[30..36] == [6, 7, 11, 6, 10, 11] == CellPattern(k); }
    else if k == 6 { assert INDICES[36..42] == [8, 9, 13, 8, 12, 13] == CellPattern(k); }
    else if k == 7 { assert INDICES[42..48] == [9, 10, 14, 9, 13, 14] == CellPattern(k); }
    else { assert INDICES[48..54] == [10, 11, 15, 10, 14, 15] == CellPattern(k); }
  }

  /** Each six-entry block of the table draws its own cell of the nine-slice grid. */
  lemma IndicesSplitCells(k: nat)
    requires k < 9
    ensures SplitsCell(INDICES[6 * k .. 6 * k + 6], k % 3, k / 3)
  {
    TableRows(k);
    PatternSplitsCell(k);
  }

  /** Every entry of the index table names one of the sixteen skin vertices. */
  lemma IndicesInRange()
    ensures |INDICES| == NUM_INDICES
    ensures forall i :: 0 <= i < |INDICES| ==> 0 <= INDICES[i] < NUM_VERTICES
  {
  }

  /**
   * The grid lines of an axis come in order, so no cell is folded over,
   * exactly when the skin step lies between 0 and half the element's size.
   */
  lemma StepsOrdered(step: int, size: int)
    ensures (Step(0, step, size) <= Step(1, step, size) <= Step(2, step, size) <= Step(3, step, size))
            <==> 0 <= step && 2 * step <= size
  {
  }

  /** The outer grid vertices are the element's corners with the skin's corner UVs. */
  lemma SliceCorners(r: Rect, stepX: int, stepY: int)
    ensures SliceVertex(r, stepX, stepY, 0, 0) == Vertex(Point(r.x, r.y), Ratio(0, 3), Ratio(0, 3))
    ensures SliceVertex(r, stepX, stepY, 3, 3) == Vertex(Point(r.x + r.w, r.y + r.h), Ratio(3, 3), Ratio(3, 3))
  {
  }

  /** Quad i's six indices are 4i + {0,1,2,1,2,3}: all of them lie in [4i, 4i + 4), hence below 4n. */
  lemma QuadIndicesInRange(n: nat)
    ensures forall j :: 0 <= j < 6 * n ==>
      4 * (j / 6) <= QuadIndices(n)[j] < 4 * (j / 6) + 4 && QuadIndices(n)[j] < 4 * n
  {
    forall j | 0 <= j < 6 * n
      ensures 4 * (j / 6) <= QuadIndices(n)[j] < 4 * (j / 6) + 4 && QuadIndices(n)[j] < 4 * n
    {
      assert 0 <= j % 6 < 6;
      assert j / 6 < n;
    }
  }

  /** Every glyph of the text gets one quad, in order, drawing that glyph. */
  lemma {:induction false} QuadsCopyGlyphs(t: TextObject, home: int, limit: int, lh: int, c: Cursor, i: nat)
    requires t.scale.den > 0 && i <= |t.text|
    requires QuadsFrom(t, home, limit, lh, c, i).Some?
    ensures var qs := QuadsFrom(t, home, limit, lh, c, i).value;
            |qs| == |t.text| - i && (|qs| > 0 ==> qs[0].pen == Point(c.x, c.y)) &&
            forall k :: 0 <= k < |qs| ==> qs[k].glyph == t.text[i + k] && qs[k].scale == t.scale
    decreases |t.text| - i
  {
    if i < |t.text| {
      var c' := AfterGlyph(t, home, limit, lh, c, t.text[i]).value;
      QuadsCopyGlyphs(t, home, limit, lh, c', i + 1);
    }
  }

  /**
   * Consecutive quads: after a glyph that is not a space the pen moves right by
   * the glyph's scaled advance on the same line; after a space it either does
   * the same or returns to home one scaled line height lower.
   */
  lemma {:induction false} WrapOnlyAfterSpace(t: TextObject, home: int, limit: int, lh: int, c: Cursor, i: nat)
    requires t.scale.den > 0 && i <= |t.text|
    requires QuadsFrom(t, home, limit, lh, c, i).Some?
    ensures var qs := QuadsFrom(t, home, limit, lh, c, i).value;
            forall k :: 0 <= k < |qs| - 1 && i + k < |t.text| ==>
              var g := t.text[i + k];
              var moved := Point(qs[k].pen.x + Scaled(g.xAdvance, t.scale), qs[k].pen.y);
              var wrapped := Point(home, qs[k].pen.y + Scaled(lh, t.scale));
              if g.rawChar != SPACE then qs[k + 1].pen == moved
              else qs[k + 1].pen == moved || qs[k + 1].pen == wrapped
    decreases |t.text| - i
  {
    QuadsCopyGlyphs(t, home, limit, lh, c, i);
    if i < |t.text| {
      var c' := AfterGlyph(t, home, limit, lh, c, t.text[i]).value;
      var qs := QuadsFrom(t, home, limit, lh, c, i).value;
      var rest := QuadsFrom(t, home, limit, lh, c', i + 1).value;
      assert qs == [Quad(Point(c.x, c.y), t.text[i], t.scale)] + rest;
      WrapOnlyAfterSpace(t, home, limit, lh, c', i + 1);
      QuadsCopyGlyphs(t, home, limit, lh, c', i + 1);
      forall k | 0 <= k < |qs| - 1 && i + k < |t.text|
        ensures var g := t.text[i + k];
                var moved := Point(qs[k].pen.x + Scaled(g.xAdvance, t.scale), qs[k].pen.y);
                var wrapped := Point(home, qs[k].pen.y + Scaled(lh, t.scale));
                if g.rawChar != SPACE then qs[k + 1].pen == moved
                else qs[k + 1].pen == moved || qs[k + 1].pen == wrapped
      {
        if k > 0 {
          assert qs[k] == rest[k - 1] && qs[k + 1] == rest[k];
          assert i + k == (i + 1) + (k - 1);
        }
      }
    }
  }

  /**
   * When a glyph starts a new line: exactly after a space, when the pen moved
   * by the space's advance is past limit, or the next word's stored width
   * would take it past limit. A new line returns to home one scaled line
   * height lower; otherwise the pen stays on its line, moved by the advance.
   */
  lemma WrapCondition(t: TextObject, home: int, limit: int, lh: int, c: Cursor, g: Glyph)
    requires t.scale.den > 0 && Scaled(lh, t.scale) > 0
    requires AfterGlyph(t, home, limit, lh, c, g).Some?
    ensures var x := c.x + Scaled(g.xAdvance, t.scale);
            var c' := AfterGlyph(t, home, limit, lh, c, g).value;
            (c'.y != c.y <==> g.rawChar == SPACE && (x > limit || x + t.wordWidths[c.word + 1] > limit)) &&
            (c'.y != c.y ==> c'.x == home && c'.y == c.y + Scaled(lh, t.scale)) &&
            (c'.y == c.y ==> c'.x == x)
  {
  }

  /** A glyph of advance 10 for character ch. */
  function Letter(ch: int): Glyph
  {
    ZERO_GLYPH.(xAdvance := 10, rawChar := ch)
  }

  /**
   * "ab cd ef" in glyphs of advance 10 at scale 1, with the widths the text
   * object stores for it (20 for "ab" and "cd", 0 for the last word), drawn in
   * a 25-pixel-wide element with line height 12. Each space takes the pen to
   * 30, past 25, so the text breaks after "ab " and again after "cd ".
   */
  lemma WrapExample()
    ensures var t := TextObject([Letter(97), Letter(98), Letter(32), Letter(99), Letter(100), Letter(32),
                                 Letter(101), Letter(102)], [20, 20, 0], Ratio(1, 1), 0, 0);
      TextMeshOf(t, Rect(0, 0, 25, 40), 12).Some? &&
      var qs := TextMeshOf(t, Rect(0, 0, 25, 40), 12).value.quads;
      |qs| == 8 &&
      qs[0].pen == Point(0, 0) && qs[1].pen == Point(10, 0) && qs[2].pen == Point(20, 0) &&
      qs[3].pen == Point(0, 12) && qs[4].pen == Point(10, 12) && qs[5].pen == Point(20, 12) &&
      qs[6].pen == Point(0, 24) && qs[7].pen == Point(10, 24)
  {
    var t := TextObject([Letter(97), Letter(98), Letter(32), Letter(99), Letter(100), Letter(32),
                         Letter(101), Letter(102)], [20, 20, 0], Ratio(1, 1), 0, 0);
    assert Scaled(10, t.scale) == 10 && Scaled(12, t.scale) == 12;
    assert |t.text| == 8;
    assert QuadsFrom(t, 0, 25, 12, Cursor(20, 24, 2), 8) == Some([]);
    var q7 := QuadsFrom(t, 0, 25, 12, Cursor(10, 24, 2), 7);
    assert q7 == Prepend([Quad(Point(10, 24), t.text[7], t.scale)], Some([]));
    var q6 := QuadsFrom(t, 0, 25, 12, Cursor(0, 24, 2), 6);
    assert q6 == Prepend([Quad(Point(0, 24), t.text[6], t.scale)], q7);
    var q5 := QuadsFrom(t, 0, 25, 12, Cursor(20, 12, 1), 5);
    assert q5 == Prepend([Quad(Point(20, 12), t.text[5], t.scale)], q6);
    var q4 := QuadsFrom(t, 0, 25, 12, Cursor(10, 12, 1), 4);
    assert q4 == Prepend([Quad(Point(10, 12), t.text[4], t.scale)], q5);
    var q3 := QuadsFrom(t, 0, 25, 12, Cursor(0, 12, 1), 3);
    assert q3 == Prepend([Quad(Point(0, 12), t.text[3], t.scale)], q4);
    var q2 := QuadsFrom(t, 0, 25, 12, Cursor(20, 0, 0), 2);
    assert q2 == Prepend([Quad(Point(20, 0), t.text[2], t.scale)], q3);
    var q1 := QuadsFrom(t, 0, 25, 12, Cursor(10, 0, 0), 1);
    assert q1 == Prepend([Quad(Point(10, 0), t.text[1], t.scale)], q2);
    var q0 := QuadsFrom(t, 0, 25, 12, Cursor(0, 0, 0), 0);
    assert q0 == Prepend([Quad(Point(0, 0), t.text[0], t.scale)], q1);
  }

  /** The number of glyphs whose character is a space. */
  function SpaceGlyphs(gs: seq<Glyph>): (n: nat)
    ensures n <= |gs|
  {
    if gs == [] then 0 else (if gs[0].rawChar == SPACE then 1 else 0) + SpaceGlyphs(gs[1..])
  }

  /**
   * The layout never reads past the word widths when the space glyphs still
   * to come are fewer than the words after the current one.
   */
  lemma {:induction false} NoFaultWithinWords(t: TextObject, home: int, limit: int, lh: int, c: Cursor, i: nat)
    requires t.scale.den > 0 && i <= |t.text| && 0 <= c.word
    requires c.word + SpaceGlyphs(t.text[i..]) < |t.wordWidths|
    ensures QuadsFrom(t, home, limit, lh, c, i).Some?
    decreases |t.text| - i
  {
    if i < |t.text| {
      assert t.text[i..][1..] == t.text[i + 1..];
      var c' := AfterGlyph(t, home, limit, lh, c, t.text[i]).value;
      NoFaultWithinWords(t, home, limit, lh, c', i + 1);
    }
  }

  /** A font whose glyph for a byte is a space glyph exactly when the byte is a space. */
  predicate SpacesAgree(f: Font, raw: seq<Byte>)
  {
    forall i :: 0 <= i < |raw| ==> HasGlyph(f, raw[i]) && (GlyphFor(f, raw[i]).rawChar == SPACE <==> raw[i] == SPACE)
  }

  lemma {:induction false} SpaceGlyphsOfText(f: Font, raw: seq<Byte>)
    requires SpacesAgree(f, raw)
    ensures SpaceGlyphs(GlyphsOf(f, raw)) == Spaces(raw)
  {
    if raw != [] {
      var p := raw[..|raw| - 1];
      assert forall i :: 0 <= i < |p| ==> p[i] == raw[i];
      SpaceGlyphsOfText(f, p);
      SpaceGlyphsAppend(GlyphsOf(f, p), GlyphFor(f, raw[|raw| - 1]));
      assert GlyphsOf(f, raw) == GlyphsOf(f, p) + [GlyphFor(f, raw[|raw| - 1])];
    }
  }

  lemma {:induction false} SpaceGlyphsAppend(gs: seq<Glyph>, g: Glyph)
    ensures SpaceGlyphs(gs + [g]) == SpaceGlyphs(gs) + (if g.rawChar == SPACE then 1 else 0)
  {
    if gs != [] {
      assert (gs + [g])[1..] == gs[1..] + [g];
      SpaceGlyphsAppend(gs[1..], g);
    } else {
      assert [] + [g] == [g];
    }
  }

  /**
   * In a font whose slots hold their ids, only a space byte finds a space
   * glyph: its slot holds char 0 or the byte's own signed char.
   */
  lemma OnlySpaceIsSpaceGlyph(f: Font, b: Byte)
    requires SlotsHoldIds(f) && HasGlyph(f, b)
    ensures GlyphFor(f, b).rawChar == SPACE ==> b == SPACE
  {
    var j := SChar(b) - f.start;
    assert f.start + j == SChar(b);
  }

  /** Such a font gives a text at most as many space glyphs as it has spaces. */
  lemma {:induction false} SpaceGlyphsAtMost(f: Font, raw: seq<Byte>)
    requires SlotsHoldIds(f) && AllGlyphs(f, raw)
    ensures SpaceGlyphs(GlyphsOf(f, raw)) <= Spaces(raw)
  {
    if raw != [] {
      var p := raw[..|raw| - 1];
      assert forall i :: 0 <= i < |p| ==> p[i] == raw[i];
      SpaceGlyphsAtMost(f, p);
      OnlySpaceIsSpaceGlyph(f, raw[|raw| - 1]);
      SpaceGlyphsAppend(GlyphsOf(f, p), GlyphFor(f, raw[|raw| - 1]));
      assert GlyphsOf(f, raw) == GlyphsOf(f, p) + [GlyphFor(f, raw[|raw| - 1])];
    }
  }

  /**
   * A text object built by CreateTextObject from a font whose slots hold
   * their ids lays out without a fault: every space glyph comes from a space,
   * and each one moves to a word whose width CreateTextObject stored.
   */
  lemma CreatedTextLaysOut(f: Font, raw: CString, size: int, x: int, y: int, r: Rect, lh: int)
    requires TextObjectOf(f, raw, size, x, y).Some? && SlotsHoldIds(f)
    ensures TextObjectOf(f, raw, size, x, y).value.scale.den > 0
    ensures TextMeshOf(TextObjectOf(f, raw, size, x, y).value, r, lh).Some?
  {
    var t := TextObjectOf(f, raw, size, x, y).value;
    SpaceGlyphsAtMost(f, raw);
    assert t.text == GlyphsOf(f, raw);
    assert t.text[0..] == t.text;
    NoFaultWithinWords(t, t.xStart + r.x, r.x + r.w, lh, Cursor(t.xStart + r.x, t.yStart + r.y, 0), 0);
  }

  /**
   * Every text object created from a font that SL_BuilderSetFont loaded
   * into the zeroed globals lays out without a fault.
   */
  lemma LoadedTextLaysOut(lines: seq<Line>, raw: CString, size: int, x: int, y: int, r: Rect, lh: int)
    requires ApplyAll(NO_FONT, lines).Some?
    requires TextObjectOf(ApplyAll(NO_FONT, lines).value, raw, size, x, y).Some?
    ensures TextMeshOf(TextObjectOf(ApplyAll(NO_FONT, lines).value, raw, size, x, y).value, r, lh).Some?
  {
    LoadedSlotsHoldIds(NO_FONT, lines);
    CreatedTextLaysOut(ApplyAll(NO_FONT, lines).value, raw, size, x, y, r, lh);
  }
}
