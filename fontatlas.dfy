/**
 * The bitmap-font atlas of Sliggy.c: the handling of the `chars`, `info`,
 * `common` and `char` records of an AngelCode .fnt text file in
 * SL_BuilderSetFont, which fills the library's font globals.
 *
 * A line arrives already split: its tag, then the tokens strtok yields when it
 * splits the rest at spaces and '='. The pair loop of a record reads tokens
 * two at a time as key and value. A record the code handles through undefined
 * behaviour (strcmp or atoi on NULL, an uninitialised local, a write outside
 * the glyph array, calloc of a negative count) is reported as a fault.
 */
module FontAtlas {
  import opened Wrappers
  import opened CTypes
  import opened Sdl

  /**
   * SL_Glyph: the glyph's rectangle on the atlas texture, its signed-char
   * offsets, its unsigned-char advance, the signed char of its id, and its UVs
   * as exact quotients of texture coordinates by the texture size.
   */
  datatype Glyph = Glyph(src: Rect, xOffset: int, yOffset: int, xAdvance: int, rawChar: int,
                         uMin: Ratio, uMax: Ratio, vMin: Ratio, vMax: Ratio)

  /** A glyph as calloc leaves it: every field zero. */
  const ZERO_GLYPH: Glyph := Glyph(Rect(0, 0, 0, 0), 0, 0, 0, 0, Ratio(0, 1), Ratio(0, 1), Ratio(0, 1), Ratio(0, 1))

  /**
   * The font globals: font_start, Glyphs (font_count is its length),
   * font_size, font_tex_width, font_tex_height and lineHeight.
   */
  datatype Font = Font(start: int, glyphs: seq<Glyph>, size: int, texW: int, texH: int, lineHeight: int)

  /** The globals before a font is loaded: all zero, Glyphs NULL (no glyph can be written). */
  const NO_FONT: Font := Font(0, [], 0, 0, 0, 0)

  /** One line of the .fnt file: the tag, then the key and value tokens. */
  type Line = seq<string>

  const INFO_KEYS: seq<string> := ["size"]
  const COMMON_KEYS: seq<string> := ["scaleW", "scaleH", "lineHeight"]
  const CHAR_KEYS: seq<string> := ["id", "x", "y", "width", "height", "xoffset", "yoffset", "xadvance"]

  /** The locals of a `char` record before its pair loop: all uninitialised. */
  const NO_FIELDS: seq<Option<int>> := [None, None, None, None, None, None, None, None]

  /** The branch of a pair loop's if-else chain that a key takes: |keys| when it matches none. */
  function KeyIndex(keys: seq<string>, t: string): (k: nat)
    ensures k <= |keys|
    ensures k < |keys| ==> keys[k] == t
    ensures k == |keys| ==> t !in keys
  {
    if |keys| == 0 then 0
    else if keys[0] == t then 0
    else 1 + KeyIndex(keys[1..], t)
  }

  function ValueOr(o: Option<int>, d: int): int
  {
    if o.Some? then o.value else d
  }

  /**
   * The pair loop from token i on: a key that matches keys[k] sets variable k
   * to the atoi reading of the token after it; a matching key with no token
   * after it hands NULL to atoi (None). vals[k] is None while variable k is
   * still uninitialised.
   */
  function ScanFrom(line: Line, i: nat, keys: seq<string>, vals: seq<Option<int>>): (r: Option<seq<Option<int>>>)
    requires |vals| == |keys|
    ensures r.Some? ==> |r.value| == |keys|
    decreases |line| - i
  {
    if i >= |line| then Some(vals)
    else
      var k := KeyIndex(keys, line[i]);
      if k == |keys| then ScanFrom(line, i + 2, keys, vals)
      else if i + 1 == |line| then None
      else ScanFrom(line, i + 2, keys, vals[k := Some(Atoi(line[i + 1]))])
  }

  /** font_start after the `char` pair loop from token i: each `id` sets it while it is still 0. */
  function StartFrom(line: Line, i: nat, start: int): int
    decreases |line| - i
  {
    if i >= |line| then start
    else if line[i] == "id" && i + 1 < |line| && start == 0 then StartFrom(line, i + 2, Atoi(line[i + 1]))
    else StartFrom(line, i + 2, start)
  }

  /** The glyph a `char` record builds from its fields and the texture size; the V range is taken from y+h down to y. */
  function MakeGlyph(id: int, x: int, y: int, w: int, h: int, xoff: int, yoff: int, xadv: int,
                     texW: int, texH: int): Glyph
  {
    Glyph(Rect(x, y, w, h), ToSChar(xoff), ToSChar(yoff), ToUChar(xadv), ToSChar(id),
          Ratio(x, texW), Ratio(x + w, texW), Ratio(y + h, texH), Ratio(y, texH))
  }

  /**
   * The font after one line of the file is handled, or None when the line is
   * handled through undefined behaviour. An unrecognised tag changes nothing.
   */
  function Apply(f: Font, line: Line): Option<Font>
  {
    if |line| == 0 then None
    else if line[0] == "chars" then
      if |line| < 3 || Atoi(line[2]) < 0 then None
      else Some(f.(glyphs := seq(Atoi(line[2]), _ => ZERO_GLYPH)))
    else if line[0] != "info" && line[0] != "common" && line[0] != "char" then Some(f)
    else if |line| < 2 then None
    else if line[0] == "info" then
      match ScanFrom(line, 1, INFO_KEYS, [Some(f.size)])
      case None => None
      case Some(v) => Some(f.(size := ValueOr(v[0], f.size)))
    else if line[0] == "common" then
      match ScanFrom(line, 1, COMMON_KEYS, [Some(f.texW), Some(f.texH), Some(f.lineHeight)])
      case None => None
      case Some(v) => Some(f.(texW := ValueOr(v[0], f.texW), texH := ValueOr(v[1], f.texH),
                              lineHeight := ValueOr(v[2], f.lineHeight)))
    else
      match ScanFrom(line, 1, CHAR_KEYS, NO_FIELDS)
      case None => None
      case Some(v) => StoreChar(f, v, StartFrom(line, 1, f.start))
  }

  /**
   * The end of a `char` record: every field must have been given, and the
   * glyph is written at id - font_start, which must lie inside Glyphs.
   */
  function StoreChar(f: Font, v: seq<Option<int>>, start: int): Option<Font>
    requires |v| == |CHAR_KEYS|
  {
    if None in v then None
    else
      var idx := v[0].value - start;
      if 0 <= idx < |f.glyphs| then
        var g := MakeGlyph(v[0].value, v[1].value, v[2].value, v[3].value, v[4].value,
                           v[5].value, v[6].value, v[7].value, f.texW, f.texH);
        Some(f.(start := start, glyphs := f.glyphs[idx := g]))
      else None
  }

  /** The font after the lines in order; None from the first line handled through undefined behaviour. */
  function ApplyAll(f: Font, lines: seq<Line>): Option<Font>
    decreases |lines|
  {
    if |lines| == 0 then Some(f)
    else match Apply(f, lines[0])
      case None => None
      case Some(g) => ApplyAll(g, lines[1..])
  }

  /** The font globals, updated in place as the file is read. */
  class Atlas {
    var start: int
    var count: int
    var glyphs: array<Glyph>
    var size: int
    var texW: int
    var texH: int
    var lineHeight: int

    ghost predicate Valid()
      reads this
    {
      count == glyphs.Length
    }

    function State(): Font
      reads this, glyphs
    {
      Font(start, glyphs[..], size, texW, texH, lineHeight)
    }

    constructor ()
      ensures Valid() && State() == NO_FONT
    {
      start := 0;
      count := 0;
      glyphs := new Glyph[0];
      size := 0;
      texW := 0;
      texH := 0;
      lineHeight := 0;
    }

    /** The body of SL_BuilderSetFont's read loop for one line. */
    method ProcessLine(line: Line) returns (ok: bool)
      requires Valid()
      modifies this, glyphs
      ensures Valid() && (glyphs == old(glyphs) || fresh(glyphs))
      ensures ok == Apply(old(State()), line).Some?
      ensures ok ==> State() == Apply(old(State()), line).value
    {
      if |line| == 0 {
        return false;
      }
      var tag := line[0];
      if tag == "chars" {
        if |line| < 3 {
          return false;
        }
        var n := Atoi(line[2]);
        if n < 0 {
          return false;
        }
        count := n;
        glyphs := new Glyph[n](_ => ZERO_GLYPH);
        assert glyphs[..] == seq(n, _ => ZERO_GLYPH);
        return true;
      }
      if tag != "info" && tag != "common" && tag != "char" {
        return true;
      }
      if |line| < 2 {
        return false;
      }
      if tag == "info" {
        ok := ReadInfo(line);
      } else if tag == "common" {
        ok := ReadCommon(line);
      } else {
        ok := ReadChar(line);
      }
    }

    /** The `info` record: only `size` is kept. */
    method ReadInfo(line: Line) returns (ok: bool)
      requires Valid() && |line| >= 2 && line[0] == "info"
      modifies this
      ensures Valid() && glyphs == old(glyphs)
      ensures ok == Apply(old(State()), line).Some?
      ensures ok ==> State() == Apply(old(State()), line).value
    {
      var i := 1;
      while i < |line|
        invariant 1 <= i <= |line| + 1
        invariant glyphs == old(glyphs) && count == old(count) && start == old(start)
        invariant texW == old(texW) && texH == old(texH) && lineHeight == old(lineHeight)
        invariant ScanFrom(line, i, INFO_KEYS, [Some(size)]) == ScanFrom(line, 1, INFO_KEYS, [Some(old(size))])
        decreases |line| - i
      {
        ghost var vals := [Some(size)];
        assert line[i] != "size" ==> KeyIndex(INFO_KEYS, line[i]) == 1;
        if line[i] == "size" {
          assert KeyIndex(INFO_KEYS, line[i]) == 0;
          if i + 1 == |line| {
            return false;
          }
          size := Atoi(line[i + 1]);
          assert [Some(size)] == vals[0 := Some(Atoi(line[i + 1]))];
        }
        i := i + 2;
      }
      return true;
    }

    /** The `common` record: `scaleW`, `scaleH` and `lineHeight` are kept. */
    method ReadCommon(line: Line) returns (ok: bool)
      requires Valid() && |line| >= 2 && line[0] == "common"
      modifies this
      ensures Valid() && glyphs == old(glyphs)
      ensures ok == Apply(old(State()), line).Some?
      ensures ok ==> State() == Apply(old(State()), line).value
    {
      var i := 1;
      while i < |line|
        invariant 1 <= i <= |line| + 1
        invariant glyphs == old(glyphs) && count == old(count) && start == old(start) && size == old(size)
        invariant ScanFrom(line, i, COMMON_KEYS, [Some(texW), Some(texH), Some(lineHeight)])
               == ScanFrom(line, 1, COMMON_KEYS, [Some(old(texW)), Some(old(texH)), Some(old(lineHeight))])
        decreases |line| - i
      {
        var key := line[i];
        ghost var vals := [Some(texW), Some(texH), Some(lineHeight)];
        ghost var k := KeyIndex(COMMON_KEYS, key);
        if key == "scaleW" || key == "scaleH" || key == "lineHeight" {
          if i + 1 == |line| {
            return false;
          }
          var v := Atoi(line[i + 1]);
          if key == "scaleW" {
            assert k == 0;
            texW := v;
          } else if key == "scaleH" {
            assert k == 1;
            texH := v;
          } else {
            assert k == 2;
            lineHeight := v;
          }
          assert [Some(texW), Some(texH), Some(lineHeight)] == vals[k := Some(v)];
        } else {
          assert k == 3;
        }
        i := i + 2;
      }
      return true;
    }

    /** The `char` record: one glyph, stored at id - font_start. */
    method ReadChar(line: Line) returns (ok: bool)
      requires Valid() && |line| >= 2 && line[0] == "char"
      modifies this, glyphs
      ensures Valid() && glyphs == old(glyphs)
      ensures ok == Apply(old(State()), line).Some?
      ensures ok ==> State() == Apply(old(State()), line).value
    {
      var fields;
      ok, fields := ScanChar(line);
      if !ok {
        return false;
      }
      ok := Store(fields);
    }

    /**
     * The pair loop of a `char` record. fields[k] is the record's local for
     * CHAR_KEYS[k] (id, x, y, width, height, xoffset, yoffset, xadvance), None
     * while unassigned; an `id` also sets font_start while it is 0.
     */
    method ScanChar(line: Line) returns (ok: bool, fields: seq<Option<int>>)
      requires |line| >= 2 && line[0] == "char"
      modifies this
      ensures glyphs == old(glyphs) && count == old(count) && size == old(size)
      ensures texW == old(texW) && texH == old(texH) && lineHeight == old(lineHeight)
      ensures ok == ScanFrom(line, 1, CHAR_KEYS, NO_FIELDS).Some?
      ensures ok ==> fields == ScanFrom(line, 1, CHAR_KEYS, NO_FIELDS).value
      ensures ok ==> start == StartFrom(line, 1, old(start))
    {
      fields := NO_FIELDS;
      var i := 1;
      while i < |line|
        invariant 1 <= i <= |line| + 1 && |fields| == |CHAR_KEYS|
        invariant glyphs == old(glyphs) && count == old(count) && size == old(size)
        invariant texW == old(texW) && texH == old(texH) && lineHeight == old(lineHeight)
        invariant ScanFrom(line, i, CHAR_KEYS, fields) == ScanFrom(line, 1, CHAR_KEYS, NO_FIELDS)
        invariant StartFrom(line, i, start) == StartFrom(line, 1, old(start))
        decreases |line| - i
      {
        // k is the branch of the strcmp chain the key takes; |CHAR_KEYS| when it matches no key
        var k := KeyIndex(CHAR_KEYS, line[i]);
        if k < |CHAR_KEYS| {
          if i + 1 == |line| {
            return false, [];
          }
          var v := Atoi(line[i + 1]);
          fields := fields[k := Some(v)];
          if k == 0 && start == 0 {
            start := v;
          }
        }
        i := i + 2;
      }
      return true, fields;
    }

    /** Writes the glyph of a scanned `char` record into Glyphs. */
    method Store(fields: seq<Option<int>>) returns (ok: bool)
      requires Valid() && |fields| == |CHAR_KEYS|
      modifies glyphs
      ensures ok == StoreChar(old(State()), fields, start).Some?
      ensures ok ==> State() == StoreChar(old(State()), fields, start).value
    {
      if None in fields {
        return false;
      }
      var idx := fields[0].value - start;
      if idx < 0 || idx >= glyphs.Length {
        return false;
      }
      glyphs[idx] := MakeGlyph(fields[0].value, fields[1].value, fields[2].value, fields[3].value,
                               fields[4].value, fields[5].value, fields[6].value, fields[7].value, texW, texH);
      return true;
    }

    /** SL_BuilderSetFont's read loop over the lines of the file. */
    method LoadFont(lines: seq<Line>) returns (ok: bool)
      requires Valid()
      modifies this, glyphs
      ensures Valid() && (glyphs == old(glyphs) || fresh(glyphs))
      ensures ok == ApplyAll(old(State()), lines).Some?
      ensures ok ==> State() == ApplyAll(old(State()), lines).value
    {
      var i := 0;
      while i < |lines|
        invariant 0 <= i <= |lines|
        invariant Valid() && (glyphs == old(glyphs) || fresh(glyphs))
        invariant ApplyAll(State(), lines[i..]) == ApplyAll(old(State()), lines)
      {
        ok := ProcessLine(lines[i]);
        if !ok {
          return false;
        }
        assert lines[i..][1..] == lines[i + 1..];
        i := i + 1;
      }
      return true;
    }
  }
}

/** Properties of the font-record handling. */
module FontAtlasProperties {
  import opened Wrappers
  import opened CTypes
  import opened Sdl
  import opened FontAtlas

  // ------------------------------------------------------- the pair loop

  /** A pair loop faults exactly when the line ends on a recognised key that has no value token. */
  lemma {:induction false} ScanFaults(line: Line, i: nat, keys: seq<string>, vals: seq<Option<int>>)
    requires |vals| == |keys|
    ensures ScanFrom(line, i, keys, vals).None? <==>
      (i < |line| && (|line| - 1 - i) % 2 == 0 && KeyIndex(keys, line[|line| - 1]) < |keys|)
    decreases |line| - i
  {
    if i < |line| {
      var k := KeyIndex(keys, line[i]);
      if k == |keys| {
        ScanFaults(line, i + 2, keys, vals);
      } else if i + 1 < |line| {
        ScanFaults(line, i + 2, keys, vals[k := Some(Atoi(line[i + 1]))]);
      }
    }
  }

  /** A variable whose key appears at no key position keeps the value it had. */
  lemma {:induction false} ScanUntouched(line: Line, i: nat, keys: seq<string>, vals: seq<Option<int>>, k: nat)
    requires |vals| == |keys| && k < |keys|
    requires forall q :: i <= q < |line| && (q - i) % 2 == 0 ==> KeyIndex(keys, line[q]) != k
    requires ScanFrom(line, i, keys, vals).Some?
    ensures ScanFrom(line, i, keys, vals).value[k] == vals[k]
    decreases |line| - i
  {
    if i < |line| {
      var j := KeyIndex(keys, line[i]);
      assert j != k;
      forall q | i + 2 <= q < |line| && (q - (i + 2)) % 2 == 0
        ensures KeyIndex(keys, line[q]) != k
      {
        assert (q - i) % 2 == 0;
      }
      if j == |keys| {
        ScanUntouched(line, i + 2, keys, vals, k);
      } else {
        ScanUntouched(line, i + 2, keys, vals[j := Some(Atoi(line[i + 1]))], k);
      }
    }
  }

  /** The last key position p that names variable k decides it: atoi of the token after p. */
  lemma {:induction false} ScanLastWins(line: Line, i: nat, keys: seq<string>, vals: seq<Option<int>>, p: nat, k: nat)
    requires |vals| == |keys| && k < |keys|
    requires i <= p && p + 1 < |line| && (p - i) % 2 == 0 && KeyIndex(keys, line[p]) == k
    requires forall q :: p < q < |line| && (q - p) % 2 == 0 ==> KeyIndex(keys, line[q]) != k
    requires ScanFrom(line, i, keys, vals).Some?
    ensures ScanFrom(line, i, keys, vals).value[k] == Some(Atoi(line[p + 1]))
    decreases |line| - i
  {
    var j := KeyIndex(keys, line[i]);
    var next := if j == |keys| then vals else vals[j := Some(Atoi(line[i + 1]))];
    ScanStep(line, i, keys, vals);
    if i == p {
      forall q | p + 2 <= q < |line| && (q - (p + 2)) % 2 == 0
        ensures KeyIndex(keys, line[q]) != k
      {
        assert (q - p) % 2 == 0;
      }
      ScanUntouched(line, p + 2, keys, next, k);
    } else {
      assert i + 2 <= p && (p - (i + 2)) % 2 == 0;
      ScanLastWins(line, i + 2, keys, next, p, k);
    }
  }

  /** One pass of the pair loop at a key with a token after it. */
  lemma ScanStep(line: Line, i: nat, keys: seq<string>, vals: seq<Option<int>>)
    requires |vals| == |keys| && i + 1 < |line|
    ensures var j := KeyIndex(keys, line[i]);
      ScanFrom(line, i, keys, vals) ==
      ScanFrom(line, i + 2, keys, if j == |keys| then vals else vals[j := Some(Atoi(line[i + 1]))])
  {
  }

  // ------------------------------------------------------------ font_start

  lemma {:induction false} StartStays(line: Line, i: nat, start: int)
    requires start != 0
    ensures StartFrom(line, i, start) == start
    decreases |line| - i
  {
    if i < |line| {
      StartStays(line, i + 2, start);
    }
  }

  /** Once font_start is non-zero, no line of the file changes it. */
  lemma FontStartSetOnce(f: Font, line: Line)
    requires f.start != 0 && Apply(f, line).Some?
    ensures Apply(f, line).value.start == f.start
  {
    StartStays(line, 1, f.start);
  }

  /** While font_start is 0, a record whose first pair is a non-zero id sets it to that id. */
  lemma FirstIdSetsStart(line: Line)
    requires |line| >= 3 && line[1] == "id" && Atoi(line[2]) != 0
    ensures StartFrom(line, 1, 0) == Atoi(line[2])
  {
    StartStays(line, 3, Atoi(line[2]));
  }

  // ------------------------------------------------ a rendered char record

  /** The fields of a `char` record as a BMFont file writes them. */
  datatype CharRecord = CharRecord(id: int, x: int, y: int, width: int, height: int,
                                   xoffset: int, yoffset: int, xadvance: int)

  /** The record's values in the order of CHAR_KEYS. */
  function Values(c: CharRecord): (vs: seq<int>)
    ensures |vs| == |CHAR_KEYS|
  {
    [c.id, c.x, c.y, c.width, c.height, c.xoffset, c.yoffset, c.xadvance]
  }

  /** Each key followed by its value written in decimal. */
  function Pairs(keys: seq<string>, vs: seq<int>): (p: seq<string>)
    requires |keys| == |vs|
    ensures |p| == 2 * |keys|
  {
    if keys == [] then [] else [keys[0], Decimal(vs[0])] + Pairs(keys[1..], vs[1..])
  }

  /** The record's line as the loader receives it: the tag, then the eight key=value pairs. */
  function CharLine(c: CharRecord): Line
  {
    ["char"] + Pairs(CHAR_KEYS, Values(c))
  }

  function GlyphOf(c: CharRecord, f: Font): Glyph
  {
    MakeGlyph(c.id, c.x, c.y, c.width, c.height, c.xoffset, c.yoffset, c.xadvance, f.texW, f.texH)
  }

  lemma {:induction false} PairsAt(keys: seq<string>, vs: seq<int>, k: nat)
    requires |keys| == |vs| && k < |keys|
    ensures Pairs(keys, vs)[2 * k] == keys[k] && Pairs(keys, vs)[2 * k + 1] == Decimal(vs[k])
  {
    if k > 0 {
      PairsAt(keys[1..], vs[1..], k - 1);
    }
  }

  /** Where the k-th key and its value sit in a record's line. */
  lemma CharLineAt(c: CharRecord, k: nat)
    requires k < 8
    ensures |CharLine(c)| == 17 && CharLine(c)[0] == "char"
    ensures CharLine(c)[1 + 2 * k] == CHAR_KEYS[k] && CharLine(c)[2 + 2 * k] == Decimal(Values(c)[k])
  {
    PairsAt(CHAR_KEYS, Values(c), k);
  }

  /** One pass of the `char` pair loop over the k-th key in its usual place. */
  lemma CharPairStep(line: Line, k: nat, v: seq<Option<int>>)
    requires k < 8 && |v| == 8 && 2 + 2 * k < |line| && line[1 + 2 * k] == CHAR_KEYS[k]
    ensures ScanFrom(line, 1 + 2 * k, CHAR_KEYS, v) ==
            ScanFrom(line, 3 + 2 * k, CHAR_KEYS, v[k := Some(Atoi(line[2 + 2 * k]))])
  {
    KeyOrder(k);
  }

  /** The eight fields of a record, as the pair loop leaves them. */
  function Fields(c: CharRecord): (v: seq<Option<int>>)
    ensures |v| == 8 && None !in v
  {
    seq(8, j requires 0 <= j < 8 => Some(Values(c)[j]))
  }

  /** The pair loop over a record's line reads back every field. */
  lemma CharLineFields(c: CharRecord)
    ensures ScanFrom(CharLine(c), 1, CHAR_KEYS, NO_FIELDS) == Some(Fields(c))
  {
    var line := CharLine(c);
    var v := NO_FIELDS;
    var k := 0;
    while k < 8
      invariant 0 <= k <= 8 && |v| == 8
      invariant forall j :: 0 <= j < k ==> v[j] == Some(Values(c)[j])
      invariant ScanFrom(line, 1 + 2 * k, CHAR_KEYS, v) == ScanFrom(line, 1, CHAR_KEYS, NO_FIELDS)
    {
      CharLineAt(c, k);
      AtoiDecimal(Values(c)[k]);
      CharPairStep(line, k, v);
      v := v[k := Some(Values(c)[k])];
      k := k + 1;
    }
    CharLineAt(c, 0);
    assert v == Fields(c);
  }

  /** A `char` line goes through the pair loop and then stores its glyph. */
  lemma ApplyCharLine(f: Font, line: Line)
    requires |line| >= 2 && line[0] == "char"
    ensures Apply(f, line) ==
      match ScanFrom(line, 1, CHAR_KEYS, NO_FIELDS)
      case None => None
      case Some(v) => StoreChar(f, v, StartFrom(line, 1, f.start))
  {
  }

  /** Storing a record's fields writes its glyph at id - start, inside Glyphs. */
  lemma StoreFields(f: Font, c: CharRecord, start: int)
    ensures StoreChar(f, Fields(c), start) ==
      if 0 <= c.id - start < |f.glyphs| then Some(f.(start := start, glyphs := f.glyphs[c.id - start := GlyphOf(c, f)]))
      else None
  {
    var v := Fields(c);
    var vs := Values(c);
    assert vs == [c.id, c.x, c.y, c.width, c.height, c.xoffset, c.yoffset, c.xadvance];
    assert forall j :: 0 <= j < 8 ==> v[j] == Some(vs[j]);
    assert v[0].value == c.id && v[1].value == c.x && v[2].value == c.y && v[3].value == c.width;
    assert v[4].value == c.height && v[5].value == c.xoffset && v[6].value == c.yoffset && v[7].value == c.xadvance;
  }

  /** Each char key takes its own branch of the strcmp chain. */
  lemma KeyOrder(k: nat)
    requires k < 8
    ensures KeyIndex(CHAR_KEYS, CHAR_KEYS[k]) == k
  {
  }

  /**
   * A well-formed char record: font_start becomes the id if it was still 0,
   * and the glyph built from the record's fields lands at id - font_start
   * with every other glyph unchanged; an index outside Glyphs is a fault.
   */
  lemma CharLineStoresGlyph(f: Font, c: CharRecord)
    ensures
      var start := if f.start == 0 then c.id else f.start;
      var idx := c.id - start;
      Apply(f, CharLine(c)) ==
        if 0 <= idx < |f.glyphs| then Some(f.(start := start, glyphs := f.glyphs[idx := GlyphOf(c, f)]))
        else None
  {
    var l := CharLine(c);
    CharLineFields(c);
    ApplyCharLine(f, l);
    AtoiDecimal(c.id);
    var start := if f.start == 0 then c.id else f.start;
    CharLineStart(c, f.start);
    StoreFields(f, c, start);
  }

  /** The id of a record sets font_start when it is still 0, and nothing else does. */
  lemma CharLineStart(c: CharRecord, start: int)
    ensures StartFrom(CharLine(c), 1, start) == if start == 0 then c.id else start
  {
    var l := CharLine(c);
    AtoiDecimal(c.id);
    CharLineAt(c, 0);
    if start != 0 {
      StartStays(l, 1, start);
    } else if c.id != 0 {
      FirstIdSetsStart(l);
    } else {
      assert StartFrom(l, 1, 0) == StartFrom(l, 3, 0);
      for k := 1 to 8
        invariant StartFrom(l, 1 + 2 * k, 0) == StartFrom(l, 1, 0)
      {
        CharLineAt(c, k);
        PairSkipped(l, 1 + 2 * k);
      }
    }
  }

  /** A pair whose key is not `id` leaves font_start as it is. */
  lemma PairSkipped(line: Line, i: nat)
    requires i < |line| && line[i] != "id"
    ensures StartFrom(line, i, 0) == StartFrom(line, i + 2, 0)
  {
  }

  /** The first two glyphs of a font whose ids are consecutive and non-zero land at indices 0 and 1. */
  lemma ConsecutiveGlyphs(a: CharRecord, b: CharRecord)
    requires a.id != 0 && b.id == a.id + 1
    ensures ApplyAll(NO_FONT, [["chars", "count", "2"], CharLine(a), CharLine(b)]) ==
      Some(Font(a.id, [GlyphOf(a, NO_FONT), GlyphOf(b, NO_FONT)], 0, 0, 0, 0))
  {
    var lines: seq<Line> := [["chars", "count", "2"], CharLine(a), CharLine(b)];
    var f1 := NO_FONT.(glyphs := [ZERO_GLYPH, ZERO_GLYPH]);
    assert Atoi("2") == 2;
    assert seq(2, _ => ZERO_GLYPH) == [ZERO_GLYPH, ZERO_GLYPH];
    assert Apply(NO_FONT, lines[0]) == Some(f1);
    CharLineStoresGlyph(f1, a);
    var f2 := f1.(start := a.id, glyphs := [GlyphOf(a, f1), ZERO_GLYPH]);
    assert f1.glyphs[0 := GlyphOf(a, f1)] == f2.glyphs;
    assert Apply(f1, lines[1]) == Some(f2);
    CharLineStoresGlyph(f2, b);
    assert f2.glyphs[1 := GlyphOf(b, f2)] == [GlyphOf(a, f1), GlyphOf(b, f2)];
    var f3 := f2.(glyphs := [GlyphOf(a, f1), GlyphOf(b, f2)]);
    assert Apply(f2, lines[2]) == Some(f3);
    assert ApplyAll(f2, [lines[2]]) == Some(f3) by {
      assert [lines[2]][1..] == [];
    }
    assert lines[1..][1..] == [lines[2]];
    assert ApplyAll(f1, lines[1..]) == Some(f3);
  }

  /**
   * font_start uses 0 for "not yet set", so a first glyph with id 0 leaves it
   * unset: the next glyph fixes font_start at its own id and is stored at
   * index 0, over the glyph of id 0.
   */
  lemma ZeroIdGlyphOverwritten(a: CharRecord, b: CharRecord)
    requires a.id == 0 && b.id != 0
    ensures ApplyAll(NO_FONT, [["chars", "count", "2"], CharLine(a), CharLine(b)]) ==
      Some(Font(b.id, [GlyphOf(b, NO_FONT), ZERO_GLYPH], 0, 0, 0, 0))
  {
    var lines: seq<Line> := [["chars", "count", "2"], CharLine(a), CharLine(b)];
    var f1 := NO_FONT.(glyphs := [ZERO_GLYPH, ZERO_GLYPH]);
    assert Atoi("2") == 2;
    assert seq(2, _ => ZERO_GLYPH) == [ZERO_GLYPH, ZERO_GLYPH];
    assert Apply(NO_FONT, lines[0]) == Some(f1);
    CharLineStoresGlyph(f1, a);
    var f2 := f1.(glyphs := [GlyphOf(a, f1), ZERO_GLYPH]);
    assert f1.glyphs[0 := GlyphOf(a, f1)] == f2.glyphs;
    assert Apply(f1, lines[1]) == Some(f2);
    CharLineStoresGlyph(f2, b);
    assert f2.glyphs[0 := GlyphOf(b, f2)] == [GlyphOf(b, f2), ZERO_GLYPH];
    var f3 := f2.(start := b.id, glyphs := [GlyphOf(b, f2), ZERO_GLYPH]);
    assert Apply(f2, lines[2]) == Some(f3);
    assert ApplyAll(f2, [lines[2]]) == Some(f3) by {
      assert [lines[2]][1..] == [];
    }
    assert lines[1..][1..] == [lines[2]];
    assert ApplyAll(f1, lines[1..]) == Some(f3);
  }

  /** A `chars` line: the one record that allocates Glyphs. */
  predicate IsCharsLine(line: Line)
  {
    |line| > 0 && line[0] == "chars"
  }

  /** A `chars` line whose count token reads as n. */
  predicate Declares(line: Line, n: nat)
  {
    |line| >= 3 && line[0] == "chars" && Atoi(line[2]) == n
  }

  /** Every line other than `chars` keeps the number of glyphs: a `char` store replaces one slot. */
  lemma ApplyKeepsGlyphCount(f: Font, line: Line)
    requires !IsCharsLine(line)
    ensures Apply(f, line).Some? ==> |Apply(f, line).value.glyphs| == |f.glyphs|
  {
    if |line| >= 2 && line[0] == "char" {
      match ScanFrom(line, 1, CHAR_KEYS, NO_FIELDS)
      case None =>
      case Some(v) =>
        assert Apply(f, line) == StoreChar(f, v, StartFrom(line, 1, f.start));
    }
  }

  /** Lines without a `chars` record, applied in order, keep the number of glyphs. */
  lemma {:induction false} ApplyAllKeepsGlyphCount(f: Font, lines: seq<Line>)
    requires forall i :: 0 <= i < |lines| ==> !IsCharsLine(lines[i])
    ensures ApplyAll(f, lines).Some? ==> |ApplyAll(f, lines).value.glyphs| == |f.glyphs|
    decreases |lines|
  {
    if |lines| > 0 {
      ApplyKeepsGlyphCount(f, lines[0]);
      if Apply(f, lines[0]).Some? {
        ApplyAllKeepsGlyphCount(Apply(f, lines[0]).value, lines[1..]);
      }
    }
  }

  /** The lines of a + b: those of a, then those of b from where a left the font. */
  lemma {:induction false} ApplyAllAppend(f: Font, a: seq<Line>, b: seq<Line>)
    ensures ApplyAll(f, a + b) ==
      match ApplyAll(f, a)
      case None => None
      case Some(g) => ApplyAll(g, b)
    decreases |a|
  {
    if |a| > 0 {
      assert (a + b)[0] == a[0] && (a + b)[1..] == a[1..] + b;
      if Apply(f, a[0]).Some? {
        ApplyAllAppend(Apply(f, a[0]).value, a[1..], b);
      }
    } else {
      assert a + b == b;
    }
  }

  /**
   * A file whose last `chars` record declares n glyphs ends, if it loads, with
   * exactly n glyphs, whatever `info`, `common` and `char` lines follow it.
   */
  lemma DeclaredGlyphCount(f: Font, before: seq<Line>, chars: Line, after: seq<Line>, n: nat)
    requires Declares(chars, n)
    requires forall i :: 0 <= i < |after| ==> !IsCharsLine(after[i])
    ensures ApplyAll(f, before + [chars] + after).Some? ==>
      |ApplyAll(f, before + [chars] + after).value.glyphs| == n
  {
    ApplyAllAppend(f, before + [chars], after);
    ApplyAllAppend(f, before, [chars]);
    match ApplyAll(f, before)
    case None =>
    case Some(g) =>
      assert [chars][1..] == [];
      if Apply(g, chars).Some? {
        ApplyAllKeepsGlyphCount(Apply(g, chars).value, after);
      }
  }

  // ------------------------------------------------ the char of each slot

  /**
   * Slot j of Glyphs holds a calloc'd glyph (char 0) or the glyph whose id is
   * font_start + j, narrowed to a char; while font_start is 0 every slot
   * holds char 0.
   */
  ghost predicate SlotsHoldIds(f: Font)
  {
    forall j :: 0 <= j < |f.glyphs| ==>
      f.glyphs[j].rawChar == 0 || (f.start != 0 && f.glyphs[j].rawChar == ToSChar(f.start + j))
  }

  /**
   * While font_start stays 0 through a `char` record's pair loop, the id the
   * loop reads last is 0 (or no id was given): each non-zero id sets font_start.
   */
  lemma {:induction false} IdWhileStartZero(line: Line, i: nat, start: int, vals: seq<Option<int>>)
    requires |vals| == |CHAR_KEYS| && (start == 0 ==> vals[0].None? || vals[0] == Some(0))
    requires ScanFrom(line, i, CHAR_KEYS, vals).Some?
    ensures StartFrom(line, i, start) == 0 ==>
      ScanFrom(line, i, CHAR_KEYS, vals).value[0].None? || ScanFrom(line, i, CHAR_KEYS, vals).value[0] == Some(0)
    decreases |line| - i
  {
    if i < |line| {
      var k := KeyIndex(CHAR_KEYS, line[i]);
      if k == |CHAR_KEYS| {
        assert line[i] != "id";
        IdWhileStartZero(line, i + 2, start, vals);
      } else {
        assert i + 1 < |line|;
        ScanStep(line, i, CHAR_KEYS, vals);
        var next := vals[k := Some(Atoi(line[i + 1]))];
        if k == 0 {
          assert line[i] == "id";
          if start == 0 {
            IdWhileStartZero(line, i + 2, Atoi(line[i + 1]), next);
          } else {
            IdWhileStartZero(line, i + 2, start, next);
          }
        } else {
          assert line[i] != "id";
          IdWhileStartZero(line, i + 2, start, next);
        }
      }
    }
  }

  /** Every line of the file keeps each slot's char tied to its index. */
  lemma ApplyKeepsSlotIds(f: Font, line: Line)
    requires SlotsHoldIds(f)
    ensures Apply(f, line).Some? ==> SlotsHoldIds(Apply(f, line).value)
  {
    if |line| >= 2 && line[0] == "char" {
      match ScanFrom(line, 1, CHAR_KEYS, NO_FIELDS)
      case None =>
      case Some(v) =>
        var start := StartFrom(line, 1, f.start);
        assert Apply(f, line) == StoreChar(f, v, start);
        if f.start != 0 {
          StartStays(line, 1, f.start);
        }
        IdWhileStartZero(line, 1, f.start, NO_FIELDS);
    }
  }

  /** A font read from a file, starting from globals whose slots hold their ids, keeps them so. */
  lemma {:induction false} LoadedSlotsHoldIds(f: Font, lines: seq<Line>)
    requires SlotsHoldIds(f)
    ensures ApplyAll(f, lines).Some? ==> SlotsHoldIds(ApplyAll(f, lines).value)
    decreases |lines|
  {
    if |lines| > 0 {
      ApplyKeepsSlotIds(f, lines[0]);
      if Apply(f, lines[0]).Some? {
        LoadedSlotsHoldIds(Apply(f, lines[0]).value, lines[1..]);
      }
    }
  }

  /** p/q < r/s for positive denominators. */
  predicate RatioLess(a: Ratio, b: Ratio)
  {
    a.num * b.den < b.num * a.den
  }

  /**
   * The V range of a glyph is flipped: for a glyph of positive height on a
   * texture of positive height, v_max lies above v_min; the U range runs
   * forward for a glyph of positive width.
   */
  lemma VRangeFlipped(c: CharRecord, f: Font)
    requires c.height > 0 && c.width > 0 && f.texW > 0 && f.texH > 0
    ensures RatioLess(GlyphOf(c, f).vMax, GlyphOf(c, f).vMin)
    ensures RatioLess(GlyphOf(c, f).uMin, GlyphOf(c, f).uMax)
  {
    var g := GlyphOf(c, f);
    assert g.vMin.num * g.vMax.den == c.y * f.texH + c.height * f.texH;
    assert g.uMax.num * g.uMin.den == c.x * f.texW + c.width * f.texW;
    assert c.height * f.texH > 0 && c.width * f.texW > 0 by {
      PositiveProduct(c.height, f.texH);
      PositiveProduct(c.width, f.texW);
    }
  }

  lemma PositiveProduct(a: int, b: int)
    requires a > 0 && b > 0
    ensures a * b > 0
  {
  }
}
