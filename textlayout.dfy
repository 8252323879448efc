/**
 * Text objects of Sliggy.c (CreateTextObject): the glyphs of a string copied
 * out of the loaded font, and the scaled width of each space-separated word,
 * which the draw pass reads to wrap ahead of a word.
 */
module TextLayout {
  import opened Wrappers
  import opened CTypes
  import opened FontAtlas

  /**
   * SL_TextObject: the glyphs of the text (`length` is |text|), the word
   * widths (`num_words` is |wordWidths|), the scale desired size / font size,
   * and the text's offset inside its element.
   */
  datatype TextObject = TextObject(text: seq<Glyph>, wordWidths: seq<int>, scale: Ratio, xStart: int, yStart: int)

  /** The number of space bytes in s. */
  function Spaces(s: seq<Byte>): (n: nat)
    ensures n <= |s|
  {
    if s == [] then 0 else Spaces(s[..|s| - 1]) + (if s[|s| - 1] == SPACE then 1 else 0)
  }

  /** s cut at every space: Spaces(s) + 1 words, none holding a space, some possibly empty. */
  function Split(s: seq<Byte>): (ws: seq<seq<Byte>>)
    ensures |ws| == Spaces(s) + 1
    ensures forall k :: 0 <= k < |ws| ==> SPACE !in ws[k]
  {
    if s == [] then [[]]
    else
      var ws := Split(s[..|s| - 1]);
      if s[|s| - 1] == SPACE then ws + [[]]
      else ws[..|ws| - 1] + [ws[|ws| - 1] + [s[|s| - 1]]]
  }

  /** The words joined back with one space between each two. */
  function Join(ws: seq<seq<Byte>>): seq<Byte>
  {
    if |ws| <= 1 then (if ws == [] then [] else ws[0])
    else Join(ws[..|ws| - 1]) + [SPACE] + ws[|ws| - 1]
  }

  /** getGlyph(c) reads Glyphs[c - font_start], c read as a signed char. */
  predicate HasGlyph(f: Font, b: Byte)
  {
    0 <= SChar(b) - f.start < |f.glyphs|
  }

  function GlyphFor(f: Font, b: Byte): Glyph
    requires HasGlyph(f, b)
  {
    f.glyphs[SChar(b) - f.start]
  }

  /** desired_size / font_size, written with a positive denominator when font_size is non-zero. */
  function ScaleOf(size: int, fontSize: int): (r: Ratio)
    ensures fontSize != 0 ==> r.den > 0 && r.num * fontSize == size * r.den
  {
    if fontSize > 0 then Ratio(size, fontSize) else Ratio(-size, -fontSize)
  }

  /** The sum of the truncated scaled advances of the word's glyphs. */
  function Width(f: Font, word: seq<Byte>, scale: Ratio): int
    requires scale.den > 0 && forall i :: 0 <= i < |word| ==> HasGlyph(f, word[i])
  {
    if word == [] then 0
    else Width(f, word[..|word| - 1], scale) + Scaled(GlyphFor(f, word[|word| - 1]).xAdvance, scale)
  }

  /** Every byte of s has a glyph in the font. */
  predicate AllGlyphs(f: Font, s: seq<Byte>)
  {
    forall i :: 0 <= i < |s| ==> HasGlyph(f, s[i])
  }

  /** Every byte of the text has a glyph and the scale is finite. */
  predicate Layable(f: Font, raw: seq<Byte>)
  {
    f.size != 0 && AllGlyphs(f, raw)
  }

  /** The width of every word of s, the last one included. */
  function WordWidthsOf(f: Font, s: seq<Byte>, scale: Ratio): (ws: seq<int>)
    requires scale.den > 0 && AllGlyphs(f, s)
    ensures |ws| == Spaces(s) + 1
  {
    seq(Spaces(s) + 1, k requires 0 <= k <= Spaces(s) =>
      SplitHasGlyphs(f, s, k); Width(f, Split(s)[k], scale))
  }

  /**
   * The word widths CreateTextObject leaves: the width of every word that a
   * space ends, and 0 for the last word, whose width is never stored.
   */
  function StoredWidths(f: Font, raw: seq<Byte>, scale: Ratio): (ws: seq<int>)
    requires scale.den > 0 && AllGlyphs(f, raw)
    ensures |ws| == Spaces(raw) + 1 && ws[Spaces(raw)] == 0
  {
    WordWidthsOf(f, raw, scale)[..Spaces(raw)] + [0]
  }

  /**
   * The text object built for raw, or None when building it reads outside
   * Glyphs or casts the infinite scale of a zero font size.
   */
  function TextObjectOf(f: Font, raw: CString, size: int, x: int, y: int): Option<TextObject>
  {
    if !Layable(f, raw) then None
    else
      var scale := ScaleOf(size, f.size);
      Some(TextObject(seq(|raw|, i requires 0 <= i < |raw| => GlyphFor(f, raw[i])),
                      StoredWidths(f, raw, scale), scale, x, y))
  }

  /** CreateTextObject, reading the font globals held by atlas. */
  method CreateTextObject(atlas: FontAtlas.Atlas, raw: CString, size: int, x: int, y: int) returns (res: Option<TextObject>)
    ensures res == TextObjectOf(atlas.State(), raw, size, x, y)
  {
    ghost var f := atlas.State();
    if atlas.size == 0 {
      return None;
    }
    var scale := ScaleOf(size, atlas.size);
    var length, numWords := CountWords(raw);
    var wordWidths := new int[numWords](_ => 0);
    var text := new Glyph[length](_ => ZERO_GLYPH);
    var currWordWidth := 0;
    var currWord := 0;
    assert raw[..0] == [];
    for i := 0 to length
      invariant AllGlyphs(f, raw[..i])
      invariant currWord == Spaces(raw[..i]) && currWord < numWords
      invariant text[..] == GlyphsOf(f, raw[..i]) + seq(length - i, _ => ZERO_GLYPH)
      invariant wordWidths[..] == Pending(f, raw[..i], scale, numWords)
      invariant currWordWidth == WordWidthsOf(f, raw[..i], scale)[currWord]
    {
      SpacesPrefix(raw, i);
      var g := SChar(raw[i]) - atlas.start;
      if g < 0 || g >= atlas.glyphs.Length {
        assert !AllGlyphs(f, raw);
        return None;
      }
      var glyph := atlas.glyphs[g];
      assert glyph == GlyphFor(f, raw[i]);
      currWord, currWordWidth := PlaceGlyph(f, raw, i, scale, glyph, text, wordWidths, currWord, currWordWidth);
    }
    assert raw[..length] == raw;
    LayoutDone(f, raw, scale);
    return Some(TextObject(text[..], wordWidths[..], scale, x, y));
  }

  /**
   * One round of CreateTextObject's glyph loop: glyph i is copied, and a
   * space stores the running width of the word it ends and starts the next.
   */
  method PlaceGlyph(ghost f: Font, raw: CString, i: int, scale: Ratio, glyph: Glyph,
                    text: array<Glyph>, wordWidths: array<int>, currWord: int, currWordWidth: int)
    returns (currWord': int, currWordWidth': int)
    requires 0 <= i < |raw| == text.Length && scale.den > 0
    requires AllGlyphs(f, raw[..i]) && HasGlyph(f, raw[i]) && glyph == GlyphFor(f, raw[i])
    requires Spaces(raw[..i + 1]) == Spaces(raw[..i]) + (if raw[i] == SPACE then 1 else 0)
    requires currWord == Spaces(raw[..i]) && Spaces(raw[..i + 1]) < wordWidths.Length
    requires text[..] == GlyphsOf(f, raw[..i]) + seq(|raw| - i, _ => ZERO_GLYPH)
    requires wordWidths[..] == Pending(f, raw[..i], scale, wordWidths.Length)
    requires currWordWidth == WordWidthsOf(f, raw[..i], scale)[currWord]
    modifies text, wordWidths
    ensures AllGlyphs(f, raw[..i + 1])
    ensures currWord' == Spaces(raw[..i + 1])
    ensures text[..] == GlyphsOf(f, raw[..i + 1]) + seq(|raw| - (i + 1), _ => ZERO_GLYPH)
    ensures wordWidths[..] == Pending(f, raw[..i + 1], scale, wordWidths.Length)
    ensures currWordWidth' == WordWidthsOf(f, raw[..i + 1], scale)[currWord']
  {
    LayoutStep(f, raw, i, scale, wordWidths.Length);
    text[i] := glyph;
    if raw[i] == SPACE {
      wordWidths[currWord] := currWordWidth;
      currWord', currWordWidth' := currWord + 1, 0;
    } else {
      currWord', currWordWidth' := currWord, currWordWidth + Scaled(glyph.xAdvance, scale);
    }
  }

  /** The first pass of CreateTextObject: the length of the text and one more than its spaces. */
  method CountWords(raw: CString) returns (length: nat, numWords: nat)
    ensures length == |raw| && numWords == Spaces(raw) + 1
  {
    length := 0;
    numWords := 1;
    while length < |raw|
      invariant 0 <= length <= |raw| && numWords == Spaces(raw[..length]) + 1
    {
      assert raw[..length + 1][..length] == raw[..length];
      if raw[length] == SPACE {
        numWords := numWords + 1;
      }
      length := length + 1;
    }
    assert raw[..length] == raw;
  }

  // ------------------------------------------------------------ helpers

  /** The glyphs of s, in order. */
  function GlyphsOf(f: Font, s: seq<Byte>): (gs: seq<Glyph>)
    requires AllGlyphs(f, s)
    ensures |gs| == |s|
  {
    seq(|s|, j requires 0 <= j < |s| => GlyphFor(f, s[j]))
  }

  /** The word widths stored after reading s: those of the words a space ended, then zeros. */
  function Pending(f: Font, s: seq<Byte>, scale: Ratio, n: nat): (ws: seq<int>)
    requires scale.den > 0 && AllGlyphs(f, s) && Spaces(s) < n
    ensures |ws| == n
  {
    WordWidthsOf(f, s, scale)[..Spaces(s)] + seq(n - Spaces(s), _ => 0)
  }

  /** One byte of the second pass of CreateTextObject, on the values its arrays hold. */
  lemma LayoutStep(f: Font, raw: seq<Byte>, i: nat, scale: Ratio, n: nat)
    requires i < |raw| && scale.den > 0 && AllGlyphs(f, raw[..i]) && HasGlyph(f, raw[i])
    requires Spaces(raw[..i + 1]) == Spaces(raw[..i]) + (if raw[i] == SPACE then 1 else 0)
    requires Spaces(raw[..i + 1]) < n
    ensures AllGlyphs(f, raw[..i + 1])
    ensures GlyphsOf(f, raw[..i + 1]) + seq(|raw| - (i + 1), _ => ZERO_GLYPH)
         == (GlyphsOf(f, raw[..i]) + seq(|raw| - i, _ => ZERO_GLYPH))[i := GlyphFor(f, raw[i])]
    ensures var c := Spaces(raw[..i]);
            var ws := WordWidthsOf(f, raw[..i], scale);
            var ws' := WordWidthsOf(f, raw[..i + 1], scale);
            if raw[i] == SPACE then
              Pending(f, raw[..i + 1], scale, n) == Pending(f, raw[..i], scale, n)[c := ws[c]] && ws'[c + 1] == 0
            else
              Pending(f, raw[..i + 1], scale, n) == Pending(f, raw[..i], scale, n)
              && ws'[c] == ws[c] + Scaled(GlyphFor(f, raw[i]).xAdvance, scale)
  {
    assert AllGlyphs(f, raw[..i + 1]) by {
      assert forall j :: 0 <= j < i ==> raw[..i + 1][j] == raw[..i][j];
    }
    SpacesPrefix(raw, i);
    WidthsStep(f, raw, i, scale);
    var gs := GlyphsOf(f, raw[..i]) + seq(|raw| - i, _ => ZERO_GLYPH);
    var gs' := GlyphsOf(f, raw[..i + 1]) + seq(|raw| - (i + 1), _ => ZERO_GLYPH);
    forall j | 0 <= j < |raw|
      ensures gs'[j] == gs[i := GlyphFor(f, raw[i])][j]
    {
      if j < i {
        assert raw[..i + 1][j] == raw[..i][j];
      }
    }
  }

  /** When the second pass ends, the arrays hold the text object's glyphs and widths. */
  lemma LayoutDone(f: Font, raw: seq<Byte>, scale: Ratio)
    requires scale.den > 0 && AllGlyphs(f, raw)
    ensures GlyphsOf(f, raw) + seq(0, _ => ZERO_GLYPH) == seq(|raw|, i requires 0 <= i < |raw| => GlyphFor(f, raw[i]))
    ensures Pending(f, raw, scale, Spaces(raw) + 1) == StoredWidths(f, raw, scale)
  {
  }

  lemma {:induction false} SpacesPrefix(raw: seq<Byte>, i: nat)
    requires i < |raw|
    ensures Spaces(raw[..i + 1]) == Spaces(raw[..i]) + (if raw[i] == SPACE then 1 else 0)
    ensures Spaces(raw[..i + 1]) <= Spaces(raw)
  {
    assert raw[..i + 1][..i] == raw[..i];
    SpacesMonotone(raw, i + 1);
  }

  lemma {:induction false} SpacesMonotone(raw: seq<Byte>, i: nat)
    requires i <= |raw|
    ensures Spaces(raw[..i]) <= Spaces(raw)
    decreases |raw| - i
  {
    if i < |raw| {
      assert raw[..i + 1][..i] == raw[..i];
      SpacesMonotone(raw, i + 1);
    } else {
      assert raw[..i] == raw;
    }
  }

  /** Each word of a layable text has all its glyphs. */
  lemma SplitHasGlyphs(f: Font, raw: seq<Byte>, k: nat)
    requires AllGlyphs(f, raw) && k < |Split(raw)|
    ensures forall i :: 0 <= i < |Split(raw)[k]| ==> HasGlyph(f, Split(raw)[k][i])
  {
    forall i | 0 <= i < |Split(raw)[k]|
      ensures HasGlyph(f, Split(raw)[k][i])
    {
      SplitBytesFromText(raw, k, i);
    }
  }

  /** Every byte of a word is a byte of the text. */
  lemma {:induction false} SplitBytesFromText(raw: seq<Byte>, k: nat, i: nat)
    requires k < |Split(raw)| && i < |Split(raw)[k]|
    ensures Split(raw)[k][i] in raw
  {
    if raw != [] {
      var p := raw[..|raw| - 1];
      var ws := Split(p);
      var last := raw[|raw| - 1];
      if last == SPACE {
        assert Split(raw)[k] == ws[k];
        SplitBytesFromText(p, k, i);
      } else if k < |ws| - 1 {
        assert Split(raw)[k] == ws[k];
        SplitBytesFromText(p, k, i);
      } else if i < |ws[|ws| - 1]| {
        assert Split(raw)[k][i] == ws[|ws| - 1][i];
        SplitBytesFromText(p, |ws| - 1, i);
      } else {
        assert Split(raw)[k][i] == last;
      }
      assert forall b :: b in p ==> b in raw;
    }
  }

  /** How one more byte of the text changes the widths of its words. */
  lemma WidthsStep(f: Font, raw: seq<Byte>, i: nat, scale: Ratio)
    requires i < |raw| && scale.den > 0 && AllGlyphs(f, raw[..i + 1])
    ensures AllGlyphs(f, raw[..i])
    ensures var ws := WordWidthsOf(f, raw[..i], scale);
            var ws' := WordWidthsOf(f, raw[..i + 1], scale);
            if raw[i] == SPACE then ws' == ws + [0]
            else ws' == ws[..|ws| - 1] + [ws[|ws| - 1] + Scaled(GlyphFor(f, raw[i]).xAdvance, scale)]
  {
    var p := raw[..i];
    assert raw[..i + 1] == p + [raw[i]];
    assert forall j :: 0 <= j < i ==> p[j] == raw[..i + 1][j];
    if raw[i] == SPACE {
      WidthsAfterSpace(f, p, scale);
    } else {
      assert HasGlyph(f, (p + [raw[i]])[i]);
      WidthsAfterLetter(f, p, raw[i], scale);
    }
  }

  lemma WidthsAfterSpace(f: Font, p: seq<Byte>, scale: Ratio)
    requires scale.den > 0 && AllGlyphs(f, p + [SPACE])
    ensures AllGlyphs(f, p)
    ensures WordWidthsOf(f, p + [SPACE], scale) == WordWidthsOf(f, p, scale) + [0]
  {
    assert forall j :: 0 <= j < |p| ==> p[j] == (p + [SPACE])[j];
    assert (p + [SPACE])[..|p|] == p;
    var words := Split(p);
    var words' := Split(p + [SPACE]);
    var ws := WordWidthsOf(f, p, scale);
    var ws' := WordWidthsOf(f, p + [SPACE], scale);
    assert words' == words + [[]];
    forall k | 0 <= k < |ws|
      ensures ws'[k] == ws[k]
    {
      assert words'[k] == words[k];
    }
  }

  lemma WidthsAfterLetter(f: Font, p: seq<Byte>, b: Byte, scale: Ratio)
    requires scale.den > 0 && b != SPACE && HasGlyph(f, b) && AllGlyphs(f, p + [b])
    ensures AllGlyphs(f, p)
    ensures var ws := WordWidthsOf(f, p, scale);
            WordWidthsOf(f, p + [b], scale) == ws[..|ws| - 1] + [ws[|ws| - 1] + Scaled(GlyphFor(f, b).xAdvance, scale)]
  {
    LetterWidths(f, p, b, scale);
    var ws := WordWidthsOf(f, p, scale);
    var ws' := WordWidthsOf(f, p + [b], scale);
    var n := |ws|;
    assert forall k :: 0 <= k < n - 1 ==> ws'[k] == (ws[..n - 1] + [ws[n - 1] + Scaled(GlyphFor(f, b).xAdvance, scale)])[k];
  }

  /** A letter leaves the widths of the closed words alone and widens the last one. */
  lemma LetterWidths(f: Font, p: seq<Byte>, b: Byte, scale: Ratio)
    requires scale.den > 0 && b != SPACE && HasGlyph(f, b) && AllGlyphs(f, p + [b])
    ensures AllGlyphs(f, p)
    ensures var ws := WordWidthsOf(f, p, scale);
            var ws' := WordWidthsOf(f, p + [b], scale);
            |ws'| == |ws| && (forall k :: 0 <= k < |ws| - 1 ==> ws'[k] == ws[k]) &&
            ws'[|ws| - 1] == ws[|ws| - 1] + Scaled(GlyphFor(f, b).xAdvance, scale)
  {
    assert forall j :: 0 <= j < |p| ==> p[j] == (p + [b])[j];
    assert (p + [b])[..|p|] == p;
    var words := Split(p);
    var words' := Split(p + [b]);
    var ws := WordWidthsOf(f, p, scale);
    var ws' := WordWidthsOf(f, p + [b], scale);
    var n := |ws|;
    var last := words[n - 1] + [b];
    assert words' == words[..n - 1] + [last];
    forall k | 0 <= k < n - 1
      ensures ws'[k] == ws[k]
    {
      assert words'[k] == words[k];
    }
    assert last[..|last| - 1] == words[n - 1];
    assert words'[n - 1] == last;
    SplitHasGlyphs(f, p + [b], n - 1);
    assert ws'[n - 1] == Width(f, last, scale);
  }
}

/** Properties of text objects. */
module TextLayoutProperties {
  import opened Wrappers
  import opened CTypes
  import opened FontAtlas
  import opened TextLayout

  /** Splitting at spaces and joining with spaces gives back the text. */
  lemma {:induction false} JoinSplit(s: seq<Byte>)
    ensures Join(Split(s)) == s
  {
    if s != [] {
      var p, c := s[..|s| - 1], s[|s| - 1];
      assert s == p + [c];
      JoinSplit(p);
      JoinSplitStep(p, c);
    }
  }

  /** One more byte keeps Join a left inverse of Split. */
  lemma JoinSplitStep(p: seq<Byte>, c: Byte)
    requires Join(Split(p)) == p
    ensures Join(Split(p + [c])) == p + [c]
  {
    var ws := Split(p);
    SplitSnoc(p, c);
    if c == SPACE {
      assert Split(p + [c]) == ws + [[]];
      JoinAfterSpace(ws);
    } else {
      assert Split(p + [c]) == ws[..|ws| - 1] + [ws[|ws| - 1] + [c]];
      JoinLast(ws, [c]);
    }
  }

  /** Split on one more byte: a space opens a new word, any other byte extends the last. */
  lemma SplitSnoc(p: seq<Byte>, c: Byte)
    ensures var ws := Split(p);
            Split(p + [c]) == if c == SPACE then ws + [[]] else ws[..|ws| - 1] + [ws[|ws| - 1] + [c]]
  {
    assert (p + [c])[..|p|] == p;
  }

  /** An empty last word adds only its separating space. */
  lemma JoinAfterSpace(ws: seq<seq<Byte>>)
    requires |ws| > 0
    ensures Join(ws + [[]]) == Join(ws) + [SPACE]
  {
    assert (ws + [[]])[..|ws|] == ws;
  }

  /** Appending bytes to the last word appends them to the joined text. */
  lemma {:induction false} JoinLast(ws: seq<seq<Byte>>, tail: seq<Byte>)
    requires |ws| > 0
    ensures Join(ws[..|ws| - 1] + [ws[|ws| - 1] + tail]) == Join(ws) + tail
  {
    var ws' := ws[..|ws| - 1] + [ws[|ws| - 1] + tail];
    if |ws| == 1 {
      assert ws' == [ws[0] + tail];
    } else {
      assert ws'[..|ws'| - 1] == ws[..|ws| - 1];
    }
  }
}
