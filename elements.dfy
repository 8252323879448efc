/**
 * The element layer of Sliggy.c: the builder an application fills in, the
 * element SL_CreateElement makes from it (its rectangle, flags, skin steps
 * and its own text-object table walked through an insertion-order textIterator),
 * the library context SL_Init sets up (screen size, global flags and, in
 * managed mode, the element table), the draw calls SL_DrawElement issues,
 * and the activity flag operations.
 *
 * SDL calls are outputs or inputs: a texture is its identity and the size
 * SDL_QueryTexture reports, and SL_DrawElement returns the SDL_RenderGeometry
 * calls it would make instead of making them.
 */
module Elements {
  import opened Wrappers
  import opened CTypes
  import opened Sdl
  import opened Registry
  import opened FontAtlas
  import opened TextLayout
  import opened Mesh

  /** SL_INNERFLAG_ACTIVE. */
  const ACTIVE: bv16 := 0x1
  /** SL_INNERFLAG_ABSOLUTE. */
  const ABSOLUTE: bv16 := 0x8
  /** SL_FLAGS_MANAGE_MEMORY, the SL_Init flag that turns on the element table. */
  const MANAGE_MEMORY: bv32 := 0x2
  /** MAX_TEXT_OBJS: the builder's text slots and the element's textIterator length. */
  const MAX_TEXT_OBJS: int := 16

  // ------------------------------------------------------------------ flags

  /** The ACTIVE bit is set. */
  predicate IsActiveFlag(f: bv16)
  {
    f & ACTIVE == ACTIVE
  }

  /** `flags |= SL_INNERFLAG_ACTIVE`. */
  function Activated(f: bv16): (g: bv16)
    ensures IsActiveFlag(g)
    ensures g & !ACTIVE == f & !ACTIVE
  {
    f | ACTIVE
  }

  /** `flags &= ~SL_INNERFLAG_ACTIVE`. */
  function Deactivated(f: bv16): (g: bv16)
    ensures !IsActiveFlag(g)
    ensures g & !ACTIVE == f & !ACTIVE
  {
    f & !ACTIVE
  }

  /** The builder's `int flags` as the element's `unsigned short flags`: its low 16 bits. */
  function Narrow(f: bv32): (g: bv16)
    ensures g as bv32 == f & 0xFFFF
  {
    (f & 0xFFFF) as bv16
  }

  // ---------------------------------------------------------------- builder

  /** SL_TextObjectBuilder: the key, the text, its offset and its desired size. */
  datatype TextSpec = TextSpec(id: Name, text: CString, x: int, y: int, size: int)

  /**
   * What a builder holds: the name, the relative rectangle (fractions of the
   * screen), the absolute one, the flags, the skin and font textures and the
   * text objects added so far. An unset pointer is None.
   */
  datatype BuilderView = BuilderView(
    name: Option<Name>,
    x: Ratio, y: Ratio, w: Ratio, h: Ratio,
    abs: Rect,
    flags: bv32,
    skin: Option<Texture>,
    font: Option<Texture>,
    texts: seq<TextSpec>)

  /** The relative fractions are ratios with a positive denominator. */
  predicate FractionsWellFormed(v: BuilderView)
  {
    v.x.den > 0 && v.y.den > 0 && v.w.den > 0 && v.h.den > 0
  }

  /** The ABSOLUTE bit, read from the builder's int flags. */
  predicate IsAbsolute(v: BuilderView)
  {
    v.flags & ABSOLUTE as bv32 == ABSOLUTE as bv32
  }

  /**
   * The element's rectangle: the absolute one copied as it is when the
   * ABSOLUTE flag is set, otherwise each fraction times the screen size,
   * truncated.
   */
  function RectOf(v: BuilderView, screenW: int, screenH: int): (r: Rect)
    requires FractionsWellFormed(v)
    ensures IsAbsolute(v) ==> r == v.abs
    ensures !IsAbsolute(v) ==> r.x == Scaled(screenW, v.x) && r.y == Scaled(screenH, v.y)
    ensures !IsAbsolute(v) ==> r.w == Scaled(screenW, v.w) && r.h == Scaled(screenH, v.h)
  {
    if IsAbsolute(v) then v.abs
    else Rect(Scaled(screenW, v.x), Scaled(screenH, v.y), Scaled(screenW, v.w), Scaled(screenH, v.h))
  }

  /** `p != NULL ? *p : old`. */
  function Given<T>(p: Option<T>, old_: T): T
  {
    if p.Some? then p.value else old_
  }

  class Builder {
    var name: Option<Name>
    var x: Ratio
    var y: Ratio
    var w: Ratio
    var h: Ratio
    var xab: int
    var yab: int
    var wab: int
    var hab: int
    var flags: bv32
    var skin: Option<Texture>
    var font: Option<Texture>
    var textBuilders: array<TextSpec>
    var numTextObjects: int

    ghost predicate Valid()
      reads this
    {
      textBuilders.Length == MAX_TEXT_OBJS && 0 <= numTextObjects <= MAX_TEXT_OBJS &&
      x.den > 0 && y.den > 0 && w.den > 0 && h.den > 0
    }

    function State(): (v: BuilderView)
      requires Valid()
      reads this, textBuilders
      ensures FractionsWellFormed(v)
    {
      BuilderView(name, x, y, w, h, Rect(xab, yab, wab, hab), flags, skin, font,
                  textBuilders[..numTextObjects])
    }

    /**
     * SL_CreateBuilder: zero dimensions, no text objects, the given skin and
     * only the ACTIVE flag. The name and font are left unset.
     */
    constructor (skin: Option<Texture>)
      ensures Valid()
      ensures State() == BuilderView(None, Ratio(0, 1), Ratio(0, 1), Ratio(0, 1), Ratio(0, 1),
                                     Rect(0, 0, 0, 0), ACTIVE as bv32, skin, None, [])
      ensures fresh(textBuilders)
    {
      name := None;
      x, y, w, h := Ratio(0, 1), Ratio(0, 1), Ratio(0, 1), Ratio(0, 1);
      xab, yab, wab, hab := 0, 0, 0, 0;
      flags := ACTIVE as bv32;
      this.skin := skin;
      font := None;
      numTextObjects := 0;
      textBuilders := new TextSpec[MAX_TEXT_OBJS](_ => TextSpec([], [], 0, 0, 0));
    }

    /**
     * SL_BuilderAddTextObject: the id defaults to the text itself. The
     * builder has room for MAX_TEXT_OBJS; a further add writes past the
     * buffer, reported as ok == false with nothing changed.
     */
    method AddTextObject(text: CString, x_: int, y_: int, size: int, id_: Option<Name>) returns (ok: bool)
      requires Valid()
      modifies this, textBuilders
      ensures Valid() && textBuilders == old(textBuilders)
      ensures ok == (|old(State()).texts| < MAX_TEXT_OBJS)
      ensures ok ==> State() == old(State()).(texts := old(State()).texts + [TextSpec(Given(id_, text), text, x_, y_, size)])
      ensures !ok ==> State() == old(State())
    {
      if numTextObjects == MAX_TEXT_OBJS {
        return false;
      }
      textBuilders[numTextObjects] := TextSpec(Given(id_, text), text, x_, y_, size);
      numTextObjects := numTextObjects + 1;
      ok := true;
    }

    /** SL_BuilderSetDimensionsAbsolute: each given value replaces its field; ABSOLUTE is set. */
    method SetDimensionsAbsolute(x_: Option<int>, y_: Option<int>, w_: Option<int>, h_: Option<int>)
      requires Valid()
      modifies this
      ensures Valid() && textBuilders == old(textBuilders)
      ensures State() == old(State()).(abs := Rect(Given(x_, old(xab)), Given(y_, old(yab)), Given(w_, old(wab)), Given(h_, old(hab))),
                                       flags := old(flags) | ABSOLUTE as bv32)
    {
      ghost var texts := textBuilders[..numTextObjects];
      xab, yab, wab, hab := Given(x_, xab), Given(y_, yab), Given(w_, wab), Given(h_, hab);
      flags := flags | ABSOLUTE as bv32;
      assert textBuilders[..numTextObjects] == texts;
    }

    /** SL_BuilderSetDimensionsRelative: each given fraction replaces its field; the flags stay. */
    method SetDimensionsRelative(x_: Option<Ratio>, y_: Option<Ratio>, w_: Option<Ratio>, h_: Option<Ratio>)
      requires Valid()
      requires x_.Some? ==> x_.value.den > 0
      requires y_.Some? ==> y_.value.den > 0
      requires w_.Some? ==> w_.value.den > 0
      requires h_.Some? ==> h_.value.den > 0
      modifies this
      ensures Valid() && textBuilders == old(textBuilders)
      ensures State() == old(State()).(x := Given(x_, old(x)), y := Given(y_, old(y)),
                                       w := Given(w_, old(w)), h := Given(h_, old(h)))
    {
      x, y, w, h := Given(x_, x), Given(y_, y), Given(w_, w), Given(h_, h);
    }

    /** SL_BuilderSetName. */
    method SetName(name_: Option<Name>)
      requires Valid()
      modifies this
      ensures Valid() && textBuilders == old(textBuilders)
      ensures State() == old(State()).(name := name_)
    {
      name := name_;
    }

    /** SL_BuilderSetTexture: the skin. */
    method SetTexture(texture: Option<Texture>)
      requires Valid()
      modifies this
      ensures Valid() && textBuilders == old(textBuilders)
      ensures State() == old(State()).(skin := texture)
    {
      skin := texture;
    }

    /** SL_BuilderSetActive: a non-zero argument sets ACTIVE, zero clears it. */
    method SetActive(active: int)
      requires Valid()
      modifies this
      ensures Valid() && textBuilders == old(textBuilders)
      ensures State() == old(State()).(flags := if active != 0 then old(flags) | ACTIVE as bv32
                                                else old(flags) & !(ACTIVE as bv32))
    {
      if active != 0 {
        flags := flags | ACTIVE as bv32;
      } else {
        flags := flags & !(ACTIVE as bv32);
      }
    }

    /**
     * SL_BuilderSetFont: the lines of the font file, already read and split
     * into tokens, update the global font held by atlas; the builder records
     * the font texture. ok == false is a read or write outside Glyphs.
     */
    method SetFont(atlas: Atlas, tex: Option<Texture>, lines: seq<Line>) returns (ok: bool)
      requires Valid() && atlas.Valid()
      modifies this, atlas, atlas.glyphs
      ensures Valid() && textBuilders == old(textBuilders)
      ensures atlas.Valid()
      ensures ok == ApplyAll(old(atlas.State()), lines).Some?
      ensures ok ==> atlas.State() == ApplyAll(old(atlas.State()), lines).value
      ensures State() == old(State()).(font := tex)
    {
      ok := atlas.LoadFont(lines);
      font := tex;
    }
  }

  // ------------------------------------------------------- the text table

  /** A text-object table as calloc leaves it: MAP_INIT empty slots. */
  function EmptySlots(): (s: seq<Slot<TextObject>>)
    ensures |s| == MAP_INIT && forall i :: 0 <= i < |s| ==> s[i].None?
  {
    seq(MAP_INIT, _ => None)
  }

  /** The text object a builder entry asks for, built from the global font f. */
  function TextOf(f: Font, spec: TextSpec): Option<TextObject>
  {
    TextObjectOf(f, spec.text, spec.size, spec.x, spec.y)
  }

  /**
   * The text-object loop of SL_CreateElement from slots s: each entry is
   * inserted under its id with the hash taken modulo hashLimit (the global
   * element-table limit, 0 when memory is not managed), and the slot it lands
   * in is appended to the textIterator. None when a hash divides by zero, a probe
   * leaves the table or a text object reads outside Glyphs.
   */
  function InsertTexts(s: seq<Slot<TextObject>>, f: Font, specs: seq<TextSpec>, hashLimit: int): (r: Option<(seq<Slot<TextObject>>, seq<int>)>)
    ensures r.Some? ==> |r.value.0| == |s| && |r.value.1| == |specs|
    decreases |specs|
  {
    if specs == [] then Some((s, []))
    else if hashLimit <= 0 then None
    else
      match InsertProbe(s, |s|, HashName(specs[0].id, hashLimit))
      case Free(i) =>
        (match TextOf(f, specs[0])
         case None => None
         case Some(obj) =>
           match InsertTexts(s[i := Some(Entry(specs[0].id, obj))], f, specs[1..], hashLimit)
           case None => None
           case Some(rest) => Some((rest.0, [i] + rest.1)))
      case _ => None
  }

  /** The result of the remaining insertions, with the textIterator entries made so far in front. */
  function Chain(done: seq<int>, r: Option<(seq<Slot<TextObject>>, seq<int>)>): Option<(seq<Slot<TextObject>>, seq<int>)>
  {
    match r
    case None => None
    case Some(p) => Some((p.0, done + p.1))
  }

  /** Every textIterator entry names an occupied slot whose text object has a usable scale. */
  predicate TextsReady(s: seq<Slot<TextObject>>, order: seq<int>)
  {
    forall k :: 0 <= k < |order| ==>
      0 <= order[k] < |s| && s[order[k]].Some? && s[order[k]].value.value.scale.den > 0
  }

  // ---------------------------------------------------------------- element

  /**
   * What an element holds: the name, the skin and its steps, the rectangle,
   * the flags, the font texture, the text-object slots and, in insertion
   * order, the slots the textIterator names.
   */
  datatype ElementView = ElementView(
    name: Option<Name>,
    skin: Option<Texture>,
    stepX: int, stepY: int,
    rect: Rect,
    flags: bv16,
    font: Option<Texture>,
    slots: seq<Slot<TextObject>>,
    order: seq<int>)

  /**
   * `tex / 3` for the skin's size along one axis. Without a skin the step is 0,
   * as in the zeroed slot of managed mode; an unmanaged element's step is then
   * indeterminate in C.
   */
  function SkinStep(skin: Option<Texture>, horizontal: bool): int
  {
    if skin.None? then 0
    else if horizontal then CDiv(skin.value.w, 3)
    else CDiv(skin.value.h, 3)
  }

  /**
   * The element SL_CreateElement makes from builder v on a screen of the
   * given size, with the global font f and the global limit hashLimit, or
   * None when building its text table faults.
   */
  function ElementOf(v: BuilderView, screenW: int, screenH: int, f: Font, hashLimit: int): Option<ElementView>
    requires FractionsWellFormed(v)
  {
    match InsertTexts(EmptySlots(), f, v.texts, hashLimit)
    case None => None
    case Some(r) =>
      Some(ElementView(v.name, v.skin, SkinStep(v.skin, true), SkinStep(v.skin, false),
                       RectOf(v, screenW, screenH), Narrow(v.flags), v.font, r.0, r.1))
  }

  class Element {
    var name: Option<Name>
    var skin: Option<Texture>
    var skinStepX: int
    var skinStepY: int
    var srcRect: Rect
    var flags: bv16
    var font: Option<Texture>
    var textMap: Table<TextObject>
    var textIterator: array<int>

    ghost predicate Valid()
      reads this, textMap, textMap.slots, textIterator
    {
      textMap.Valid() && textMap.slots.Length == MAP_INIT && textMap.limit == MAP_INIT &&
      textIterator.Length == MAX_TEXT_OBJS && 0 <= textMap.count <= MAX_TEXT_OBJS &&
      TextsReady(textMap.slots[..], textIterator[..textMap.count])
    }

    function View(): ElementView
      requires Valid()
      reads this, textMap, textMap.slots, textIterator
    {
      ElementView(name, skin, skinStepX, skinStepY, srcRect, flags, font,
                  textMap.slots[..], textIterator[..textMap.count])
    }

    /**
     * The fields SL_CreateElement sets before its text loop, a fresh
     * MAP_INIT-slot text table and a zeroed MAX_TEXT_OBJS-entry textIterator.
     */
    constructor (name: Option<Name>, skin: Option<Texture>, stepX: int, stepY: int,
                 rect: Rect, flags: bv16, font: Option<Texture>)
      ensures Valid() && fresh(textMap) && fresh(textMap.slots) && fresh(textIterator)
      ensures View() == ElementView(name, skin, stepX, stepY, rect, flags, font, EmptySlots(), [])
    {
      this.name := name;
      this.skin := skin;
      skinStepX := stepX;
      skinStepY := stepY;
      srcRect := rect;
      this.flags := flags;
      this.font := font;
      textMap := new Table<TextObject>(MAP_INIT);
      textIterator := new int[MAX_TEXT_OBJS](_ => 0);
      new;
      assert textMap.slots[..] == EmptySlots();
    }

    /**
     * The text loop of SL_CreateElement: each builder entry becomes a text
     * object stored in the table, and the textIterator's entry count - 1 records
     * its slot. ok == false is a fault.
     */
    method FillTexts(specs: seq<TextSpec>, atlas: Atlas, hashLimit: int) returns (ok: bool)
      requires Valid() && textMap.count == 0 && |specs| <= MAX_TEXT_OBJS
      modifies textMap, textMap.slots, textIterator
      ensures textMap == old(textMap) && textMap.slots == old(textMap.slots) && textIterator == old(textIterator)
      ensures ok == InsertTexts(old(textMap.slots[..]), atlas.State(), specs, hashLimit).Some?
      ensures ok ==> Valid()
      ensures ok ==> (textMap.slots[..], textIterator[..textMap.count])
                     == InsertTexts(old(textMap.slots[..]), atlas.State(), specs, hashLimit).value
    {
      ghost var s0 := textMap.slots[..];
      ghost var f := atlas.State();
      var i := 0;
      assert specs[0..] == specs;
      ChainNone(InsertTexts(s0, f, specs, hashLimit));
      while i < |specs|
        invariant 0 <= i <= |specs|
        invariant textMap == old(textMap) && textMap.slots == old(textMap.slots) && textIterator == old(textIterator)
        invariant Valid() && textMap.count == i
        invariant InsertTexts(s0, f, specs, hashLimit) == Chain(textIterator[..i], InsertTexts(textMap.slots[..], f, specs[i..], hashLimit))
      {
        var placed := PlaceText(specs, i, atlas, hashLimit);
        if !placed {
          return false;
        }
        i := i + 1;
      }
      assert specs[i..] == [];
      assert textIterator[..i] + [] == textIterator[..i];
      ok := true;
    }

    /**
     * One round of the text loop: the builder entry specs[i] becomes a text
     * object in the table and its slot is recorded; placed == false is a fault,
     * and then the whole loop ends in a fault.
     */
    method PlaceText(specs: seq<TextSpec>, i: nat, atlas: Atlas, hashLimit: int) returns (placed: bool)
      requires Valid() && textMap.count == i && i < |specs| <= MAX_TEXT_OBJS
      modifies textMap, textMap.slots, textIterator
      ensures textMap == old(textMap) && textMap.slots == old(textMap.slots) && textIterator == old(textIterator)
      ensures !placed ==> Chain(old(textIterator[..i]), InsertTexts(old(textMap.slots[..]), atlas.State(), specs[i..], hashLimit)) == None
      ensures placed ==> Valid() && textMap.count == i + 1
      ensures placed ==>
                Chain(old(textIterator[..i]), InsertTexts(old(textMap.slots[..]), atlas.State(), specs[i..], hashLimit))
                == Chain(textIterator[..i + 1], InsertTexts(textMap.slots[..], atlas.State(), specs[i + 1..], hashLimit))
    {
      ghost var s := textMap.slots[..];
      ghost var f := atlas.State();
      ghost var done := textIterator[..i];
      if hashLimit <= 0 {
        InsertTextsFault(s, f, specs, i, hashLimit);
        return false;
      }
      var obj := CreateTextObject(atlas, specs[i].text, specs[i].size, specs[i].x, specs[i].y);
      if obj.None? {
        InsertTextsFault(s, f, specs, i, hashLimit);
        return false;
      }
      var p := textMap.AddItem(specs[i].id, obj.value, hashLimit);
      if !p.Free? {
        InsertTextsFault(s, f, specs, i, hashLimit);
        return false;
      }
      textIterator[textMap.count - 1] := p.index;
      InsertTextsStep(s, f, specs, i, hashLimit, p.index, obj.value, done);
      TextsReadyStep(s, done, p.index, Entry(specs[i].id, obj.value));
      assert textIterator[..i + 1] == done + [p.index];
      placed := true;
    }

    /**
     * The part of SL_CreateElement after the element's fields are set: its
     * text objects from builder v, hashed modulo the global limit hashLimit.
     */
    method Populate(v: BuilderView, screenW: int, screenH: int, atlas: Atlas, hashLimit: int) returns (ok: bool)
      requires Valid() && atlas.Valid()
      requires FractionsWellFormed(v) && |v.texts| <= MAX_TEXT_OBJS
      requires View() == ElementView(v.name, v.skin, SkinStep(v.skin, true), SkinStep(v.skin, false),
                                     RectOf(v, screenW, screenH), Narrow(v.flags), v.font, EmptySlots(), [])
      modifies textMap, textMap.slots, textIterator
      ensures ok == ElementOf(v, screenW, screenH, atlas.State(), hashLimit).Some?
      ensures ok ==> Valid() && View() == ElementOf(v, screenW, screenH, atlas.State(), hashLimit).value
    {
      ok := FillTexts(v.texts, atlas, hashLimit);
    }
  }

  /** One insertion of the text loop, moved from the remaining entries to the finished ones. */
  lemma InsertTextsStep(s: seq<Slot<TextObject>>, f: Font, specs: seq<TextSpec>, i: int, hashLimit: int,
                        idx: nat, obj: TextObject, done: seq<int>)
    requires 0 <= i < |specs| && hashLimit > 0
    requires InsertProbe(s, |s|, HashName(specs[i].id, hashLimit)) == Free(idx)
    requires TextOf(f, specs[i]) == Some(obj)
    ensures Chain(done, InsertTexts(s, f, specs[i..], hashLimit))
         == Chain(done + [idx], InsertTexts(s[idx := Some(Entry(specs[i].id, obj))], f, specs[i + 1..], hashLimit))
  {
    assert specs[i..][0] == specs[i] && specs[i..][1..] == specs[i + 1..];
    ChainStep(done, idx, InsertTexts(s[idx := Some(Entry(specs[i].id, obj))], f, specs[i + 1..], hashLimit));
  }

  /** A fault at entry i ends the whole loop in a fault. */
  lemma InsertTextsFault(s: seq<Slot<TextObject>>, f: Font, specs: seq<TextSpec>, i: int, hashLimit: int)
    requires 0 <= i < |specs|
    requires hashLimit <= 0 || !InsertProbe(s, |s|, HashName(specs[i].id, hashLimit)).Free? || TextOf(f, specs[i]).None?
    ensures InsertTexts(s, f, specs[i..], hashLimit) == None
  {
    assert specs[i..][0] == specs[i];
  }

  /** Writing a ready text object into an empty slot and recording it keeps every entry ready. */
  lemma TextsReadyStep(s: seq<Slot<TextObject>>, order: seq<int>, idx: int, e: Entry<TextObject>)
    requires TextsReady(s, order) && 0 <= idx < |s| && s[idx].None? && e.value.scale.den > 0
    ensures TextsReady(s[idx := Some(e)], order + [idx])
  {
  }

  lemma ChainNone(r: Option<(seq<Slot<TextObject>>, seq<int>)>)
    ensures Chain([], r) == r
  {
    if r.Some? {
      assert [] + r.value.1 == r.value.1;
    }
  }

  lemma ChainStep(done: seq<int>, i: int, r: Option<(seq<Slot<TextObject>>, seq<int>)>)
    ensures Chain(done, match r case None => None case Some(p) => Some((p.0, [i] + p.1))) == Chain(done + [i], r)
  {
    if r.Some? {
      assert done + ([i] + r.value.1) == (done + [i]) + r.value.1;
    }
  }

  // ---------------------------------------------------------------- context

  /**
   * The element-table slot SL_CreateElement claims for name: the first empty
   * slot on the probe from the name's hash modulo the table's limit. None
   * when the name is unset (hashing a null string) or the probe leaves the
   * table.
   */
  function ClaimedSlot(s: seq<Slot<Element>>, limit: int, name: Option<Name>): (c: Option<nat>)
    requires |s| <= limit
    ensures c.Some? ==> c.value < |s| && s[c.value].None?
  {
    if name.None? || limit <= 0 then None
    else
      match InsertProbe(s, limit, HashName(name.value, limit))
      case Free(i) => Some(i)
      case _ => None
  }

  /**
   * The element table after the claim: the element written into the claimed
   * slot, the count one more and the limit doubled once the count reaches
   * it; nothing changed when nothing was claimed.
   */
  ghost predicate Claimed(s: seq<Slot<Element>>, count: int, limit: int, claimed: Option<nat>,
                          name: Option<Name>, e: Element,
                          s': seq<Slot<Element>>, count': int, limit': int)
  {
    if claimed.Some? then
      name.Some? && claimed.value < |s| &&
      s' == s[claimed.value := Some(Entry(name.value, e))] && count' == count + 1 &&
      limit' == (if count' >= limit then 2 * limit else limit)
    else
      s' == s && count' == count && limit' == limit
  }


  /** The library state SL_Init sets: screen size, global flags and, when managed, the element table. */
  class Context {
    var screenW: int
    var screenH: int
    var flags: bv32
    var elements: Table?<Element>

    ghost predicate Valid()
      reads this, elements, if elements != null then {elements.slots} else {}
    {
      ((flags & MANAGE_MEMORY == MANAGE_MEMORY) <==> elements != null) &&
      (elements != null ==> elements.Valid())
    }

    /** The global mapLimit: the element table's limit, and 0 when it was never set up. */
    function MapLimit(): (n: int)
      reads this, elements
      ensures elements == null ==> n == 0
    {
      if elements != null then elements.limit else 0
    }

    /** SL_Init: in managed mode an element table of MAP_INIT empty slots. */
    constructor Init(screenW: int, screenH: int, flags: bv32)
      ensures Valid()
      ensures this.screenW == screenW && this.screenH == screenH && this.flags == flags
      ensures elements != null ==>
        fresh(elements) && fresh(elements.slots) && elements.slots.Length == MAP_INIT &&
        elements.count == 0 && elements.limit == MAP_INIT &&
        forall i :: 0 <= i < MAP_INIT ==> elements.slots[i].None?
    {
      this.screenW := screenW;
      this.screenH := screenH;
      this.flags := flags;
      if flags & MANAGE_MEMORY == MANAGE_MEMORY {
        elements := new Table<Element>(MAP_INIT);
      } else {
        elements := null;
      }
    }

    /**
     * SL_CreateElement, given the builder it copies. The element is made first (in managed mode it is the
     * table slot claimed under the builder's name, which may double the
     * table's limit and so the global one); then its fields come from the
     * builder and its text objects are built and inserted, hashed modulo the
     * global limit. ok == false is a fault: hashing an unset name, a probe
     * leaving the element table, or any fault of the text loop, which in
     * unmanaged mode divides by the zero limit as soon as there is one text
     * object.
     */
    method CreateElement(v: BuilderView, atlas: Atlas) returns (e: Element, ok: bool)
      requires Valid() && atlas.Valid()
      requires FractionsWellFormed(v) && |v.texts| <= MAX_TEXT_OBJS
      modifies if elements != null then {elements, elements.slots} else {}
      ensures Valid() && elements == old(elements) && fresh(e)
      ensures old(elements) == null ==>
        ok == ElementOf(v, screenW, screenH, atlas.State(), 0).Some?
      ensures old(elements) != null ==>
        var claimed := ClaimedSlot(old(elements.slots[..]), old(elements.limit), v.name);
        Claimed(old(elements.slots[..]), old(elements.count), old(elements.limit), claimed, v.name, e,
                elements.slots[..], elements.count, elements.limit) &&
        ok == (claimed.Some? && ElementOf(v, screenW, screenH, atlas.State(), elements.limit).Some?)
      ensures ok ==> e.Valid() && e.View() == ElementOf(v, screenW, screenH, atlas.State(), MapLimit()).value
    {
      e := new Element(v.name, v.skin, SkinStep(v.skin, true), SkinStep(v.skin, false),
                       RectOf(v, screenW, screenH), Narrow(v.flags), v.font);
      if elements != null {
        var placed := Claim(v.name, e);
        if !placed {
          return e, false;
        }
      }
      ok := e.Populate(v, screenW, screenH, atlas, MapLimit());
    }

    /** addItemToMap on the element table under the builder's name, with the record written. */
    method Claim(name: Option<Name>, e: Element) returns (placed: bool)
      requires Valid() && elements != null
      modifies elements, elements.slots
      ensures Valid() && elements == old(elements)
      ensures placed == ClaimedSlot(old(elements.slots[..]), old(elements.limit), name).Some?
      ensures Claimed(old(elements.slots[..]), old(elements.count), old(elements.limit),
                      ClaimedSlot(old(elements.slots[..]), old(elements.limit), name), name, e,
                      elements.slots[..], elements.count, elements.limit)
    {
      if name.None? {
        return false;
      }
      var p := elements.AddItem(name.value, e, elements.limit);
      placed := p.Free?;
    }

    /**
     * getElementFromMap: the element-table lookup with the hash modulo the
     * global limit; without a table the hash divides by zero.
     */
    method GetElement(name: Name) returns (r: Lookup, e: Element?)
      requires Valid()
      ensures elements == null ==> r == Fault && e == null
      ensures elements != null ==> r == LookupProbe(elements.slots[..], elements.limit, HashName(name, elements.limit), name)
      ensures r.Found? ==> elements != null && r.index < elements.slots.Length &&
                           e != null && elements.slots[r.index] == Some(Entry(name, e as Element))
      ensures !r.Found? ==> e == null
    {
      if elements == null {
        return Fault, null;
      }
      r := elements.GetItem(name, elements.limit);
      if r.Found? {
        e := elements.slots[r.index].value.value;
      } else {
        e := null;
      }
    }
  }

  // ------------------------------------------------------------------ drawing

  /** One SDL_RenderGeometry call: the skin grid, or the quads of one text object. */
  datatype DrawCall =
    | SkinGeometry(texture: Option<Texture>, vertices: seq<Vertex>, indices: seq<int>)
    | TextGeometry(texture: Option<Texture>, mesh: TextMesh)

  /** The sixteen skin vertices, vertex 4y + x at grid point (x, y). */
  function SkinVertices(r: Rect, stepX: int, stepY: int): (vs: seq<Vertex>)
    ensures |vs| == NUM_VERTICES
  {
    seq(NUM_VERTICES, i requires 0 <= i < NUM_VERTICES => SliceVertex(r, stepX, stepY, i % 4, i / 4))
  }

  predicate ScalesUsable(ts: seq<TextObject>)
  {
    forall k :: 0 <= k < |ts| ==> ts[k].scale.den > 0
  }

  /** The element's text objects in the order its iterator lists them. */
  function TextsOf(v: ElementView): (ts: seq<TextObject>)
    requires TextsReady(v.slots, v.order)
    ensures |ts| == |v.order| && ScalesUsable(ts)
  {
    seq(|v.order|, k requires 0 <= k < |v.order| => v.slots[v.order[k]].value.value)
  }

  /** The text meshes of ts drawn in r, or None when any of them faults. */
  function MeshesOf(ts: seq<TextObject>, r: Rect, lineHeight: int): (ms: Option<seq<TextMesh>>)
    requires ScalesUsable(ts)
    ensures ms.Some? ==> |ms.value| == |ts|
  {
    if ts == [] then Some([])
    else
      match MeshesOf(ts[..|ts| - 1], r, lineHeight)
      case None => None
      case Some(ms) =>
        match TextMeshOf(ts[|ts| - 1], r, lineHeight)
        case None => None
        case Some(m) => Some(ms + [m])
  }

  /** The text draw calls for meshes ms, all with the element's font texture. */
  function TextCalls(font: Option<Texture>, ms: seq<TextMesh>): (cs: seq<DrawCall>)
    ensures |cs| == |ms|
  {
    seq(|ms|, k requires 0 <= k < |ms| => TextGeometry(font, ms[k]))
  }

  /**
   * The calls SL_DrawElement makes for v: none for an inactive element;
   * otherwise the skin grid, then one call per text object in iterator
   * order. None when a text mesh faults.
   */
  function DrawCallsOf(v: ElementView, lineHeight: int): Option<seq<DrawCall>>
    requires TextsReady(v.slots, v.order)
  {
    if !IsActiveFlag(v.flags) then Some([])
    else
      match MeshesOf(TextsOf(v), v.rect, lineHeight)
      case None => None
      case Some(ms) =>
        Some([SkinGeometry(v.skin, SkinVertices(v.rect, v.stepX, v.stepY), INDICES)] + TextCalls(v.font, ms))
  }

  /** SL_DrawElement, with the global line height read from atlas. */
  method DrawElement(e: Element?, atlas: Atlas) returns (calls: Option<seq<DrawCall>>)
    requires e != null ==> e.Valid()
    ensures e == null ==> calls == Some([])
    ensures e != null ==> calls == DrawCallsOf(e.View(), atlas.lineHeight)
  {
    var active := ElementIsActive(e);
    if active == 0 {
      return Some([]);
    }
    var vs := NineSlice(e.srcRect, e.skinStepX, e.skinStepY);
    NineSliceIsSkin(vs, e.srcRect, e.skinStepX, e.skinStepY);
    var ms := TextMeshes(e, atlas.lineHeight);
    if ms.None? {
      return None;
    }
    calls := Some([SkinGeometry(e.skin, vs, INDICES)] + TextCalls(e.font, ms.value));
  }

  /** The sixteen vertices NineSlice fills are the skin grid. */
  lemma NineSliceIsSkin(vs: seq<Vertex>, r: Rect, stepX: int, stepY: int)
    requires |vs| == NUM_VERTICES
    requires forall y, x :: 0 <= y < 4 && 0 <= x < 4 ==> vs[4 * y + x] == SliceVertex(r, stepX, stepY, x, y)
    ensures vs == SkinVertices(r, stepX, stepY)
  {
    forall i | 0 <= i < NUM_VERTICES
      ensures vs[i] == SliceVertex(r, stepX, stepY, i % 4, i / 4)
    {
      assert i == 4 * (i / 4) + i % 4;
    }
  }

  /** The text loop of SL_DrawElement: the mesh of each text object in iterator order. */
  method TextMeshes(e: Element, lineHeight: int) returns (ms: Option<seq<TextMesh>>)
    requires e.Valid()
    ensures ms == MeshesOf(TextsOf(e.View()), e.srcRect, lineHeight)
  {
    ghost var v := e.View();
    ghost var ts := TextsOf(v);
    var acc: seq<TextMesh> := [];
    for k := 0 to e.textMap.count
      invariant MeshesOf(ts[..k], v.rect, lineHeight) == Some(acc)
    {
      var idx := e.textIterator[k];
      assert idx == v.order[k];
      var t := e.textMap.slots[idx].value.value;
      assert t == ts[k];
      var m := DrawText(t, e.srcRect, lineHeight);
      if m.None? {
        MeshFaultAt(ts, k, v.rect, lineHeight);
        return None;
      }
      MeshesSnoc(ts, k, v.rect, lineHeight, acc, m.value);
      acc := acc + [m.value];
    }
    assert ts[..e.textMap.count] == ts;
    return Some(acc);
  }

  /** One more mesh extends the prefix's meshes. */
  lemma MeshesSnoc(ts: seq<TextObject>, k: nat, r: Rect, lineHeight: int, ms: seq<TextMesh>, m: TextMesh)
    requires ScalesUsable(ts) && k < |ts|
    requires MeshesOf(ts[..k], r, lineHeight) == Some(ms)
    requires TextMeshOf(ts[k], r, lineHeight) == Some(m)
    ensures MeshesOf(ts[..k + 1], r, lineHeight) == Some(ms + [m])
  {
    assert ts[..k + 1][..k] == ts[..k] && ts[..k + 1][k] == ts[k];
  }

  /** A text object whose mesh faults makes the whole walk fault. */
  lemma MeshFaultAt(ts: seq<TextObject>, k: nat, r: Rect, lineHeight: int)
    requires ScalesUsable(ts) && k < |ts|
    requires TextMeshOf(ts[k], r, lineHeight).None?
    ensures MeshesOf(ts, r, lineHeight).None?
  {
    assert ts[..k + 1][..k] == ts[..k] && ts[..k + 1][k] == ts[k];
    MeshesFaultStays(ts, k + 1, r, lineHeight);
  }

  /** Once a prefix of the text objects faults, every longer prefix does. */
  lemma {:induction false} MeshesFaultStays(ts: seq<TextObject>, k: nat, r: Rect, lineHeight: int)
    requires ScalesUsable(ts) && k <= |ts|
    requires MeshesOf(ts[..k], r, lineHeight).None?
    ensures MeshesOf(ts, r, lineHeight).None?
    decreases |ts| - k
  {
    if k < |ts| {
      assert ts[..k + 1][..k] == ts[..k];
      MeshesFaultStays(ts, k + 1, r, lineHeight);
    } else {
      assert ts[..k] == ts;
    }
  }

  // ---------------------------------------------------------------- activity

  /** SL_ElementIsActive: 1 for a non-null element with the ACTIVE bit, else 0. */
  function ElementIsActive(e: Element?): (r: int)
    reads e
    ensures r == 0 || r == 1
    ensures r == 1 <==> e != null && IsActiveFlag(e.flags)
  {
    if e == null then 0 else if IsActiveFlag(e.flags) then 1 else 0
  }

  /** SL_ActivateElement: sets only the ACTIVE bit; nothing happens for null. */
  method ActivateElement(e: Element?)
    requires e != null ==> e.Valid()
    modifies e
    ensures e != null ==> e.Valid() && e.View() == old(e.View()).(flags := Activated(old(e.flags)))
    ensures ElementIsActive(e) == (if e == null then 0 else 1)
  {
    if e != null {
      e.flags := e.flags | ACTIVE;
    }
  }

  /** SL_DeactivateElement: clears only the ACTIVE bit; nothing happens for null. */
  method DeactivateElement(e: Element?)
    requires e != null ==> e.Valid()
    modifies e
    ensures e != null ==> e.Valid() && e.View() == old(e.View()).(flags := Deactivated(old(e.flags)))
    ensures ElementIsActive(e) == 0
  {
    if e != null {
      e.flags := e.flags & !ACTIVE;
    }
  }
}
