/**
 * Properties of the element layer: where SL_CreateElement puts each text
 * object, the order SL_DrawElement walks them in, the shape of the draw
 * calls, and the element lookup after a create.
 */
module ElementsProperties {
  import opened Wrappers
  import opened CTypes
  import opened Sdl
  import opened Registry
  import opened RegistryProperties
  import opened FontAtlas
  import opened TextLayout
  import opened Mesh
  import opened Elements

  /**
   * A text loop that succeeds puts entry k of the builder into an empty slot
   * order[k], holding the text object built for it under its id; the slots
   * it names are distinct and every other slot is untouched. A loop with at
   * least one entry needs a positive limit to succeed.
   */
  lemma {:induction false} InsertTextsPlaces(s: seq<Slot<TextObject>>, f: Font, specs: seq<TextSpec>, hashLimit: int)
    requires InsertTexts(s, f, specs, hashLimit).Some?
    ensures specs != [] ==> hashLimit > 0
    ensures var r := InsertTexts(s, f, specs, hashLimit).value;
      forall k :: 0 <= k < |specs| ==>
        0 <= r.1[k] < |s| && s[r.1[k]].None? && TextOf(f, specs[k]).Some? &&
        r.0[r.1[k]] == Some(Entry(specs[k].id, TextOf(f, specs[k]).value))
    ensures var r := InsertTexts(s, f, specs, hashLimit).value;
      forall j, k :: 0 <= j < k < |specs| ==> r.1[j] != r.1[k]
    ensures var r := InsertTexts(s, f, specs, hashLimit).value;
      forall i :: 0 <= i < |s| && i !in r.1 ==> r.0[i] == s[i]
    decreases |specs|
  {
    if specs != [] {
      var i, s1 := InsertTextsHead(s, f, specs, hashLimit);
      InsertTextsPlaces(s1, f, specs[1..], hashLimit);
      var rest := InsertTexts(s1, f, specs[1..], hashLimit).value;
      var r := InsertTexts(s, f, specs, hashLimit).value;
      assert i !in rest.1 by {
        forall k | 0 <= k < |rest.1|
          ensures rest.1[k] != i
        {
          assert s1[rest.1[k]].None?;
        }
      }
      assert Placed(s1, f, specs[1..], rest.1, rest.0);
      ConsPlaced(s, s1, f, specs, i, rest.1, rest.0);
      ConsDistinct(i, rest.1);
      ConsFrame(s, s1, rest.0, i, rest.1);
    }
  }

  /** Entry k of specs is stored in out at the slot order[k], which was empty in s. */
  ghost predicate Placed(s: seq<Slot<TextObject>>, f: Font, specs: seq<TextSpec>, order: seq<int>, out: seq<Slot<TextObject>>)
  {
    |order| == |specs| && |out| == |s| &&
    forall k :: 0 <= k < |specs| ==>
      0 <= order[k] < |s| && s[order[k]].None? && TextOf(f, specs[k]).Some? &&
      out[order[k]] == Some(Entry(specs[k].id, TextOf(f, specs[k]).value))
  }

  /** Placing the first entry at the empty slot i and the rest after it places them all. */
  lemma ConsPlaced(s: seq<Slot<TextObject>>, s1: seq<Slot<TextObject>>, f: Font, specs: seq<TextSpec>,
                   i: int, order: seq<int>, out: seq<Slot<TextObject>>)
    requires specs != [] && 0 <= i < |s| && s[i].None? && TextOf(f, specs[0]).Some?
    requires s1 == s[i := Some(Entry(specs[0].id, TextOf(f, specs[0]).value))]
    requires i !in order && Placed(s1, f, specs[1..], order, out)
    requires forall n :: 0 <= n < |s1| && n !in order ==> out[n] == s1[n]
    ensures Placed(s, f, specs, [i] + order, out)
  {
    var r := [i] + order;
    forall k | 0 <= k < |specs|
      ensures 0 <= r[k] < |s| && s[r[k]].None? && TextOf(f, specs[k]).Some? &&
              out[r[k]] == Some(Entry(specs[k].id, TextOf(f, specs[k]).value))
    {
      if k > 0 {
        assert r[k] == order[k - 1] && specs[k] == specs[1..][k - 1];
        assert r[k] != i;
      }
    }
  }

  /** Putting an index that is not among distinct indices in front keeps them distinct. */
  lemma ConsDistinct(i: int, rest: seq<int>)
    requires i !in rest
    requires forall j, k :: 0 <= j < k < |rest| ==> rest[j] != rest[k]
    ensures var r := [i] + rest; forall j, k :: 0 <= j < k < |r| ==> r[j] != r[k]
  {
    var r := [i] + rest;
    forall j, k | 0 <= j < k < |r|
      ensures r[j] != r[k]
    {
      assert r[k] == rest[k - 1];
      if j > 0 {
        assert r[j] == rest[j - 1];
      }
    }
  }

  /** s1 differs from s only at i and out from s1 only at rest, so out differs from s only at [i] + rest. */
  lemma ConsFrame<T>(s: seq<T>, s1: seq<T>, out: seq<T>, i: int, rest: seq<int>)
    requires |s| == |s1| == |out|
    requires forall n :: 0 <= n < |s| && n != i ==> s1[n] == s[n]
    requires forall n :: 0 <= n < |s1| && n !in rest ==> out[n] == s1[n]
    ensures forall n :: 0 <= n < |s| && n !in [i] + rest ==> out[n] == s[n]
  {
    forall n | 0 <= n < |s| && n !in [i] + rest
      ensures out[n] == s[n]
    {
      assert n != i && n !in rest;
    }
  }

  /** The first insertion of a successful text loop: a free slot i, filled to give s1, and the rest of the loop on s1. */
  lemma InsertTextsHead(s: seq<Slot<TextObject>>, f: Font, specs: seq<TextSpec>, hashLimit: int)
    returns (i: int, s1: seq<Slot<TextObject>>)
    requires specs != [] && InsertTexts(s, f, specs, hashLimit).Some?
    ensures hashLimit > 0 && 0 <= i < |s| && s[i].None? && TextOf(f, specs[0]).Some?
    ensures s1 == s[i := Some(Entry(specs[0].id, TextOf(f, specs[0]).value))]
    ensures InsertTexts(s1, f, specs[1..], hashLimit).Some?
    ensures var rest := InsertTexts(s1, f, specs[1..], hashLimit).value;
      InsertTexts(s, f, specs, hashLimit).value == (rest.0, [i] + rest.1)
  {
    i := InsertProbe(s, |s|, HashName(specs[0].id, hashLimit)).index;
    s1 := s[i := Some(Entry(specs[0].id, TextOf(f, specs[0]).value))];
  }

  /**
   * An element SL_CreateElement makes keeps the builder's name, skin, font
   * and narrowed flags, gets its rectangle from RectOf, and its textIterator
   * lists one slot per builder text object in the order they were added,
   * each holding the text object built from that entry; every other slot
   * of its table stays empty. In unmanaged mode (a zero limit) only a
   * builder without text objects gets an element.
   */
  lemma CreatedElementHoldsTexts(v: BuilderView, screenW: int, screenH: int, f: Font, hashLimit: int)
    requires FractionsWellFormed(v)
    requires ElementOf(v, screenW, screenH, f, hashLimit).Some?
    ensures hashLimit > 0 || v.texts == []
    ensures var ev := ElementOf(v, screenW, screenH, f, hashLimit).value;
      ev.name == v.name && ev.skin == v.skin && ev.font == v.font &&
      ev.flags == Narrow(v.flags) && ev.rect == RectOf(v, screenW, screenH)
    ensures var ev := ElementOf(v, screenW, screenH, f, hashLimit).value;
      |ev.order| == |v.texts| && |ev.slots| == MAP_INIT &&
      forall k :: 0 <= k < |v.texts| ==>
        0 <= ev.order[k] < MAP_INIT && TextOf(f, v.texts[k]).Some? &&
        ev.slots[ev.order[k]] == Some(Entry(v.texts[k].id, TextOf(f, v.texts[k]).value))
    ensures var ev := ElementOf(v, screenW, screenH, f, hashLimit).value;
      forall i :: 0 <= i < MAP_INIT && i !in ev.order ==> ev.slots[i].None?
  {
    InsertTextsPlaces(EmptySlots(), f, v.texts, hashLimit);
  }

  /**
   * The meshes of a list of text objects exist exactly when each one's mesh
   * does, and are those meshes in the same order.
   */
  lemma {:induction false} MeshesOfEach(ts: seq<TextObject>, r: Rect, lineHeight: int)
    requires ScalesUsable(ts)
    ensures MeshesOf(ts, r, lineHeight).Some? <==>
            forall k :: 0 <= k < |ts| ==> TextMeshOf(ts[k], r, lineHeight).Some?
    ensures MeshesOf(ts, r, lineHeight).Some? ==>
            forall k :: 0 <= k < |ts| ==> MeshesOf(ts, r, lineHeight).value[k] == TextMeshOf(ts[k], r, lineHeight).value
    decreases |ts|
  {
    if ts != [] {
      var init := ts[..|ts| - 1];
      assert ScalesUsable(init) by {
        forall k | 0 <= k < |init|
          ensures init[k].scale.den > 0
        {
          assert init[k] == ts[k];
        }
      }
      MeshesOfEach(init, r, lineHeight);
      forall k | 0 <= k < |init|
        ensures init[k] == ts[k]
      {
      }
    }
  }

  /**
   * SL_DrawElement draws nothing for an inactive element. An active one is
   * drawn unless one of its text meshes faults; then the calls are the skin
   * grid with the nine-slice index table first and, after it, one call per
   * text object in textIterator order, each with the element's font.
   */
  lemma DrawCallsShape(v: ElementView, lineHeight: int)
    requires TextsReady(v.slots, v.order)
    ensures !IsActiveFlag(v.flags) ==> DrawCallsOf(v, lineHeight) == Some([])
    ensures IsActiveFlag(v.flags) ==>
      (DrawCallsOf(v, lineHeight).Some? <==>
       forall k :: 0 <= k < |v.order| ==> TextMeshOf(TextsOf(v)[k], v.rect, lineHeight).Some?)
    ensures IsActiveFlag(v.flags) && DrawCallsOf(v, lineHeight).Some? ==>
      var calls := DrawCallsOf(v, lineHeight).value;
      |calls| == 1 + |v.order| &&
      calls[0] == SkinGeometry(v.skin, SkinVertices(v.rect, v.stepX, v.stepY), INDICES) &&
      forall k :: 0 <= k < |v.order| ==>
        calls[1 + k].TextGeometry? && calls[1 + k].texture == v.font &&
        TextMeshOf(v.slots[v.order[k]].value.value, v.rect, lineHeight) == Some(calls[1 + k].mesh)
  {
    var ts := TextsOf(v);
    MeshesOfEach(ts, v.rect, lineHeight);
    if IsActiveFlag(v.flags) && DrawCallsOf(v, lineHeight).Some? {
      var ms := MeshesOf(ts, v.rect, lineHeight).value;
      var calls := DrawCallsOf(v, lineHeight).value;
      forall k | 0 <= k < |v.order|
        ensures calls[1 + k].TextGeometry? && calls[1 + k].texture == v.font &&
                TextMeshOf(v.slots[v.order[k]].value.value, v.rect, lineHeight) == Some(calls[1 + k].mesh)
      {
        assert calls[1 + k] == TextCalls(v.font, ms)[k];
        assert ts[k] == v.slots[v.order[k]].value.value;
      }
    }
  }

  /**
   * Create then draw: an active element made from builder v draws its text
   * objects in the order they were added to the builder, each as the mesh of
   * the text object built from that entry.
   */
  lemma CreatedElementDrawsInBuilderOrder(v: BuilderView, screenW: int, screenH: int, f: Font, hashLimit: int, lineHeight: int)
    requires FractionsWellFormed(v)
    requires ElementOf(v, screenW, screenH, f, hashLimit).Some?
    ensures TextsReady(ElementOf(v, screenW, screenH, f, hashLimit).value.slots,
                       ElementOf(v, screenW, screenH, f, hashLimit).value.order)
    ensures var ev := ElementOf(v, screenW, screenH, f, hashLimit).value;
      var calls := DrawCallsOf(ev, lineHeight);
      IsActiveFlag(ev.flags) && calls.Some? ==>
        |calls.value| == 1 + |v.texts| &&
        forall k :: 0 <= k < |v.texts| ==>
          TextOf(f, v.texts[k]).Some? && calls.value[1 + k].TextGeometry? && calls.value[1 + k].texture == v.font &&
          TextMeshOf(TextOf(f, v.texts[k]).value, RectOf(v, screenW, screenH), lineHeight) == Some(calls.value[1 + k].mesh)
  {
    var ev := ElementOf(v, screenW, screenH, f, hashLimit).value;
    var r := InsertTexts(EmptySlots(), f, v.texts, hashLimit).value;
    assert ev.slots == r.0 && ev.order == r.1;
    CreatedElementHoldsTexts(v, screenW, screenH, f, hashLimit);
    DrawCallsShape(ev, lineHeight);
    var calls := DrawCallsOf(ev, lineHeight);
    if IsActiveFlag(ev.flags) && calls.Some? {
      forall k | 0 <= k < |v.texts|
        ensures TextOf(f, v.texts[k]).Some? && calls.value[1 + k].TextGeometry? && calls.value[1 + k].texture == v.font &&
                TextMeshOf(TextOf(f, v.texts[k]).value, RectOf(v, screenW, screenH), lineHeight) == Some(calls.value[1 + k].mesh)
      {
        assert ev.slots[ev.order[k]].value.value == TextOf(f, v.texts[k]).value;
      }
    }
  }

  /**
   * After a create that claimed slot i under name in a table that did not
   * grow and held no record of that name, getElementFromMap finds the new
   * element at i.
   */
  lemma CreatedElementFound(s: seq<Slot<Element>>, count: int, name: Name, e: Element,
                            s': seq<Slot<Element>>, count': int, limit': int)
    requires 0 < |s|
    requires forall j :: 0 <= j < |s| ==> !Holds(s[j], name)
    requires ClaimedSlot(s, |s|, Some(name)).Some?
    requires Claimed(s, count, |s|, ClaimedSlot(s, |s|, Some(name)), Some(name), e, s', count', limit')
    requires count' < |s|
    ensures limit' == |s|
    ensures LookupProbe(s', limit', HashName(name, limit'), name) == Found(ClaimedSlot(s, |s|, Some(name)).value)
  {
    var h := HashName(name, |s|);
    assert 0 <= h < |s|;
    InsertThenLookup(s, h, name, e);
  }
}
