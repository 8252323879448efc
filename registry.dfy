/**
 * The string-keyed open-addressing registry of Sliggy.c (hashName,
 * addItemToMap, getItemFromMap), shared by the element table and by each
 * element's text-object table.
 *
 * Kept as the source has it:
 *  - the hash is reduced modulo UINT32_MAX (2^32 - 1), cast to a signed int
 *    and taken with C's `%` by the GLOBAL element-table limit, whatever table
 *    is being probed, so an index can be negative or past the table;
 *  - growth doubles `limit` but never moves or enlarges what the caller sees,
 *    so every probe that runs past the original array faults.
 * A probe that reaches memory outside the slot array is reported as a fault
 * (`OutOfBounds`, `Fault`) instead of being given a value.
 */
module Registry {
  import opened Wrappers
  import opened CTypes

  /** A registry key: a non-null C string, compared with strcmp. */
  type Name = CString

  /** MAP_INIT: the slot count every table is created with. */
  const MAP_INIT: int := 32

  /** A stored record; `key` is the record's first field (Element.name, TextObject.id). */
  datatype Entry<R> = Entry(key: Name, value: R)

  /** A slot is empty (None) exactly when its first machine word is zero. */
  type Slot<R> = Option<Entry<R>>

  /** Outcome of the insertion probe. */
  datatype Probe = Free(index: nat) | OutOfBounds | Endless

  /** Outcome of the lookup probe. */
  datatype Lookup = Found(index: nat) | NotFound | Fault

  /** True when the slot is occupied by a record whose key is strcmp-equal to name. */
  predicate Holds<R>(s: Slot<R>, name: Name)
  {
    s.Some? && s.value.key == name
  }

  /** The number of occupied slots. */
  function Occupied<R>(s: seq<Slot<R>>): (n: nat)
    ensures n <= |s|
  {
    if s == [] then 0 else Occupied(s[..|s| - 1]) + (if s[|s| - 1].Some? then 1 else 0)
  }

  // ---------------------------------------------------------------- hashName

  /** The accumulator of hashName: `hash += (char)byte; hash <<= 1` in 64 unsigned bits. */
  function HashFold(s: seq<Byte>): (h: int)
    ensures 0 <= h < TWO_64
  {
    if s == [] then 0
    else ((HashFold(s[..|s| - 1]) + SChar(s[|s| - 1])) % TWO_64 * 2) % TWO_64
  }

  /** `(int)(hash % UINT32_MAX)`: the reduced accumulator read as a signed 32-bit int. */
  function HashCast(name: Name): (v: int)
    ensures -TWO_31 <= v < TWO_31
  {
    ToInt32(HashFold(name) % UINT32_MAX)
  }

  /**
   * hashName: the cast accumulator taken with C's `%` by mapLimit. The index is
   * in [0, mapLimit) only when the cast value is non-negative.
   */
  function HashName(name: Name, mapLimit: int): (idx: int)
    requires mapLimit > 0
    ensures 0 <= HashCast(name) ==> 0 <= idx < mapLimit
    ensures HashCast(name) < 0 ==> -mapLimit < idx <= 0
  {
    CRem(HashCast(name), mapLimit)
  }

  // ------------------------------------------------ probe specifications

  /**
   * The insertion probe of addItemToMap, d steps after the start h: each step
   * moves to `(idx + 1) % limit`; it stops at the first empty slot. Having seen
   * `limit` occupied positions it would go round forever (Endless).
   */
  function FreeFrom<R>(s: seq<Slot<R>>, limit: int, h: int, d: nat): (p: Probe)
    requires 0 <= h < limit
    ensures p.Free? ==> p.index < |s| && s[p.index].None?
    decreases limit - d
  {
    if d >= limit then Endless
    else
      var idx := Pos(h, d, limit);
      if idx >= |s| then OutOfBounds
      else if s[idx].None? then Free(idx)
      else FreeFrom(s, limit, h, d + 1)
  }

  /** addItemToMap's probe from the hash index h. */
  function InsertProbe<R>(s: seq<Slot<R>>, limit: int, h: int): (p: Probe)
    requires |s| <= limit
    ensures p.Free? ==> p.index < |s| && s[p.index].None?
  {
    if h < 0 || h >= |s| then OutOfBounds else FreeFrom(s, limit, h, 0)
  }

  /**
   * The lookup probe of getItemFromMap, d steps after the start h: empty slots
   * do not stop it; it ends at the first slot holding name, or when the next
   * index is the start again.
   */
  function LookupFrom<R>(s: seq<Slot<R>>, limit: int, h: int, d: nat, name: Name): (r: Lookup)
    requires 0 <= h < limit && d < limit
    ensures r.Found? ==> r.index < |s| && Holds(s[r.index], name)
    decreases limit - d
  {
    var idx := Pos(h, d, limit);
    if idx >= |s| then Fault
    else if Holds(s[idx], name) then Found(idx)
    else if d + 1 == limit then NotFound
    else LookupFrom(s, limit, h, d + 1, name)
  }

  /** getItemFromMap's probe from the hash index h. */
  function LookupProbe<R>(s: seq<Slot<R>>, limit: int, h: int, name: Name): (r: Lookup)
    requires |s| <= limit
    ensures r.Found? ==> r.index < |s| && Holds(s[r.index], name)
  {
    if h < 0 || h >= |s| then Fault else LookupFrom(s, limit, h, 0, name)
  }

  // ------------------------------------------------------------ the table

  /**
   * One registry: the slot array the caller holds, and the count and limit it
   * passes by pointer. Before growth `limit` is the array length and some slot
   * is empty; the insertion that fills the last slot doubles `limit` and
   * leaves the array as it was.
   */
  class Table<R> {
    var slots: array<Slot<R>>
    var count: int
    var limit: int

    ghost predicate Valid()
      reads this, slots
    {
      0 < slots.Length && count == Occupied(slots[..]) &&
      ((limit == slots.Length && count < limit) ||
       (limit == 2 * slots.Length && count == slots.Length))
    }

    /** `calloc(n, ...)` with count 0 and limit n. */
    constructor (n: int)
      requires n > 0
      ensures Valid() && fresh(slots)
      ensures slots.Length == n && limit == n && count == 0
      ensures forall i :: 0 <= i < n ==> slots[i].None?
    {
      slots := new Slot<R>[n](_ => None);
      count := 0;
      limit := n;
      new;
      OccupiedNone(slots[..]);
    }

    /**
     * addItemToMap followed by the caller's write of the record into the slot
     * it returned. The hash is taken modulo hashLimit, the global limit.
     */
    method AddItem(name: Name, value: R, hashLimit: int) returns (res: Probe)
      requires Valid() && hashLimit > 0
      modifies this, slots
      ensures Valid() && slots == old(slots)
      ensures res == InsertProbe(old(slots[..]), old(limit), HashName(name, hashLimit))
      ensures res != Endless
      ensures res.Free? ==>
        res.index < slots.Length && old(limit) == slots.Length &&
        slots[..] == old(slots[..])[res.index := Some(Entry(name, value))] &&
        count == old(count) + 1 &&
        limit == (if count >= old(limit) then 2 * old(limit) else old(limit))
      ensures !res.Free? ==> slots[..] == old(slots[..]) && count == old(count) && limit == old(limit)
    {
      res := FindFree(HashName(name, hashLimit));
      if res.Free? {
        Fill(res.index, Entry(name, value));
      }
    }

    /** The probe loop of addItemToMap from the hash index h: the first empty slot on the path. */
    method FindFree(h: int) returns (res: Probe)
      requires Valid()
      ensures res == InsertProbe(slots[..], limit, h)
      ensures res != Endless
      ensures res.Free? ==> res.index < slots.Length && slots[res.index].None? && limit == slots.Length
    {
      if h < 0 || h >= slots.Length {
        return OutOfBounds;
      }
      InsertNeverEndless(slots[..], limit, h);
      var idx := h;
      ghost var d := 0;
      while slots[idx].Some?
        invariant 0 <= h < limit && 0 <= d < limit && idx == Pos(h, d, limit) && idx < slots.Length
        invariant FreeFrom(slots[..], limit, h, d) == InsertProbe(slots[..], limit, h) != Endless
        decreases limit - d
      {
        assert FreeFrom(slots[..], limit, h, d) == FreeFrom(slots[..], limit, h, d + 1);
        StepIndex(h, d, limit);
        idx := Next(idx, limit);
        d := d + 1;
        if idx >= slots.Length {
          return OutOfBounds;
        }
      }
      res := Free(idx);
      if limit != slots.Length {
        FullAfterGrowth(slots[..]);
      }
    }

    /** The write of a record into the empty slot idx, with addItemToMap's count and growth step. */
    method Fill(idx: int, e: Entry<R>)
      requires Valid() && 0 <= idx < slots.Length && slots[idx].None? && limit == slots.Length
      modifies this, slots
      ensures Valid() && slots == old(slots)
      ensures slots[..] == old(slots[..])[idx := Some(e)]
      ensures count == old(count) + 1
      ensures limit == (if count >= old(limit) then 2 * old(limit) else old(limit))
    {
      OccupiedUpdate(slots[..], idx, Some(e));
      slots[idx] := Some(e);
      count := count + 1;
      if count >= limit {
        limit := limit * 2;
      }
    }

    /** getItemFromMap: the probe of the table with the hash taken modulo hashLimit. */
    method GetItem(name: Name, hashLimit: int) returns (res: Lookup)
      requires Valid() && hashLimit > 0
      ensures res == LookupProbe(slots[..], limit, HashName(name, hashLimit), name)
    {
      var h := HashName(name, hashLimit);
      if h < 0 || h >= slots.Length {
        return Fault;
      }
      var idx := h;
      ghost var d := 0;
      while true
        invariant 0 <= h < limit && 0 <= d < limit && idx == Pos(h, d, limit)
        invariant LookupFrom(slots[..], limit, h, d, name) == LookupProbe(slots[..], limit, h, name)
        decreases limit - d
      {
        if idx >= slots.Length {
          return Fault;
        }
        if slots[idx].Some? && slots[idx].value.key == name {
          return Found(idx);
        }
        StepIndex(h, d, limit);
        idx := Next(idx, limit);
        if idx == h {
          return NotFound;
        }
        d := d + 1;
      }
    }
  }

  // ----------------------------------------------------------- index steps

  /** The index visited d steps after the start h: `(h + d) % limit` for d < limit. */
  function Pos(h: int, d: int, limit: int): (idx: int)
    requires 0 <= h < limit && 0 <= d < limit
    ensures 0 <= idx < limit
  {
    if h + d < limit then h + d else h + d - limit
  }

  /** One probe step, `(idx + 1) % limit`: the next index, wrapping to 0 after the last. */
  function Next(idx: int, limit: int): (n: int)
    requires 0 <= idx < limit
    ensures n == if idx + 1 < limit then idx + 1 else 0
  {
    if idx + 1 < limit then
      ModSmall(idx + 1, limit);
      (idx + 1) % limit
    else
      ModSelf(limit);
      (idx + 1) % limit
  }

  /** A step moves from offset d to offset d + 1, and is back at the start only after a full cycle. */
  lemma StepIndex(h: int, d: int, limit: int)
    requires 0 <= h < limit && 0 <= d < limit
    ensures d + 1 < limit ==> Next(Pos(h, d, limit), limit) == Pos(h, d + 1, limit)
    ensures Next(Pos(h, d, limit), limit) == h <==> d + 1 == limit
  {
  }

  lemma ModSmall(x: int, m: int)
    requires 0 <= x < m
    ensures x % m == x
  {
  }

  lemma ModSelf(m: int)
    requires 0 < m
    ensures m % m == 0
  {
  }

  /** The offset, along the probe path from h, at which index j is visited. */
  function Offset(h: int, j: int, limit: int): (d: int)
    requires 0 <= h < limit && 0 <= j < limit
    ensures 0 <= d < limit && Pos(h, d, limit) == j
  {
    if h <= j then j - h else j - h + limit
  }

  // ------------------------------------------------------ occupancy facts

  lemma OccupiedNone<R>(s: seq<Slot<R>>)
    requires forall i :: 0 <= i < |s| ==> s[i].None?
    ensures Occupied(s) == 0
  {
    if s != [] {
      OccupiedNone(s[..|s| - 1]);
    }
  }

  /** Filling an empty slot raises the occupancy by exactly one. */
  lemma {:induction false} OccupiedUpdate<R>(s: seq<Slot<R>>, i: int, v: Slot<R>)
    requires 0 <= i < |s| && s[i].None? && v.Some?
    ensures Occupied(s[i := v]) == Occupied(s) + 1
  {
    var t := s[i := v];
    if i == |s| - 1 {
      assert t[..|t| - 1] == s[..|s| - 1];
    } else {
      assert t[..|t| - 1] == s[..|s| - 1][i := v];
      OccupiedUpdate(s[..|s| - 1], i, v);
    }
  }

  /** A table with fewer occupied slots than slots has an empty slot. */
  lemma {:induction false} EmptySlotExists<R>(s: seq<Slot<R>>) returns (j: int)
    requires Occupied(s) < |s|
    ensures 0 <= j < |s| && s[j].None?
  {
    if s[|s| - 1].None? {
      j := |s| - 1;
    } else {
      j := EmptySlotExists(s[..|s| - 1]);
    }
  }

  /** A table whose occupancy equals its length has no empty slot. */
  lemma {:induction false} FullAfterGrowth<R>(s: seq<Slot<R>>)
    requires Occupied(s) == |s|
    ensures forall i :: 0 <= i < |s| ==> s[i].Some?
  {
    if s != [] {
      FullAfterGrowth(s[..|s| - 1]);
      forall i | 0 <= i < |s|
        ensures s[i].Some?
      {
        if i < |s| - 1 {
          assert s[i] == s[..|s| - 1][i];
        }
      }
    }
  }

  // -------------------------------------------- termination of the insert

  /** Before growth the probe stops at an empty slot that lies ahead of it on the path. */
  lemma {:induction false} FreeAhead<R>(s: seq<Slot<R>>, h: int, d: nat, j: int)
    requires 0 <= h < |s| && 0 <= j < |s| && s[j].None?
    requires d <= Offset(h, j, |s|)
    ensures FreeFrom(s, |s|, h, d).Free?
    decreases Offset(h, j, |s|) - d
  {
    if Pos(h, d, |s|) != j {
      assert d < Offset(h, j, |s|);
      if s[Pos(h, d, |s|)].Some? {
        FreeAhead(s, h, d + 1, j);
      }
    }
  }

  /** After growth the probe runs off the end of the array before it can go round. */
  lemma {:induction false} RunsOffEnd<R>(s: seq<Slot<R>>, h: int, d: nat)
    requires 0 <= h < |s| && h + d <= |s|
    ensures FreeFrom(s, 2 * |s|, h, d) != Endless
    decreases |s| - h - d
  {
    if h + d < |s| && s[h + d].Some? {
      RunsOffEnd(s, h, d + 1);
    }
  }

  /** On a valid table the insertion probe never goes round forever. */
  lemma InsertNeverEndless<R>(s: seq<Slot<R>>, limit: int, h: int)
    requires 0 < |s| && 0 <= h < |s|
    requires (limit == |s| && Occupied(s) < limit) || limit == 2 * |s|
    ensures InsertProbe(s, limit, h) != Endless
  {
    if limit == |s| {
      var j := EmptySlotExists(s);
      FreeAhead(s, h, 0, j);
    } else {
      RunsOffEnd(s, h, 0);
    }
  }
}

/**
 * What the registry promises, stated on the probe specifications: lookup
 * soundness and completeness before growth, the insert/lookup round trip, and
 * the consequences of the growth and hashing defects kept from the source.
 */
module RegistryProperties {
  import opened Wrappers
  import opened CTypes
  import opened Registry

  // ----------------------------------------------------------- lookup

  lemma {:induction false} LookupFromFacts<R>(s: seq<Slot<R>>, h: int, d: nat, name: Name)
    requires 0 <= h < |s| && d < |s|
    ensures var r := LookupFrom(s, |s|, h, d, name);
      r != Fault &&
      (r.Found? ==> r.index < |s| && Holds(s[r.index], name) && d <= Offset(h, r.index, |s|) &&
                    forall e :: d <= e < Offset(h, r.index, |s|) ==> !Holds(s[Pos(h, e, |s|)], name)) &&
      (r.NotFound? ==> forall e :: d <= e < |s| ==> !Holds(s[Pos(h, e, |s|)], name))
    decreases |s| - d
  {
    var idx := Pos(h, d, |s|);
    if !Holds(s[idx], name) && d + 1 < |s| {
      LookupFromFacts(s, h, d + 1, name);
    }
  }

  /**
   * Before growth (the limit is the array length) a lookup never faults; it
   * finds the name exactly when some slot holds it, and what it returns is the
   * first slot on the probe path from h that holds it.
   */
  lemma LookupCorrect<R>(s: seq<Slot<R>>, h: int, name: Name)
    requires 0 <= h < |s|
    ensures var r := LookupProbe(s, |s|, h, name);
      r != Fault &&
      (r.Found? <==> exists j :: 0 <= j < |s| && Holds(s[j], name)) &&
      (r.Found? ==> r.index < |s| && Holds(s[r.index], name) &&
                    forall e :: 0 <= e < Offset(h, r.index, |s|) ==> !Holds(s[Pos(h, e, |s|)], name))
  {
    LookupFromFacts(s, h, 0, name);
    var r := LookupProbe(s, |s|, h, name);
    if r.NotFound? {
      forall j | 0 <= j < |s|
        ensures !Holds(s[j], name)
      {
        assert Pos(h, Offset(h, j, |s|), |s|) == j;
      }
    }
  }

  // ----------------------------------------------------------- insert

  lemma {:induction false} FreeFromFacts<R>(s: seq<Slot<R>>, h: int, d: nat)
    requires 0 <= h < |s| && d < |s|
    requires FreeFrom(s, |s|, h, d).Free?
    ensures var i := FreeFrom(s, |s|, h, d).index;
      i < |s| && s[i].None? && d <= Offset(h, i, |s|) &&
      forall e :: d <= e < Offset(h, i, |s|) ==> s[Pos(h, e, |s|)].Some?
    decreases |s| - d
  {
    if s[Pos(h, d, |s|)].Some? {
      FreeFromFacts(s, h, d + 1);
    }
  }

  /**
   * Before growth the insertion probe returns an empty slot, and every slot it
   * passed on the way from h is occupied.
   */
  lemma InsertLandsOnFirstEmpty<R>(s: seq<Slot<R>>, h: int)
    requires 0 <= h < |s|
    requires InsertProbe(s, |s|, h).Free?
    ensures var i := InsertProbe(s, |s|, h).index;
      i < |s| && s[i].None? &&
      forall e :: 0 <= e < Offset(h, i, |s|) ==> s[Pos(h, e, |s|)].Some?
  {
    FreeFromFacts(s, h, 0);
  }

  /**
   * Round trip: write a record for name into the slot the insertion probe chose
   * and look name up again with the same limit. The lookup finds it: at that
   * slot, or at an older record with the same name that lies earlier on the
   * probe path.
   */
  lemma InsertThenLookup<R>(s: seq<Slot<R>>, h: int, name: Name, v: R)
    requires 0 <= h < |s|
    requires InsertProbe(s, |s|, h).Free?
    ensures var i := InsertProbe(s, |s|, h).index;
      var r := LookupProbe(s[i := Some(Entry(name, v))], |s|, h, name);
      r.Found? && Offset(h, r.index, |s|) <= Offset(h, i, |s|) &&
      (r.index != i ==> Holds(s[r.index], name)) &&
      ((forall j :: 0 <= j < |s| ==> !Holds(s[j], name)) ==> r.index == i)
  {
    var i := InsertProbe(s, |s|, h).index;
    InsertLandsOnFirstEmpty(s, h);
    var t := s[i := Some(Entry(name, v))];
    assert Holds(t[i], name);
    LookupCorrect(t, h, name);
  }

  // ---------------------------------------------------- growth defect

  lemma {:induction false} FullProbeRunsOff<R>(s: seq<Slot<R>>, h: int, d: nat)
    requires forall i :: 0 <= i < |s| ==> s[i].Some?
    requires 0 <= h < |s| && h + d <= |s|
    ensures FreeFrom(s, 2 * |s|, h, d) == OutOfBounds
    decreases |s| - h - d
  {
    if h + d < |s| {
      FullProbeRunsOff(s, h, d + 1);
    }
  }

  /**
   * The insertion that fills the last slot doubles the limit without moving
   * anything, so the table it leaves is full: every later insertion runs off
   * the end of the array the caller holds.
   */
  lemma InsertAfterGrowth<R>(s: seq<Slot<R>>, h: int)
    requires 0 < |s| && forall i :: 0 <= i < |s| ==> s[i].Some?
    ensures InsertProbe(s, 2 * |s|, h) == OutOfBounds
  {
    if 0 <= h < |s| {
      FullProbeRunsOff(s, h, 0);
    }
  }

  lemma {:induction false} LookupRunsOff<R>(s: seq<Slot<R>>, h: int, d: nat, name: Name)
    requires 0 <= h < |s| && h + d <= |s|
    ensures var r := LookupFrom(s, 2 * |s|, h, d, name);
      r != NotFound &&
      (r.Found? ==> h + d <= r.index < |s| && Holds(s[r.index], name)) &&
      ((forall j :: h + d <= j < |s| ==> !Holds(s[j], name)) ==> r == Fault)
    decreases |s| - h - d
  {
    if h + d < |s| && !Holds(s[h + d], name) {
      LookupRunsOff(s, h, d + 1, name);
    }
  }

  /**
   * After growth a lookup never answers NotFound, and it only finds a record
   * that lies at or after the new hash index: a name stored before that index
   * (at its old position) faults instead of being found.
   */
  lemma LookupAfterGrowth<R>(s: seq<Slot<R>>, h: int, name: Name)
    requires 0 < |s|
    ensures var r := LookupProbe(s, 2 * |s|, h, name);
      r != NotFound &&
      (r.Found? ==> 0 <= h <= r.index < |s| && Holds(s[r.index], name)) &&
      ((forall j :: 0 <= j < |s| && h <= j ==> !Holds(s[j], name)) ==> r == Fault)
  {
    if 0 <= h < |s| {
      LookupRunsOff(s, h, 0, name);
    }
  }

  // ------------------------------------------------- hashing defects

  /** "Mom?", the element name the demo program registers and looks up. */
  const MOM: Name := [77, 111, 109, 63]

  /** "Hi" as a text-object id. */
  const HI: Name := [72, 105]

  /** One step of the accumulator while it stays below 2^64: no wrap-around happens. */
  lemma HashStep(s: seq<Byte>, c: Byte)
    requires 0 <= 2 * (HashFold(s) + SChar(c)) < TWO_64
    ensures HashFold(s + [c]) == 2 * (HashFold(s) + SChar(c))
  {
    var a := HashFold(s) + SChar(c);
    assert (s + [c])[..|s|] == s && (s + [c])[|s|] == c;
    assert HashFold(s + [c]) == (a % TWO_64 * 2) % TWO_64;
    ModSmall(a, TWO_64);
    ModSmall(2 * a, TWO_64);
  }

  lemma MomFold()
    ensures HashFold(MOM) == 2682
  {
    var s1: seq<Byte> := [77];
    var s2 := s1 + [111];
    var s3 := s2 + [109];
    assert s3 + [63] == MOM;
    HashStep([], 77);
    assert [] + [77] == s1;
    HashStep(s1, 111);
    HashStep(s2, 109);
    HashStep(s3, 63);
  }

  lemma MomHashes()
    ensures HashName(MOM, 32) == 26 && HashName(MOM, 64) == 58
  {
    MomFold();
    assert HashCast(MOM) == 2682;
    assert CDiv(2682, 32) == 83;
    assert CDiv(2682, 64) == 41;
  }

  /**
   * The growth defect on the demo's own element: in a full 32-slot element
   * table with "Mom?" at the slot its hash chose, the lookup finds it while the
   * limit is 32 and faults once the limit has doubled to 64, because the new
   * hash index 58 lies past the array.
   */
  lemma GrowthLosesStoredName<R>(s: seq<Slot<R>>, v: R)
    requires |s| == 32 && s[26] == Some(Entry(MOM, v))
    ensures LookupProbe(s, 32, HashName(MOM, 32), MOM) == Found(26)
    ensures LookupProbe(s, 64, HashName(MOM, 64), MOM) == Fault
  {
    MomHashes();
  }

  /**
   * The global-limit defect: a text-object table has 32 slots, but its hash is
   * taken modulo the element table's limit. Once that limit is 64, the id "Hi"
   * hashes to 50 and its insertion runs past the text table.
   */
  lemma TextTableProbedPastEnd<R>(s: seq<Slot<R>>)
    requires |s| == 32
    ensures HashName(HI, 64) == 50
    ensures InsertProbe(s, 32, HashName(HI, 64)) == OutOfBounds
  {
    HashStep([], 72);
    HashStep([72], 105);
    assert HashFold(HI) == 498;
    assert HashCast(HI) == 498;
    assert CDiv(498, 64) == 7;
  }

  function Repeat(c: Byte, n: nat): (s: seq<Byte>)
    ensures |s| == n && forall i :: 0 <= i < n ==> s[i] == c
  {
    if n == 0 then [] else Repeat(c, n - 1) + [c]
  }

  function Pow2(n: nat): (p: nat)
    ensures p > 0
  {
    if n == 0 then 1 else 2 * Pow2(n - 1)
  }

  lemma {:induction false} Pow2Add(a: nat, b: nat)
    ensures Pow2(a + b) == Pow2(a) * Pow2(b)
  {
    if b > 0 {
      Pow2Add(a, b - 1);
      assert Pow2(a + b) == 2 * Pow2(a + b - 1);
    }
  }

  /** The accumulator over n copies of an ASCII byte c, while it has not wrapped: c * (2^(n+1) - 2). */
  lemma {:induction false} HashFoldRepeat(c: Byte, n: nat)
    requires 0 < c < 128 && c * Pow2(n + 1) < TWO_64
    ensures HashFold(Repeat(c, n)) == c * (Pow2(n + 1) - 2)
  {
    if n > 0 {
      var p, h := Pow2(n), HashFold(Repeat(c, n - 1));
      assert Pow2(n + 1) == 2 * p;
      DoubleProduct(c, p);
      HashFoldRepeat(c, n - 1);
      assert SChar(c) == c;
      RepeatArith(c, p, h);
      HashStep(Repeat(c, n - 1), c);
      assert Repeat(c, n) == Repeat(c, n - 1) + [c];
    }
  }

  /** The bound that lets HashFoldRepeat recurse: c * p stays below c * 2p. */
  lemma DoubleProduct(c: int, p: int)
    requires 0 < c && 0 < p
    ensures c * p < c * (2 * p)
  {
  }

  /** One doubling step of HashFoldRepeat, with the accumulator h so far. */
  lemma RepeatArith(c: int, p: int, h: int)
    requires 0 < c && 0 < p && h == c * (p - 2) && c * (2 * p) < TWO_64
    ensures 0 <= 2 * (h + c) < TWO_64
    ensures 2 * (h + c) == c * (2 * p - 2)
  {
    assert c * (p - 2) + c == c * (p - 1);
    assert c * (2 * p - 2) == 2 * (c * (p - 1));
  }

  /**
   * The sign defect: 24 tildes, a plain ASCII name, reduce to 4227858180, at
   * or above 2^31, so the cast to int is negative and hashName returns -28. Its
   * insertion reads before the start of any table.
   */
  lemma LongNameHashesNegative<R>(s: seq<Slot<R>>)
    requires |s| == 32
    ensures HashName(Repeat(126, 24), 32) == -28
    ensures InsertProbe(s, 32, HashName(Repeat(126, 24), 32)) == OutOfBounds
  {
    assert Pow2(5) == 32;
    assert Pow2(10) == 1024 by { Pow2Add(5, 5); }
    assert Pow2(20) == 1048576 by { Pow2Add(10, 10); }
    assert Pow2(25) == 33554432 by { Pow2Add(20, 5); }
    HashFoldRepeat(126, 24);
    assert HashFold(Repeat(126, 24)) == 4227858180;
    assert HashCast(Repeat(126, 24)) == -67109116;
    assert CDiv(-67109116, 32) == -2097159;
  }
}
