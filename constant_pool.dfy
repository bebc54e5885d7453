/**
  The constant pool: an append-only table of entries with 1-based 16-bit
  indices, a deduplication map from entry value to index, the two-slot rule
  for Long and Double (section 4.4.5 of the JVMS), a two-phase read and a
  write that skips placeholder slots.

  The pure functions over `PoolState` specify the methods of the class
  `ConstantPool` at the end of this module; the lemmas are about them.
*/
module ConstantPools {
  import opened Wrappers
  import opened Bytes
  import opened Entries
  import MethodHandles

  /** The two fields of the pool: its slots and its deduplication map. */
  datatype PoolState = PoolState(entries: seq<Entry>, indexOf: map<Entry, uint16>)

  /** A placeholder sits exactly in the slot after each Long or Double. */
  ghost predicate PlaceholdersFollowWide(entries: seq<Entry>) {
    && (|entries| > 0 ==> !entries[0].Placeholder? && !Wide(entries[|entries| - 1]))
    && (forall i, j {:trigger entries[i], entries[j]} :: 0 <= i && j == i + 1 && j < |entries| ==>
          (entries[j].Placeholder? <==> Wide(entries[i])))
  }

  ghost predicate SlotsWellFormed(entries: seq<Entry>) {
    forall i :: 0 <= i < |entries| ==> entries[i].Placeholder? || WellFormed(entries[i])
  }

  /** A resolved method handle refers to the slot its index names. */
  ghost predicate ReferencesConsistent(entries: seq<Entry>) {
    forall i {:trigger entries[i].referenceIndex} ::
      0 <= i < |entries| && entries[i].MethodHandle? && entries[i].reference.Some? ==>
        && 1 <= entries[i].referenceIndex <= |entries|
        && entries[entries[i].referenceIndex - 1] == entries[i].reference.value
  }

  /** Every index in the map points back to an equal entry (what the check at `ConstantPool.cs:22` tests). */
  ghost predicate MapConsistent(st: PoolState) {
    forall k {:trigger st.indexOf[k]} :: k in st.indexOf ==>
      && 1 <= st.indexOf[k] <= |st.entries|
      && st.indexOf[k] < 0x1_0000
      && Key(st.entries[st.indexOf[k] - 1]) == k
      && (k.MethodHandle? ==> k.reference.Some?)
  }

  ghost predicate ValidPool(st: PoolState) {
    && MapConsistent(st)
    && PlaceholdersFollowWide(st.entries)
    && SlotsWellFormed(st.entries)
    && ReferencesConsistent(st.entries)
  }

  /** `s` grows into `t`: slots are only appended and assigned indices never change. */
  ghost predicate Extends(s: PoolState, t: PoolState) {
    && |s.entries| <= |t.entries| && t.entries[..|s.entries|] == s.entries
    && forall k :: k in s.indexOf ==> k in t.indexOf && t.indexOf[k] == s.indexOf[k]
  }

  lemma ExtendsItself(s: PoolState)
    ensures Extends(s, s)
  {
    assert s.entries[..|s.entries|] == s.entries;
  }

  lemma ExtendsTransitive(s: PoolState, t: PoolState, u: PoolState)
    requires Extends(s, t) && Extends(t, u)
    ensures Extends(s, u)
  {
    assert s.entries == t.entries[..|s.entries|];
    assert t.entries == u.entries[..|t.entries|];
    assert s.entries == u.entries[..|s.entries|];
  }

  /** Under a consistent map no other key shares an index, so the check at `ConstantPool.cs:22` never fails. */
  lemma MapIsInjective(st: PoolState, k: Entry, k': Entry)
    requires MapConsistent(st) && k in st.indexOf && k' in st.indexOf
    requires st.indexOf[k] == st.indexOf[k']
    ensures k == k'
  {
  }

  // ---------------------------------------------------------------- Find

  /** The slots `Append` adds on their own: the entry, and a placeholder after a Long or Double. */
  function AppendedSlots(e: Entry): seq<Entry> {
    [e] + (if Wide(e) then [Placeholder] else [])
  }

  /** `ConstantPool.cs:28-35`: append the entry (and a placeholder after a Long or Double), then check the slot count. */
  function Append(st: PoolState, e: Entry): (res: (PoolState, Result<uint16>))
    ensures res.1.Ok? <==> |st.entries| + |AppendedSlots(e)| <= 0xFFFF
    ensures res.1.Ok? ==> res.1.value == |st.entries| + 1 && res.0.indexOf == st.indexOf[Key(e) := |st.entries| + 1]
    ensures res.1.Err? ==> res.1.error == PoolOverflow && res.0.indexOf == st.indexOf
    ensures res.0.entries == st.entries + AppendedSlots(e)
  {
    var grown := st.entries + [e] + (if Wide(e) then [Placeholder] else []);
    var newKey: uint16 := (|st.entries| + 1) % 0x1_0000;
    if |grown| > 0xFFFF then (PoolState(grown, st.indexOf), Err(PoolOverflow))
    else (PoolState(grown, st.indexOf[Key(e) := newKey]), Ok(newKey))
  }

  /** `Find`: the index of an equal entry, or else the entry's dependencies first
      (`PutToConstantPool`; only a method handle has any in this model) and then the entry. */
  function FindIn(st: PoolState, e: Entry): (res: (PoolState, Result<uint16>))
    requires ValidPool(st) && WellFormed(e)
    ensures ValidPool(res.0) && Extends(st, res.0)
    ensures res.1.Ok? ==> Key(e) in res.0.indexOf && res.0.indexOf[Key(e)] == res.1.value
    ensures !e.MethodHandle? ==> res.0.indexOf.Keys <= st.indexOf.Keys + {e}
    decreases e
  {
    var k := Key(e);
    if k in st.indexOf then
      (st, Ok(st.indexOf[k]))
    else if e.MethodHandle? then
      if e.reference.None? then
        // Find(null): the dictionary rejects a null key
        (st, Err(ArgumentNull))
      else
        var (st1, r) := FindIn(st, e.reference.value);
        if r.Err? then (st1, Err(r.error))
        else
          AppendResolvedHandle(st, st1, e, r.value);
          Append(st1, e.(referenceIndex := r.value))
    else
      AppendValid(st, e);
      Append(st, e)
  }

  /** `Find` of an entry that has no dependencies (any kind but a method handle), stated
      without the pool invariant. */
  function FindPlainIn(st: PoolState, e: Entry): (res: (PoolState, Result<uint16>))
    ensures res.1.Err? ==> res.1.error == PoolOverflow
  {
    var k := Key(e);
    if k in st.indexOf then (st, Ok(st.indexOf[k])) else Append(st, e)
  }

  /** On a valid pool `FindPlainIn` is `Find`. */
  lemma FindPlainAgrees(st: PoolState, e: Entry)
    requires ValidPool(st) && WellFormed(e) && !e.MethodHandle?
    ensures FindIn(st, e) == FindPlainIn(st, e)
  {
    if Key(e) in st.indexOf {
      assert FindIn(st, e) == (st, Ok(st.indexOf[Key(e)]));
    } else {
      assert FindIn(st, e) == Append(st, e);
    }
  }

  /** Two lookups of entries without dependencies in a row keep the pool valid and only append to it. */
  lemma FindPlainTwiceValid(st: PoolState, e1: Entry, e2: Entry)
    requires ValidPool(st) && WellFormed(e1) && !e1.MethodHandle? && WellFormed(e2) && !e2.MethodHandle?
    ensures var st1 := FindPlainIn(st, e1).0;
      && ValidPool(st1) && Extends(st, st1)
      && ValidPool(FindPlainIn(st1, e2).0) && Extends(st, FindPlainIn(st1, e2).0)
  {
    var st1 := FindPlainIn(st, e1).0;
    FindPlainAgrees(st, e1);
    FindPlainAgrees(st1, e2);
    ExtendsTransitive(st, st1, FindPlainIn(st1, e2).0);
  }

  lemma AppendedSlotsShape(e: Entry)
    requires WellFormed(e)
    ensures PlaceholdersFollowWide(AppendedSlots(e))
    ensures !AppendedSlots(e)[0].Placeholder?
  {
  }

  lemma AppendKeepsSlots(st: PoolState, e: Entry)
    requires ValidPool(st) && WellFormed(e)
    ensures var grown := Append(st, e).0.entries;
      && grown == st.entries + AppendedSlots(e)
      && PlaceholdersFollowWide(grown)
      && SlotsWellFormed(grown)
      && grown[..|st.entries|] == st.entries
      && grown[|st.entries|] == e
  {
    AppendedSlotsShape(e);
    PlaceholdersConcat(st.entries, AppendedSlots(e));
  }

  lemma AppendKeepsMap(st: PoolState, e: Entry)
    requires MapConsistent(st) && (e.MethodHandle? ==> e.reference.Some?) && Key(e) !in st.indexOf
    ensures MapConsistent(Append(st, e).0)
    ensures Extends(st, Append(st, e).0)
  {
    AppendExtends(st, e);
    if Append(st, e).1.Ok? {
      AppendMapStored(st, e);
    } else {
      AppendMapOverflow(st, e);
    }
  }

  lemma AppendExtends(st: PoolState, e: Entry)
    requires Key(e) !in st.indexOf
    ensures Extends(st, Append(st, e).0)
  {
    assert Append(st, e).0.entries[..|st.entries|] == st.entries;
  }

  lemma AppendMapStored(st: PoolState, e: Entry)
    requires MapConsistent(st) && (e.MethodHandle? ==> e.reference.Some?) && Key(e) !in st.indexOf
    requires Append(st, e).1.Ok?
    ensures MapConsistent(Append(st, e).0)
  {
    var st' := Append(st, e).0;
    assert st'.entries[|st.entries|] == e;
    forall k | k in st'.indexOf
      ensures 1 <= st'.indexOf[k] <= |st'.entries| && st'.indexOf[k] < 0x1_0000
      ensures Key(st'.entries[st'.indexOf[k] - 1]) == k
      ensures k.MethodHandle? ==> k.reference.Some?
    {
      if k != Key(e) {
        assert st'.indexOf[k] == st.indexOf[k];
        assert st'.entries[st.indexOf[k] - 1] == st.entries[st.indexOf[k] - 1];
      }
    }
  }

  lemma AppendMapOverflow(st: PoolState, e: Entry)
    requires MapConsistent(st) && Append(st, e).1.Err?
    ensures MapConsistent(Append(st, e).0)
  {
    var st' := Append(st, e).0;
    forall k | k in st'.indexOf
      ensures 1 <= st'.indexOf[k] <= |st'.entries| && st'.indexOf[k] < 0x1_0000
      ensures Key(st'.entries[st'.indexOf[k] - 1]) == k
    {
      assert st'.entries[st.indexOf[k] - 1] == st.entries[st.indexOf[k] - 1];
    }
  }

  /** Appending keeps every handle's reference pointing at the slot it named. */
  lemma AppendKeepsReferences(st: PoolState, e: Entry)
    requires ValidPool(st) && WellFormed(e)
    requires e.MethodHandle? && e.reference.Some? ==>
      1 <= e.referenceIndex <= |st.entries| && st.entries[e.referenceIndex - 1] == e.reference.value
    ensures ReferencesConsistent(Append(st, e).0.entries)
  {
    var grown := Append(st, e).0.entries;
    AppendKeepsSlots(st, e);
    forall i | 0 <= i < |grown| && grown[i].MethodHandle? && grown[i].reference.Some?
      ensures 1 <= grown[i].referenceIndex <= |grown|
      ensures grown[grown[i].referenceIndex - 1] == grown[i].reference.value
    {
      if i < |st.entries| {
        assert grown[i] == st.entries[i];
        assert st.entries[i].referenceIndex == grown[i].referenceIndex;
      } else {
        assert grown[i] == e;
      }
    }
  }

  /** The handle is stored with its reference's index, after everything `Find` added for it. */
  lemma AppendResolvedHandle(st: PoolState, st1: PoolState, e: Entry, index: uint16)
    requires ValidPool(st1) && Extends(st, st1) && WellFormed(e) && e.MethodHandle? && e.reference.Some?
    requires Key(e) !in st.indexOf && st1.indexOf.Keys <= st.indexOf.Keys + {e.reference.value}
    requires e.reference.value in st1.indexOf && st1.indexOf[e.reference.value] == index
    ensures var st' := Append(st1, e.(referenceIndex := index)).0; ValidPool(st') && Extends(st, st')
  {
    var ref := e.reference.value;
    var stored := e.(referenceIndex := index);
    KeyOfMemberRef(st1.entries[index - 1], ref);
    assert Key(stored) == Key(e) && Key(e) != ref;
    AppendHandleValid(st1, stored);
    ExtendsTransitive(st, st1, Append(st1, stored).0);
  }

  lemma AppendValid(st: PoolState, e: Entry)
    requires ValidPool(st) && WellFormed(e) && !e.MethodHandle? && e !in st.indexOf
    ensures ValidPool(Append(st, e).0) && Extends(st, Append(st, e).0)
  {
    AppendKeepsSlots(st, e);
    AppendKeepsMap(st, e);
    AppendKeepsReferences(st, e);
  }

  lemma AppendHandleValid(st: PoolState, e: Entry)
    requires ValidPool(st) && WellFormed(e) && e.MethodHandle? && e.reference.Some? && Key(e) !in st.indexOf
    requires 1 <= e.referenceIndex <= |st.entries| && st.entries[e.referenceIndex - 1] == e.reference.value
    ensures ValidPool(Append(st, e).0) && Extends(st, Append(st, e).0)
  {
    AppendKeepsSlots(st, e);
    AppendKeepsMap(st, e);
    AppendKeepsReferences(st, e);
  }

  /** An entry equal to one already in the pool gets the stored index, and nothing changes. */
  lemma {:induction false} FindExisting(st: PoolState, e: Entry)
    requires ValidPool(st) && WellFormed(e) && Key(e) in st.indexOf
    ensures FindIn(st, e) == (st, Ok(st.indexOf[Key(e)]))
  {
  }

  /** A new entry without dependencies is appended and gets its 1-based position; the
      overflow check runs after the append, so on failure the grown list stays and the map does not grow. */
  lemma {:induction false} FindNew(st: PoolState, e: Entry)
    requires ValidPool(st) && WellFormed(e) && !e.MethodHandle? && e !in st.indexOf
    ensures var (st', r) := FindIn(st, e);
      && st'.entries == st.entries + [e] + (if Wide(e) then [Placeholder] else [])
      && (r.Ok? <==> |st'.entries| <= 0xFFFF)
      && (r.Ok? ==> r.value == |st.entries| + 1 && st'.indexOf == st.indexOf[e := r.value])
      && (r.Err? ==> r.error == PoolOverflow && st'.indexOf == st.indexOf)
  {
  }

  /** After `Find`, `GetEntry` of the index it returned is the entry (up to a handle's private index). */
  lemma {:induction false} FindThenGet(st: PoolState, e: Entry)
    requires ValidPool(st) && WellFormed(e) && FindIn(st, e).1.Ok?
    ensures var (st', r) := FindIn(st, e);
      && GetEntry(st'.entries, r.value, ClassOf(e).value).Ok?
      && Key(GetEntry(st'.entries, r.value, ClassOf(e).value).value) == Key(e)
      && (!e.MethodHandle? ==> GetEntry(st'.entries, r.value, ClassOf(e).value) == Ok(e))
  {
  }

  /** `Find` of an entry without dependencies fails only when the pool overflows,
      and the index it returns reads back the entry. */
  lemma FindPlain(st: PoolState, e: Entry)
    requires ValidPool(st) && WellFormed(e) && !e.MethodHandle?
    ensures var (st', r) := FindIn(st, e);
      && (r.Err? ==> r.error == PoolOverflow)
      && (r.Ok? ==> GetEntry(st'.entries, r.value, ClassOf(e).value) == Ok(e))
  {
    if Key(e) in st.indexOf {
      FindExisting(st, e);
    } else {
      FindNew(st, e);
    }
    if FindIn(st, e).1.Ok? {
      FindThenGet(st, e);
    }
  }

  /** Equal entries get one index: a second `Find` changes nothing and returns the first result. */
  lemma {:induction false} FindDeduplicates(st: PoolState, e1: Entry, e2: Entry)
    requires ValidPool(st) && WellFormed(e1) && WellFormed(e2) && Key(e1) == Key(e2)
    requires FindIn(st, e1).1.Ok?
    ensures var (st1, r1) := FindIn(st, e1); FindIn(st1, e2) == (st1, r1)
  {
  }

  /** A new Long or Double is followed by an inaccessible placeholder, so the next new entry gets index + 2. */
  lemma {:induction false} FindWide(st: PoolState, e: Entry, next: Entry, t: EntryTag)
    requires ValidPool(st) && WellFormed(e) && Wide(e) && e !in st.indexOf && FindIn(st, e).1.Ok?
    requires WellFormed(next) && !next.MethodHandle?
    ensures var (st', r) := FindIn(st, e);
      && |st'.entries| == r.value + 1 && st'.entries[r.value] == Placeholder
      && GetEntry(st'.entries, r.value + 1, t) == Err(InvalidCast)
      && (next !in st'.indexOf && FindIn(st', next).1.Ok? ==> FindIn(st', next).1.value == r.value + 2)
  {
  }

  /** `PutToConstantPool` of a new method handle: its reference is found first, and the
      handle is stored with the index `Find` returned for it, in the next slot. */
  lemma {:induction false} FindHandle(st: PoolState, e: Entry)
    requires ValidPool(st) && WellFormed(e) && e.MethodHandle? && e.reference.Some? && Key(e) !in st.indexOf
    ensures var (st1, ri) := FindIn(st, e.reference.value);
      && (ri.Err? ==> FindIn(st, e) == (st1, ri))
      && (ri.Ok? ==> FindIn(st, e) == Append(st1, e.(referenceIndex := ri.value)))
  {
  }

  /** A handle whose reference is still null cannot be found. */
  lemma {:induction false} FindUnresolvedHandle(st: PoolState, e: Entry)
    requires ValidPool(st) && WellFormed(e) && e.MethodHandle? && e.reference.None? && Key(e) !in st.indexOf
    ensures FindIn(st, e) == (st, Err(ArgumentNull))
  {
  }

  // ---------------------------------------------------------------- Read

  /** The stream constructors of the entry classes kept abstract here: given the tag, one entry. */
  type BodyReader = (EntryTag, seq<uint8>, nat) -> Result<(Entry, nat)>

  /** What the entry classes guarantee: the constructor a tag selects builds an entry of that class. */
  ghost predicate Typed(readBody: BodyReader) {
    forall t, data, pos :: readBody(t, data, pos).Ok? ==> ClassOf(readBody(t, data, pos).value.0) == Some(t)
  }

  /** `ConstantPool.cs:48-66`: the tag byte, then the entry of the class it names. */
  function ReadEntry(data: seq<uint8>, pos: nat, readBody: BodyReader): Result<(Entry, nat)> {
    match ReadByteFully(data, pos)
    case Err(err) => Err(err)
    case Ok((b, p)) =>
      match TagOfByte(b)
      case None => Err(ArgumentOutOfRange)
      case Some(MethodHandleTag) => MethodHandles.ReadBody(data, p)
      case Some(t) => readBody(t, data, p)
  }

  /** A reader of one entry of the pool, tag included. */
  type EntryReader = (seq<uint8>, nat) -> Result<(Entry, nat)>

  /** `ReadEntry` with the entry classes fixed. */
  function EntryReaderOf(readBody: BodyReader): EntryReader {
    (data: seq<uint8>, pos: nat) => ReadEntry(data, pos, readBody)
  }

  /** What is read from the stream is well formed, and no method handle refers to anything yet. */
  ghost predicate ReadsWellFormed(readEntry: EntryReader) {
    forall data, pos :: readEntry(data, pos).Ok? ==>
      WellFormed(readEntry(data, pos).value.0)
      && (readEntry(data, pos).value.0.MethodHandle? ==> readEntry(data, pos).value.0.reference.None?)
  }

  lemma ReadEntryWellFormed(data: seq<uint8>, pos: nat, readBody: BodyReader)
    requires Typed(readBody)
    ensures var r := ReadEntry(data, pos, readBody);
      r.Ok? ==> WellFormed(r.value.0) && (r.value.0.MethodHandle? ==> r.value.0.reference.None?)
  {
    if ReadByteFully(data, pos).Ok? {
      var (b, p) := ReadByteFully(data, pos).value;
      var t := TagOfByte(b);
      if t.Some? && t.value != MethodHandleTag {
        var r := readBody(t.value, data, p);
        assert r.Ok? ==> ClassOf(r.value.0) == Some(t.value);
      }
    }
  }

  lemma ReadEntryTyped(readBody: BodyReader)
    requires Typed(readBody)
    ensures ReadsWellFormed(EntryReaderOf(readBody))
  {
    forall data, pos
      ensures var r := ReadEntry(data, pos, readBody);
        r.Ok? ==> WellFormed(r.value.0) && (r.value.0.MethodHandle? ==> r.value.0.reference.None?)
    {
      ReadEntryWellFormed(data, pos, readBody);
    }
  }

  /** `ConstantPool.cs:46-73`: `remaining` more slots are due; a Long or Double fills its own and the next.
      The slots read before an error are returned with it, as they stay appended. */
  function ReadSlots(data: seq<uint8>, pos: nat, remaining: int, readEntry: EntryReader): (seq<Entry>, Result<nat>)
    decreases remaining
  {
    if remaining <= 0 then ([], Ok(pos))
    else
      match readEntry(data, pos)
      case Err(err) => ([], Err(err))
      case Ok((e, next)) =>
        var here := AppendedSlots(e);
        var (rest, r) := ReadSlots(data, next, remaining - |here|, readEntry);
        (here + rest, r)
  }

  /** `Read` fills exactly the `size - 1` slots announced, Long and Double counting twice;
      only a Long or Double in the very last slot overshoots by its placeholder. */
  lemma {:induction false} ReadSlotsCount(data: seq<uint8>, pos: nat, remaining: int, readEntry: EntryReader)
    ensures var (s, r) := ReadSlots(data, pos, remaining, readEntry);
      && (remaining <= 0 ==> s == [])
      && (r.Ok? && remaining > 0 ==> |s| == remaining || (|s| == remaining + 1 && Wide(s[|s| - 2])))
      && |s| <= (if remaining <= 0 then 0 else remaining + 1)
    decreases remaining
  {
    if remaining > 0 {
      match readEntry(data, pos)
      case Err(_) =>
      case Ok((e, next)) =>
        var here := if Wide(e) then [e, Placeholder] else [e];
        ReadSlotsCount(data, next, remaining - |here|, readEntry);
        var (rest, r) := ReadSlots(data, next, remaining - |here|, readEntry);
        if r.Ok? && |here + rest| == remaining + 1 {
          if rest == [] {
            assert (here + rest)[0] == e;
          } else {
            assert (here + rest)[|here + rest| - 2] == rest[|rest| - 2];
          }
        }
    }
  }

  /** One more entry read: the slots so far grow by it (and its placeholder), and what is
      still due is the rest. */
  lemma ReadSlotsStep(slots: seq<Entry>, data: seq<uint8>, pos: nat, remaining: int, readEntry: EntryReader)
      returns (rest: (seq<Entry>, Result<nat>))
    requires remaining > 0 && readEntry(data, pos).Ok?
    ensures var (e, next) := readEntry(data, pos).value;
      && rest == ReadSlots(data, next, remaining - |AppendedSlots(e)|, readEntry)
      && (slots + ReadSlots(data, pos, remaining, readEntry).0, ReadSlots(data, pos, remaining, readEntry).1)
         == ((slots + AppendedSlots(e)) + rest.0, rest.1)
  {
    var (e, next) := readEntry(data, pos).value;
    rest := ReadSlots(data, next, remaining - |AppendedSlots(e)|, readEntry);
    assert ReadSlots(data, pos, remaining, readEntry) == (AppendedSlots(e) + rest.0, rest.1);
    assert slots + (AppendedSlots(e) + rest.0) == (slots + AppendedSlots(e)) + rest.0;
  }

  /** The slots read have the pool's shape: placeholders right after each Long and Double. */
  lemma {:induction false} ReadSlotsShape(data: seq<uint8>, pos: nat, remaining: int, readEntry: EntryReader)
    requires ReadsWellFormed(readEntry)
    ensures var (s, r) := ReadSlots(data, pos, remaining, readEntry);
      && PlaceholdersFollowWide(s)
      && SlotsWellFormed(s)
      && (forall i :: 0 <= i < |s| && s[i].MethodHandle? ==> s[i].reference.None?)
    decreases remaining
  {
    if remaining > 0 {
      match readEntry(data, pos)
      case Err(_) =>
      case Ok((e, next)) =>
        var here := AppendedSlots(e);
        ReadSlotsShape(data, next, remaining - |here|, readEntry);
        var (rest, r) := ReadSlots(data, next, remaining - |here|, readEntry);
        AppendedSlotsShape(e);
        PlaceholdersConcat(here, rest);
        var s := here + rest;
        forall i | 0 <= i < |s|
          ensures s[i].Placeholder? || WellFormed(s[i])
          ensures s[i].MethodHandle? ==> s[i].reference.None?
        {
          if i >= |here| {
            assert s[i] == rest[i - |here|];
          }
        }
    }
  }

  lemma PlaceholdersConcat(a: seq<Entry>, b: seq<Entry>)
    requires PlaceholdersFollowWide(a) && PlaceholdersFollowWide(b)
    ensures PlaceholdersFollowWide(a + b)
  {
    var c := a + b;
    forall i, j | 0 <= i && j == i + 1 && j < |c|
      ensures c[j].Placeholder? <==> Wide(c[i])
    {
      if j < |a| {
        assert c[i] == a[i] && c[j] == a[j];
      } else if j == |a| {
        assert c[i] == a[|a| - 1] && c[j] == b[0];
      } else {
        assert c[i] == b[i - |a|] && c[j] == b[j - |a|];
      }
    }
    if |b| > 0 {
      assert c[|c| - 1] == b[|b| - 1];
    }
  }

  /** `ProcessFromConstantPool` of any entry; only a method handle has something to resolve here. */
  function ResolveEntry(e: Entry, entries: seq<Entry>): (r: Result<Entry>)
    ensures r.Ok? ==> ClassOf(r.value) == ClassOf(e)
    ensures r.Ok? && !e.MethodHandle? ==> r.value == e
  {
    if e.MethodHandle? then MethodHandles.ProcessFromConstantPool(e, entries) else Ok(e)
  }

  /** `ConstantPool.cs:75-76`: every slot in order, each against the pool as it stands then.
      The slots resolved before an error keep their references. */
  function ResolveFrom(entries: seq<Entry>, from: nat): (seq<Entry>, Result<()>)
    requires from <= |entries|
    decreases |entries| - from
  {
    if from == |entries| then (entries, Ok(()))
    else
      match ResolveEntry(entries[from], entries)
      case Err(err) => (entries, Err(err))
      case Ok(e) => ResolveFrom(entries[from := e], from + 1)
  }

  /** `Read`: the declared size, then the slots, and only then the resolution pass.
      The map is not touched. */
  function ReadInto(st: PoolState, data: seq<uint8>, pos: nat, readBody: BodyReader): (PoolState, Result<nat>) {
    match ReadU16(data, pos)
    case Err(err) => (st, Err(err))
    case Ok((size, p)) =>
      var (slots, r) := ReadSlots(data, p, size - 1, EntryReaderOf(readBody));
      ResolvePass(PoolState(st.entries + slots, st.indexOf), r)
  }

  /** The resolution pass over the pool read so far, run only when every slot was read. */
  function ResolvePass(read: PoolState, r: Result<nat>): (PoolState, Result<nat>) {
    if r.Err? then (read, Err(r.error))
    else
      var (resolved, rr) := ResolveFrom(read.entries, 0);
      (PoolState(resolved, read.indexOf), if rr.Err? then Err(rr.error) else Ok(r.value))
  }

  /** Two pools of the same shape: the same class in every slot, and equal slots except for method handles. */
  ghost predicate SameShape(a: seq<Entry>, b: seq<Entry>) {
    && |a| == |b|
    && (forall i :: 0 <= i < |a| ==> ClassOf(a[i]) == ClassOf(b[i]))
    && (forall i :: 0 <= i < |a| && !a[i].MethodHandle? ==> a[i] == b[i])
  }

  /** A handle resolves to a member reference, and resolution changes no member reference,
      so what a slot resolves to does not depend on which handles are resolved already. */
  lemma {:induction false} ResolveEntryDependsOnShape(e: Entry, a: seq<Entry>, b: seq<Entry>)
    requires SameShape(a, b)
    ensures ResolveEntry(e, a) == ResolveEntry(e, b)
  {
    if e.MethodHandle? {
      var i := e.referenceIndex;
      if 1 <= i <= |a| {
        assert ClassOf(a[i - 1]) == ClassOf(b[i - 1]);
        if !a[i - 1].MethodHandle? {
          assert a[i - 1] == b[i - 1];
        }
      }
    }
  }

  /** Resolution after reading (the two-phase load): the pass succeeds exactly when every slot
      resolves against the complete pool, and then each slot holds that resolution, so a
      reference to a later slot resolves like any other. */
  lemma {:induction false} ResolveAgainstCompletePool(orig: seq<Entry>, cur: seq<Entry>, from: nat)
    requires SameShape(orig, cur) && from <= |cur| && cur[from..] == orig[from..]
    requires forall i :: 0 <= i < from ==> ResolveEntry(orig[i], orig) == Ok(cur[i])
    ensures var (fin, r) := ResolveFrom(cur, from);
      && (r.Ok? <==> forall i :: from <= i < |orig| ==> ResolveEntry(orig[i], orig).Ok?)
      && (r.Ok? ==> |fin| == |orig| && forall i :: 0 <= i < |orig| ==> ResolveEntry(orig[i], orig) == Ok(fin[i]))
    decreases |cur| - from
  {
    if from < |cur| {
      assert cur[from] == orig[from];
      ResolveEntryDependsOnShape(orig[from], orig, cur);
      match ResolveEntry(cur[from], cur)
      case Err(_) =>
      case Ok(e) =>
        var next := cur[from := e];
        assert next[from + 1..] == orig[from + 1..] by {
          assert next[from + 1..] == cur[from + 1..];
          assert cur[from + 1..] == cur[from..][1..];
        }
        ResolveAgainstCompletePool(orig, next, from + 1);
    }
  }

  lemma ResolveFromStart(entries: seq<Entry>)
    ensures var (fin, r) := ResolveFrom(entries, 0);
      && (r.Ok? <==> forall i :: 0 <= i < |entries| ==> ResolveEntry(entries[i], entries).Ok?)
      && (r.Ok? ==> |fin| == |entries| && forall i :: 0 <= i < |entries| ==> ResolveEntry(entries[i], entries) == Ok(fin[i]))
  {
    ResolveAgainstCompletePool(entries, entries, 0);
  }

  lemma ResolveHandleFacts(e: Entry, entries: seq<Entry>)
    requires e.MethodHandle? && ResolveEntry(e, entries).Ok?
    ensures 1 <= e.referenceIndex <= |entries| && IsMemberRef(entries[e.referenceIndex - 1])
    ensures ResolveEntry(e, entries).value == e.(reference := Some(entries[e.referenceIndex - 1]))
  {
  }

  /** The slot classes decide where the placeholders are. */
  lemma ShapeKeepsPlaceholders(a: seq<Entry>, b: seq<Entry>)
    requires SameShape(a, b) && PlaceholdersFollowWide(a)
    ensures PlaceholdersFollowWide(b)
  {
    forall i, j | 0 <= i && j == i + 1 && j < |b|
      ensures b[j].Placeholder? <==> Wide(b[i])
    {
      assert ClassOf(a[i]) == ClassOf(b[i]) && ClassOf(a[j]) == ClassOf(b[j]);
      assert a[j].Placeholder? <==> Wide(a[i]);
    }
    if |b| > 0 {
      assert ClassOf(a[0]) == ClassOf(b[0]);
      assert ClassOf(a[|a| - 1]) == ClassOf(b[|b| - 1]);
    }
  }

  lemma ResolveStepShape(cur: seq<Entry>, from: nat, e: Entry)
    requires from < |cur| && ResolveEntry(cur[from], cur) == Ok(e)
    ensures SameShape(cur, cur[from := e])
  {
  }

  /** Resolving one handle keeps every reference pointing at the slot it names:
      a reference designates a member reference, which no resolution changes. */
  lemma ResolveStepReferences(cur: seq<Entry>, from: nat, e: Entry)
    requires ReferencesConsistent(cur) && SlotsWellFormed(cur)
    requires from < |cur| && ResolveEntry(cur[from], cur) == Ok(e)
    ensures ReferencesConsistent(cur[from := e]) && SlotsWellFormed(cur[from := e])
  {
    var next := cur[from := e];
    if cur[from].MethodHandle? {
      ResolveHandleFacts(cur[from], cur);
      forall i | 0 <= i < |next| && next[i].MethodHandle? && next[i].reference.Some?
        ensures 1 <= next[i].referenceIndex <= |next|
        ensures next[next[i].referenceIndex - 1] == next[i].reference.value
      {
        if i != from {
          assert next[i] == cur[i];
          assert cur[i].referenceIndex == next[i].referenceIndex;
          assert IsMemberRef(cur[cur[i].referenceIndex - 1]);
        }
      }
    }
  }

  /** A handle the map points at is resolved already, and resolving it again changes nothing. */
  lemma ResolveStepMap(cur: seq<Entry>, indexOf: map<Entry, uint16>, from: nat, e: Entry)
    requires ValidPool(PoolState(cur, indexOf))
    requires from < |cur| && ResolveEntry(cur[from], cur) == Ok(e)
    ensures MapConsistent(PoolState(cur[from := e], indexOf))
  {
    var next := cur[from := e];
    forall k | k in indexOf
      ensures Key(next[indexOf[k] - 1]) == k
    {
      if indexOf[k] - 1 == from && cur[from].MethodHandle? {
        var h := cur[from];
        assert Key(h) == k;
        assert h.reference.Some?;
        ResolveHandleFacts(h, cur);
        assert e == h;
      }
    }
  }

  /** One resolution step keeps the pool valid. */
  lemma ResolveStepValid(cur: seq<Entry>, indexOf: map<Entry, uint16>, from: nat, e: Entry)
    requires ValidPool(PoolState(cur, indexOf)) && from < |cur|
    requires ResolveEntry(cur[from], cur) == Ok(e)
    ensures ValidPool(PoolState(cur[from := e], indexOf))
  {
    ResolveStepShape(cur, from, e);
    ShapeKeepsPlaceholders(cur, cur[from := e]);
    ResolveStepReferences(cur, from, e);
    ResolveStepMap(cur, indexOf, from, e);
  }

  lemma {:induction false} ResolveFromValid(cur: seq<Entry>, indexOf: map<Entry, uint16>, from: nat)
    requires ValidPool(PoolState(cur, indexOf)) && from <= |cur|
    ensures ValidPool(PoolState(ResolveFrom(cur, from).0, indexOf))
    decreases |cur| - from
  {
    if from < |cur| {
      match ResolveEntry(cur[from], cur)
      case Err(_) =>
      case Ok(e) =>
        ResolveStepValid(cur, indexOf, from, e);
        ResolveFromValid(cur[from := e], indexOf, from + 1);
    }
  }

  /** Slots read from the stream refer to nothing yet, so appending them keeps the pool valid. */
  lemma AppendReadSlots(st: PoolState, slots: seq<Entry>)
    requires ValidPool(st) && PlaceholdersFollowWide(slots) && SlotsWellFormed(slots)
    requires forall i :: 0 <= i < |slots| && slots[i].MethodHandle? ==> slots[i].reference.None?
    ensures ValidPool(PoolState(st.entries + slots, st.indexOf))
  {
    var read := st.entries + slots;
    PlaceholdersConcat(st.entries, slots);
    forall i | 0 <= i < |read|
      ensures read[i].Placeholder? || WellFormed(read[i])
      ensures read[i].MethodHandle? && read[i].reference.Some? ==>
        1 <= read[i].referenceIndex <= |st.entries| && read[read[i].referenceIndex - 1] == read[i].reference.value
    {
      if i < |st.entries| {
        assert read[i] == st.entries[i];
        if read[i].MethodHandle? {
          assert read[i].referenceIndex == st.entries[i].referenceIndex;
        }
      } else {
        assert read[i] == slots[i - |st.entries|];
      }
    }
    forall k | k in st.indexOf
      ensures read[st.indexOf[k] - 1] == st.entries[st.indexOf[k] - 1]
    {
    }
  }

  /** The slots read from a stream, appended to a valid pool, leave it valid. */
  lemma ReadSlotsValid(st: PoolState, data: seq<uint8>, pos: nat, remaining: int, readBody: BodyReader)
    requires ValidPool(st) && Typed(readBody)
    ensures ValidPool(PoolState(st.entries + ReadSlots(data, pos, remaining, EntryReaderOf(readBody)).0, st.indexOf))
  {
    ReadEntryTyped(readBody);
    ReadSlotsShape(data, pos, remaining, EntryReaderOf(readBody));
    AppendReadSlots(st, ReadSlots(data, pos, remaining, EntryReaderOf(readBody)).0);
  }

  /** Reading appends slots of the right shape, so the pool stays valid through `Read`. */
  lemma ReadIntoValid(st: PoolState, data: seq<uint8>, pos: nat, readBody: BodyReader)
    requires ValidPool(st) && Typed(readBody)
    ensures ValidPool(ReadInto(st, data, pos, readBody).0)
  {
    var header := ReadU16(data, pos);
    if header.Ok? {
      var size: int, p := header.value.0, header.value.1;
      var read := ReadSlots(data, p, size - 1, EntryReaderOf(readBody));
      var grown := PoolState(st.entries + read.0, st.indexOf);
      assert ReadInto(st, data, pos, readBody) == ResolvePass(grown, read.1);
      ReadSlotsValid(st, data, p, size - 1, readBody);
      ResolvePassValid(grown, read.1);
    } else {
      assert ReadInto(st, data, pos, readBody).0 == st;
    }
  }

  lemma ResolvePassValid(read: PoolState, r: Result<nat>)
    requires ValidPool(read)
    ensures ValidPool(ResolvePass(read, r).0)
  {
    if r.Ok? {
      ResolveFromValid(read.entries, read.indexOf, 0);
    }
  }

  // ---------------------------------------------------------------- Write

  /** The `Write` of the entry classes kept abstract here. */
  type BodyWriter = Entry -> seq<uint8>

  /** The `Tag` property of each entry class, as written (the placeholder's throws, and `Write`
      never asks it). */
  function TagProperty(e: Entry): uint8
    requires !e.Placeholder?
  {
    match e
    case Utf8(_) => TagByte(Utf8Tag)
    case Integer(_) => TagByte(IntegerTag)
    case Float(_) => TagByte(FloatTag)
    case Long(_) => TagByte(LongTag)
    case Double(_) => TagByte(DoubleTag)
    case Class(_) => TagByte(ClassTag)
    case String(_) => TagByte(StringTag)
    case FieldReference(_) => TagByte(FieldReferenceTag)
    case MethodReference(_) => TagByte(MethodReferenceTag)
    case InterfaceMethodReference(_) => TagByte(InterfaceMethodReferenceTag)
    case NameAndType(_, _) => TagByte(NameAndTypeTag)
    case MethodHandle(_, _, _) => TagByte(MethodHandles.Tag())
    case MethodType(_) => TagByte(MethodTypeTag)
    case InvokeDynamic(_, _, _) => TagByte(InvokeDynamicTag)
  }

  /** Every class but the method handle writes the tag of its own class. */
  lemma TagPropertyOfClass(e: Entry)
    requires !e.Placeholder?
    ensures !e.MethodHandle? ==> TagProperty(e) == TagByte(ClassOf(e).value)
    ensures e.MethodHandle? ==> TagProperty(e) == TagByte(MethodTypeTag) != TagByte(ClassOf(e).value)
  {
  }

  /** `ConstantPool.cs:97-98`: the entry's `Tag` byte, then its own `Write`. */
  function EntryBytes(e: Entry, writeBody: BodyWriter): seq<uint8>
    requires WellFormed(e)
  {
    [TagProperty(e)] + (if e.MethodHandle? then MethodHandles.WriteBody(e) else writeBody(e))
  }

  /** `ConstantPool.cs:97`: a placeholder slot writes nothing. */
  function SlotBytes(e: Entry, writeBody: BodyWriter): seq<uint8>
    requires e.Placeholder? || WellFormed(e)
  {
    if e.Placeholder? then [] else EntryBytes(e, writeBody)
  }

  /** `ConstantPool.cs:95-99`: every slot but the placeholders, in pool order. */
  function SlotsBytes(entries: seq<Entry>, writeBody: BodyWriter): seq<uint8>
    requires SlotsWellFormed(entries)
  {
    if entries == [] then []
    else SlotsBytes(entries[..|entries| - 1], writeBody) + SlotBytes(entries[|entries| - 1], writeBody)
  }

  /** `Write`: the count check, the header `(ushort)(count + 1)`, then the slots. */
  function Serialize(entries: seq<Entry>, writeBody: BodyWriter): Result<seq<uint8>>
    requires SlotsWellFormed(entries)
  {
    if |entries| > 0xFFFF then Err(ArgumentOutOfRange)
    else Ok(EncodeU16((|entries| + 1) % 0x1_0000) + SlotsBytes(entries, writeBody))
  }

  /** The slots are written in pool order: the bytes of two runs of slots are concatenated. */
  lemma {:induction false} SlotsBytesConcat(a: seq<Entry>, b: seq<Entry>, writeBody: BodyWriter)
    requires SlotsWellFormed(a) && SlotsWellFormed(b)
    ensures SlotsWellFormed(a + b)
    ensures SlotsBytes(a + b, writeBody) == SlotsBytes(a, writeBody) + SlotsBytes(b, writeBody)
    decreases |b|
  {
    var c := a + b;
    assert SlotsWellFormed(c) by {
      forall i | 0 <= i < |c|
        ensures c[i].Placeholder? || WellFormed(c[i])
      {
        if i >= |a| {
          assert c[i] == b[i - |a|];
        }
      }
    }
    if b == [] {
      assert c == a;
    } else {
      var b' := b[..|b| - 1];
      assert SlotsWellFormed(b');
      SlotsBytesConcat(a, b', writeBody);
      assert c[..|c| - 1] == a + b';
      assert c[|c| - 1] == b[|b| - 1];
    }
  }

  /** The bytes of one slot. */
  lemma SlotsBytesSingle(e: Entry, writeBody: BodyWriter)
    requires e.Placeholder? || WellFormed(e)
    ensures SlotsWellFormed([e])
    ensures SlotsBytes([e], writeBody) == SlotBytes(e, writeBody)
  {
    assert [e][..0] == [];
  }

  lemma SlotsBytesStep(entries: seq<Entry>, i: nat, writeBody: BodyWriter)
    requires SlotsWellFormed(entries) && i < |entries|
    ensures SlotsWellFormed(entries[..i]) && SlotsWellFormed(entries[..i + 1])
    ensures SlotsBytes(entries[..i + 1], writeBody) == SlotsBytes(entries[..i], writeBody) + SlotBytes(entries[i], writeBody)
  {
    assert entries[..i + 1][..i] == entries[..i];
  }

  /** The header is the slot count plus one; a count above 65535 is rejected. */
  lemma SerializeHeader(entries: seq<Entry>, writeBody: BodyWriter)
    requires SlotsWellFormed(entries)
    ensures Serialize(entries, writeBody).Ok? <==> |entries| <= 0xFFFF
    ensures |entries| < 0xFFFF ==>
      var w := Serialize(entries, writeBody).value; DecodeU16(w[0], w[1]) == |entries| + 1
  {
  }

  /** As written: with 65535 slots, which `Find` allows, the `(ushort)` cast wraps the header
      to 0, and reading that header back yields an empty pool. */
  lemma FullPoolHeaderWraps(entries: seq<Entry>, writeBody: BodyWriter, readBody: BodyReader)
    requires SlotsWellFormed(entries) && |entries| == 0xFFFF
    ensures Serialize(entries, writeBody).Ok?
    ensures Serialize(entries, writeBody).value[..2] == [0, 0]
    ensures ReadInto(PoolState([], map[]), Serialize(entries, writeBody).value, 0, readBody)
            == (PoolState([], map[]), Ok(2))
  {
  }

  /** Corrected: `constant_pool_count` is a u2 one above the slot count
      (section 4.1 of the JVMS), so at most 65534 slots can be written. */
  function SerializeChecked(entries: seq<Entry>, writeBody: BodyWriter): Result<seq<uint8>>
    requires SlotsWellFormed(entries)
  {
    if |entries| >= 0xFFFF then Err(ArgumentOutOfRange)
    else Ok(EncodeU16(|entries| + 1) + SlotsBytes(entries, writeBody))
  }

  lemma CheckedHeaderCountsSlots(entries: seq<Entry>, writeBody: BodyWriter)
    requires SlotsWellFormed(entries)
    ensures SerializeChecked(entries, writeBody).Ok? <==> |entries| < 0xFFFF
    ensures SerializeChecked(entries, writeBody).Ok? ==>
      var w := SerializeChecked(entries, writeBody).value;
      ReadU16(w, 0).Ok? && ReadU16(w, 0).value.0 - 1 == |entries|
  {
  }

  /** As written: a method handle is written with the MethodType tag, so the reader hands its
      bytes to the MethodType constructor and never reads a method handle back. */
  lemma HandleReadsBackAsMethodType(e: Entry, data: seq<uint8>, pos: nat, writeBody: BodyWriter, readBody: BodyReader)
    requires WellFormed(e) && e.MethodHandle? && Typed(readBody)
    requires At(data, pos, EntryBytes(e, writeBody))
    ensures ReadEntry(data, pos, readBody).Ok? ==>
      ClassOf(ReadEntry(data, pos, readBody).value.0) == Some(MethodTypeTag)
  {
    assert data[pos] == EntryBytes(e, writeBody)[0] == 16;
  }

  /** Corrected: the tag byte of the entry's own class. */
  function CorrectedEntryBytes(e: Entry, writeBody: BodyWriter): seq<uint8>
    requires WellFormed(e)
  {
    [TagByte(ClassOf(e).value)] + (if e.MethodHandle? then MethodHandles.WriteBody(e) else writeBody(e))
  }

  lemma CorrectedHandleRoundTrip(e: Entry, data: seq<uint8>, pos: nat, writeBody: BodyWriter, readBody: BodyReader)
    requires WellFormed(e) && e.MethodHandle?
    requires At(data, pos, CorrectedEntryBytes(e, writeBody))
    ensures ReadEntry(data, pos, readBody) == Ok((e.(reference := None), pos + 4))
  {
    var w := CorrectedEntryBytes(e, writeBody);
    assert data[pos] == w[0] == 15;
    AtConcat(data, pos, [15], MethodHandles.WriteBody(e));
    MethodHandles.BodyRoundTrip(e, data, pos + 1);
  }

  // ---------------------------------------------------------------- writers and readers of attributes

  /** An output under construction: `front` is written before whatever `res` writes,
      and a failure discards both. */
  function Prefixed(front: seq<uint8>, res: (PoolState, Result<seq<uint8>>)): (PoolState, Result<seq<uint8>>) {
    (res.0, if res.1.Ok? then Ok(front + res.1.value) else res.1)
  }

  lemma PrefixedTwice(a: seq<uint8>, b: seq<uint8>, res: (PoolState, Result<seq<uint8>>))
    ensures Prefixed(a, Prefixed(b, res)) == Prefixed(a + b, res)
  {
    if res.1.Ok? {
      assert a + (b + res.1.value) == (a + b) + res.1.value;
    }
  }

  lemma PrefixedNothing(res: (PoolState, Result<seq<uint8>>))
    ensures Prefixed([], res) == res
  {
    if res.1.Ok? {
      assert [] + res.1.value == res.1.value;
    }
  }

  /** The pool a reader sees starts with the slots of the pool `st` the writer left. */
  ghost predicate Covers(entries: seq<Entry>, st: PoolState) {
    |st.entries| <= |entries| && entries[..|st.entries|] == st.entries
  }

  lemma CoversEarlier(entries: seq<Entry>, s: PoolState, t: PoolState)
    requires Extends(s, t) && Covers(entries, t)
    ensures Covers(entries, s)
  {
    assert entries[..|s.entries|] == entries[..|t.entries|][..|s.entries|];
  }

  // ---------------------------------------------------------------- the class

  class ConstantPool {
    var entries: seq<Entry>
    var indexOf: map<Entry, uint16>

    function State(): PoolState
      reads this
    {
      PoolState(entries, indexOf)
    }

    ghost predicate Valid()
      reads this
    {
      ValidPool(State())
    }

    constructor ()
      ensures entries == [] && indexOf == map[] && Valid()
    {
      entries := [];
      indexOf := map[];
    }

    /** `GetEntry<T>(id)`. */
    function GetEntry(id: uint16, t: EntryTag): Result<Entry>
      reads this
    {
      Entries.GetEntry(entries, id, t)
    }

    method Find(e: Entry) returns (r: Result<uint16>)
      requires Valid() && WellFormed(e)
      modifies this
      ensures (State(), r) == FindIn(old(State()), e)
      ensures Valid()
      decreases e
    {
      var k := Key(e);
      if k in indexOf {
        var index := indexOf[k];
        // the check at `ConstantPool.cs:22`: the key stored under `index` is equal to `e`
        forall k' | k' in indexOf && indexOf[k'] == index
          ensures k' == k
        {
          MapIsInjective(State(), k, k');
        }
        return Ok(index);
      }
      if !e.MethodHandle? {
        r := Store(e);
        return;
      }
      if e.reference.None? {
        return Err(ArgumentNull);
      }
      FindHandle(State(), e);
      var index := Find(e.reference.value);
      if index.Err? {
        return Err(index.error);
      }
      r := Store(e.(referenceIndex := index.value));
    }

    /** `ConstantPool.cs:28-35`: the entry is appended, with a placeholder after a Long or Double,
        before the slot count is checked. */
    method Store(e: Entry) returns (r: Result<uint16>)
      modifies this
      ensures (State(), r) == Append(old(State()), e)
    {
      ghost var before := entries;
      entries := entries + [e];
      var newKey: uint16 := |entries| % 0x1_0000;
      if Wide(e) {
        entries := entries + [Placeholder];
      }
      assert entries == before + AppendedSlots(e);
      if |entries| > 0xFFFF {
        return Err(PoolOverflow);
      }
      indexOf := indexOf[Key(e) := newKey];
      return Ok(newKey);
    }

    method Read(data: seq<uint8>, pos: nat, readBody: BodyReader) returns (r: Result<nat>)
      requires Valid() && Typed(readBody)
      modifies this
      ensures (State(), r) == ReadInto(old(State()), data, pos, readBody)
      ensures Valid()
    {
      ReadIntoValid(State(), data, pos, readBody);
      var header := ReadU16(data, pos);
      if header.Err? {
        return Err(header.error);
      }
      var size: int := header.value.0;
      r := ReadSlotsIn(data, header.value.1, size - 1, EntryReaderOf(readBody));
      if r.Err? {
        return;
      }
      var resolved := ResolveAll();
      if resolved.Err? {
        return Err(resolved.error);
      }
    }

    /** `ConstantPool.cs:46-73`: the slots are appended one entry at a time. */
    method ReadSlotsIn(data: seq<uint8>, pos: nat, count: int, readEntry: EntryReader) returns (r: Result<nat>)
      modifies this
      ensures entries == old(entries) + ReadSlots(data, pos, count, readEntry).0
      ensures r == ReadSlots(data, pos, count, readEntry).1 && indexOf == old(indexOf)
    {
      ghost var total := ReadSlots(data, pos, count, readEntry);
      ghost var slots: seq<Entry> := [];
      ghost var rest := total;
      assert slots + rest.0 == rest.0;
      var cursor := pos;
      var i := 0;
      while i < count
        invariant entries == old(entries) + slots && indexOf == old(indexOf)
        invariant rest == ReadSlots(data, cursor, count - i, readEntry)
        invariant total == (slots + rest.0, rest.1)
        decreases count - i
      {
        var entry := readEntry(data, cursor);
        if entry.Err? {
          assert rest == ([], Err(entry.error));
          assert slots + [] == slots;
          return Err(entry.error);
        }
        var (e, next) := entry.value;
        rest := ReadSlotsStep(slots, data, cursor, count - i, readEntry);
        entries := entries + [e];
        cursor := next;
        if Wide(e) {
          entries := entries + [Placeholder];
          i := i + 1;
        }
        i := i + 1;
        slots := slots + AppendedSlots(e);
      }
      assert rest == ([], Ok(cursor));
      assert slots + [] == slots;
      return Ok(cursor);
    }

    /** `ConstantPool.cs:75-76`: every slot resolves against the pool as it stands. */
    method ResolveAll() returns (r: Result<()>)
      modifies this
      ensures (entries, r) == ResolveFrom(old(entries), 0) && indexOf == old(indexOf)
    {
      var j := 0;
      while j < |entries|
        invariant j <= |entries| && indexOf == old(indexOf)
        invariant ResolveFrom(entries, j) == ResolveFrom(old(entries), 0)
      {
        var resolved := ResolveEntry(entries[j], entries);
        if resolved.Err? {
          return Err(resolved.error);
        }
        entries := entries[j := resolved.value];
        j := j + 1;
      }
      return Ok(());
    }

    method Write(writeBody: BodyWriter) returns (r: Result<seq<uint8>>)
      requires SlotsWellFormed(entries)
      ensures r == Serialize(entries, writeBody)
    {
      var slots := entries;
      if |slots| > 0xFFFF {
        return Err(ArgumentOutOfRange);
      }
      var header := EncodeU16((|slots| + 1) % 0x1_0000);
      // the stream receives the header, then each slot in turn
      var body: seq<uint8> := [];
      var i := 0;
      while i < |slots|
        invariant i <= |slots|
        invariant body == SlotsBytes(slots[..i], writeBody)
      {
        SlotsBytesStep(slots, i, writeBody);
        if !slots[i].Placeholder? {
          body := body + EntryBytes(slots[i], writeBody);
        }
        i := i + 1;
      }
      assert slots[..|slots|] == slots;
      return Ok(header + body);
    }
  }
}
