/**
  The method-handle entry of the constant pool (section 4.4.8 of the JVMS):
  its reference kinds, how it resolves its reference against the pool, and
  its three-byte wire form.
*/
module MethodHandles {
  import opened Wrappers
  import opened Bytes
  import opened Entries

  // The reference kinds of `ReferenceKindType`.
  const GetField: uint8 := 1
  const GetStatic: uint8 := 2
  const PutField: uint8 := 3
  const PutStatic: uint8 := 4
  const InvokeVirtual: uint8 := 5
  const InvokeStatic: uint8 := 6
  const InvokeSpecial: uint8 := 7
  const NewInvokeSpecial: uint8 := 8
  const InvokeReference: uint8 := 9

  predicate IsFieldReference(kind: uint8) {
    kind == GetField || kind == GetStatic || kind == PutField || kind == PutStatic
  }

  predicate IsMethodReference(kind: uint8) {
    kind == InvokeReference || kind == InvokeSpecial || kind == InvokeStatic
    || kind == InvokeVirtual || kind == NewInvokeSpecial
  }

  /** The two classifications are disjoint and together cover exactly the kinds 1 to 9. */
  lemma KindClassification(kind: uint8)
    ensures IsFieldReference(kind) <==> 1 <= kind <= 4
    ensures IsMethodReference(kind) <==> 5 <= kind <= 9
    ensures !(IsFieldReference(kind) && IsMethodReference(kind))
  {
  }

  /** The public constructor: a null reference is rejected, and no index is assigned yet. */
  function NewMethodHandle(kind: uint8, reference: Option<Entry>): (r: Result<Entry>)
    ensures r.Ok? <==> reference.Some?
    ensures r.Ok? ==> r.value.MethodHandle? && r.value.kind == kind && r.value.reference == reference
    ensures r.Err? ==> r.error == ArgumentNull
  {
    if reference.None? then Err(ArgumentNull) else Ok(MethodHandle(kind, reference, 0))
  }

  /** The `Tag` property as written: it reports MethodType, not MethodHandle. */
  function Tag(): EntryTag {
    MethodTypeTag
  }

  lemma TagIsNotItsClass(e: Entry)
    requires e.MethodHandle?
    ensures Some(Tag()) != ClassOf(e)
    ensures TagByte(Tag()) == 16 && TagByte(ClassOf(e).value) == 15
  {
  }

  /** The switch of `ProcessFromConstantPool`: the entry at `index`, cast as the kind demands. */
  function ResolveReference(kind: uint8, index: uint16, entries: seq<Entry>): (r: Result<Entry>)
    ensures r.Ok? ==> 1 <= index <= |entries| && r.value == entries[index - 1] && IsMemberRef(r.value)
    ensures r.Ok? ==> (IsFieldReference(kind) <==> r.value.FieldReference?)
    ensures r.Ok? ==> (IsMethodReference(kind) <==> (r.value.MethodReference? || r.value.InterfaceMethodReference?))
    ensures !IsFieldReference(kind) && !IsMethodReference(kind) ==> r == Err(ArgumentOutOfRange)
  {
    if IsFieldReference(kind) then
      GetEntry(entries, index, FieldReferenceTag)
    else if kind == InvokeVirtual || kind == NewInvokeSpecial then
      GetEntry(entries, index, MethodReferenceTag)
    else if kind == InvokeStatic || kind == InvokeSpecial then
      // only an InvalidCastException is caught; an index out of range is not
      match GetEntry(entries, index, MethodReferenceTag)
      case Err(InvalidCast) => GetEntry(entries, index, InterfaceMethodReferenceTag)
      case r => r
    else if kind == InvokeReference then
      GetEntry(entries, index, InterfaceMethodReferenceTag)
    else
      Err(ArgumentOutOfRange)
  }

  lemma ResolveFieldKinds(kind: uint8, index: uint16, entries: seq<Entry>)
    requires IsFieldReference(kind)
    ensures var r := ResolveReference(kind, index, entries);
      && (r.Ok? <==> 1 <= index <= |entries| && entries[index - 1].FieldReference?)
      && (r.Ok? ==> r.value == entries[index - 1])
  {
  }

  lemma ResolveMethodKinds(kind: uint8, index: uint16, entries: seq<Entry>)
    requires kind == InvokeVirtual || kind == NewInvokeSpecial
    ensures var r := ResolveReference(kind, index, entries);
      && (r.Ok? <==> 1 <= index <= |entries| && entries[index - 1].MethodReference?)
      && (r.Ok? ==> r.value == entries[index - 1])
  {
  }

  /** InvokeStatic and InvokeSpecial take a method reference and fall back to an interface-method reference. */
  lemma ResolveStaticOrSpecial(kind: uint8, index: uint16, entries: seq<Entry>)
    requires kind == InvokeStatic || kind == InvokeSpecial
    ensures var r := ResolveReference(kind, index, entries);
      && (r.Ok? <==> 1 <= index <= |entries|
                     && (entries[index - 1].MethodReference? || entries[index - 1].InterfaceMethodReference?))
      && (r.Ok? ==> r.value == entries[index - 1])
      && (!(1 <= index <= |entries|) ==> r == Err(ArgumentOutOfRange))
      && (1 <= index <= |entries| && !r.Ok? ==> r == Err(InvalidCast))
  {
  }

  lemma ResolveInterfaceKind(index: uint16, entries: seq<Entry>)
    ensures var r := ResolveReference(InvokeReference, index, entries);
      && (r.Ok? <==> 1 <= index <= |entries| && entries[index - 1].InterfaceMethodReference?)
      && (r.Ok? ==> r.value == entries[index - 1])
  {
  }

  /** `ProcessFromConstantPool`: the handle with its reference resolved, everything else kept. */
  function ProcessFromConstantPool(e: Entry, entries: seq<Entry>): (r: Result<Entry>)
    requires e.MethodHandle?
    ensures r.Ok? <==> ResolveReference(e.kind, e.referenceIndex, entries).Ok?
    ensures r.Ok? ==> 1 <= e.referenceIndex <= |entries|
                      && r.value == e.(reference := Some(entries[e.referenceIndex - 1]))
  {
    match ResolveReference(e.kind, e.referenceIndex, entries)
    case Err(err) => Err(err)
    case Ok(target) => Ok(e.(reference := Some(target)))
  }

  /** `Write`: the kind byte, then the big-endian reference index. */
  function WriteBody(e: Entry): (w: seq<uint8>)
    requires e.MethodHandle?
    ensures |w| == 3 && w[0] == e.kind && w[1..] == EncodeU16(e.referenceIndex)
  {
    [e.kind] + EncodeU16(e.referenceIndex)
  }

  /** The stream constructor: an unresolved handle; at the end of the stream `ReadByte` gives -1, cast to 255. */
  function ReadBody(data: seq<uint8>, pos: nat): Result<(Entry, nat)> {
    var (b, p) := ReadByte(data, pos);
    match ReadU16(data, p)
    case Err(err) => Err(err)
    case Ok((index, next)) => Ok((MethodHandle(ToByte(b), None, index), next))
  }

  /** The stream constructor reads back what `Write` wrote, without the reference. */
  lemma BodyRoundTrip(e: Entry, data: seq<uint8>, pos: nat)
    requires e.MethodHandle? && At(data, pos, WriteBody(e))
    ensures ReadBody(data, pos) == Ok((e.(reference := None), pos + 3))
  {
    AtConcat(data, pos, [e.kind], EncodeU16(e.referenceIndex));
    assert data[pos] == data[pos..pos + 1][0];
    ReadU16At(data, pos + 1, e.referenceIndex);
  }

  /** `Equals`: the kinds and the references agree; the index is not compared. */
  predicate HandlesEqual(a: Entry, b: Entry)
    requires a.MethodHandle? && b.MethodHandle?
  {
    a.kind == b.kind && a.reference == b.reference
  }

  lemma HandlesEqualIsKeyEquality(a: Entry, b: Entry)
    requires a.MethodHandle? && b.MethodHandle?
    ensures HandlesEqual(a, b) <==> Key(a) == Key(b)
  {
  }

  /** `GetHashCode`, with the reference's own hash a parameter and the xor written as a sum. */
  function HashCode(e: Entry, referenceHash: Entry -> int): int
    requires e.MethodHandle?
  {
    (e.kind as int) * 397 + (if e.reference.Some? then referenceHash(e.reference.value) else 0)
  }

  lemma EqualHandlesHaveEqualHashes(a: Entry, b: Entry, referenceHash: Entry -> int)
    requires a.MethodHandle? && b.MethodHandle? && HandlesEqual(a, b)
    ensures HashCode(a, referenceHash) == HashCode(b, referenceHash)
  {
  }
}
