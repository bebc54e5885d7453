/**
  Constant-pool entries (section 4.4 of the Java Virtual Machine
  Specification, Java SE 8 edition) as values with structural equality.

  The entry classes other than the method handle are not part of this
  model: their payloads are kept abstract (a number, a string, or the
  names a reference stands for) and have no dependencies of their own.
*/
module Entries {
  import opened Wrappers
  import opened Bytes

  /** The abstract payload of a field, method or interface-method reference. */
  datatype MemberRef = MemberRef(owner: string, name: string, descriptor: string)

  datatype Entry =
    | Utf8(text: string)
    | Integer(intValue: int)
    | Float(floatBits: int)
    | Long(longValue: int)
    | Double(doubleBits: int)
    | Class(className: string)
    | String(stringValue: string)
    | FieldReference(member: MemberRef)
    | MethodReference(member: MemberRef)
    | InterfaceMethodReference(member: MemberRef)
    | NameAndType(name: string, descriptor: string)
      /** `reference` is null until the pool resolves `referenceIndex`;
          `referenceIndex` is the private field the pool fills in. */
    | MethodHandle(kind: uint8, reference: Option<Entry>, referenceIndex: uint16)
    | MethodType(descriptor: string)
    | InvokeDynamic(bootstrapIndex: uint16, name: string, descriptor: string)
      /** The inaccessible slot that follows a Long or a Double. */
    | Placeholder

  /** The entry classes, one per tag of section 4.4 of the JVMS. */
  datatype EntryTag =
    | Utf8Tag | IntegerTag | FloatTag | LongTag | DoubleTag | ClassTag | StringTag
    | FieldReferenceTag | MethodReferenceTag | InterfaceMethodReferenceTag | NameAndTypeTag
    | MethodHandleTag | MethodTypeTag | InvokeDynamicTag

  /** The tag byte of each entry class (JVMS table 4.4-A). */
  function TagByte(t: EntryTag): uint8 {
    match t
    case Utf8Tag => 1
    case IntegerTag => 3
    case FloatTag => 4
    case LongTag => 5
    case DoubleTag => 6
    case ClassTag => 7
    case StringTag => 8
    case FieldReferenceTag => 9
    case MethodReferenceTag => 10
    case InterfaceMethodReferenceTag => 11
    case NameAndTypeTag => 12
    case MethodHandleTag => 15
    case MethodTypeTag => 16
    case InvokeDynamicTag => 18
  }

  /** The `(EntryTag)` cast of a tag byte read from the stream; `None` for a byte no entry class has. */
  function TagOfByte(b: uint8): (r: Option<EntryTag>)
    ensures r.Some? ==> TagByte(r.value) == b
    ensures forall t :: TagByte(t) == b ==> r == Some(t)
  {
    match b
    case 1 => Some(Utf8Tag)
    case 3 => Some(IntegerTag)
    case 4 => Some(FloatTag)
    case 5 => Some(LongTag)
    case 6 => Some(DoubleTag)
    case 7 => Some(ClassTag)
    case 8 => Some(StringTag)
    case 9 => Some(FieldReferenceTag)
    case 10 => Some(MethodReferenceTag)
    case 11 => Some(InterfaceMethodReferenceTag)
    case 12 => Some(NameAndTypeTag)
    case 15 => Some(MethodHandleTag)
    case 16 => Some(MethodTypeTag)
    case 18 => Some(InvokeDynamicTag)
    case _ => None
  }

  /** The class an entry is an instance of, which a `(T)` cast tests; the placeholder is of none. */
  function ClassOf(e: Entry): Option<EntryTag> {
    match e
    case Utf8(_) => Some(Utf8Tag)
    case Integer(_) => Some(IntegerTag)
    case Float(_) => Some(FloatTag)
    case Long(_) => Some(LongTag)
    case Double(_) => Some(DoubleTag)
    case Class(_) => Some(ClassTag)
    case String(_) => Some(StringTag)
    case FieldReference(_) => Some(FieldReferenceTag)
    case MethodReference(_) => Some(MethodReferenceTag)
    case InterfaceMethodReference(_) => Some(InterfaceMethodReferenceTag)
    case NameAndType(_, _) => Some(NameAndTypeTag)
    case MethodHandle(_, _, _) => Some(MethodHandleTag)
    case MethodType(_) => Some(MethodTypeTag)
    case InvokeDynamic(_, _, _) => Some(InvokeDynamicTag)
    case Placeholder => None
  }

  /** Long and Double entries take two slots (section 4.4.5 of the JVMS). */
  predicate Wide(e: Entry) {
    e.Long? || e.Double?
  }

  /** The entries a method handle may refer to (`ReferenceEntry`). */
  predicate IsMemberRef(e: Entry) {
    e.FieldReference? || e.MethodReference? || e.InterfaceMethodReference?
  }

  /** What the entry classes' types guarantee: no placeholder outside the pool,
      and a method handle refers to a member reference when it refers to anything. */
  predicate WellFormed(e: Entry) {
    && !e.Placeholder?
    && (e.MethodHandle? && e.reference.Some? ==> IsMemberRef(e.reference.value))
  }

  /** The value `Equals` and `GetHashCode` see: the private index of a method handle is ignored. */
  function Key(e: Entry): (k: Entry)
    ensures k.MethodHandle? ==> k.referenceIndex == 0
    ensures ClassOf(k) == ClassOf(e)
    ensures !e.MethodHandle? ==> k == e
  {
    if e.MethodHandle? then e.(referenceIndex := 0) else e
  }

  lemma KeyOfMemberRef(x: Entry, r: Entry)
    requires IsMemberRef(r) && Key(x) == r
    ensures x == r
  {
  }

  /** `GetEntry<T>(id)`: slot `id - 1`, cast to the class `t`. */
  function GetEntry(entries: seq<Entry>, id: uint16, t: EntryTag): (r: Result<Entry>)
    ensures r.Ok? <==> 1 <= id <= |entries| && ClassOf(entries[id - 1]) == Some(t)
    ensures r.Ok? ==> r.value == entries[id - 1] && ClassOf(r.value) == Some(t)
    ensures r.Err? ==> r.error == (if 1 <= id <= |entries| then InvalidCast else ArgumentOutOfRange)
  {
    if id < 1 || id > |entries| then Err(ArgumentOutOfRange)
    else if ClassOf(entries[id - 1]) != Some(t) then Err(InvalidCast)
    else Ok(entries[id - 1])
  }

  /** A slot read from a pool is still there once more slots follow it. */
  lemma GetEntryPrefix(a: seq<Entry>, b: seq<Entry>, id: uint16, t: EntryTag)
    requires |a| <= |b| && b[..|a|] == a && GetEntry(a, id, t).Ok?
    ensures GetEntry(b, id, t) == GetEntry(a, id, t)
  {
    assert b[id - 1] == b[..|a|][id - 1];
  }
}
