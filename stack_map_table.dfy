/**
  The StackMapTable attribute (section 4.7.4 of the JVMS): verification
  elements, the five frame variants and their compressed tag byte, the
  writer that threads the constant pool through its `Find` calls and the
  reader that looks class entries up with `GetEntry`.

  The functions over `PoolState` and over the pool's slots specify the
  methods at the end of the module; the lemmas are about the functions.
*/
module StackMapTables {
  import opened Wrappers
  import opened Bytes
  import opened ClassNames
  import opened ConstantPools
  import Entries

  // ---------------------------------------------------------------- Verification elements

  /** `VerificationElementType`, in declaration order. */
  datatype VerificationType =
    | Top | Integer | Float | Long | Double | Null | UninitializedThis | Object | Uninitialized

  /** The ordinal of the enum, which is also the tag byte written to the stream. */
  function Ordinal(t: VerificationType): (b: uint8)
    ensures b <= 8
  {
    match t
    case Top => 0
    case Integer => 1
    case Float => 2
    case Long => 3
    case Double => 4
    case Null => 5
    case UninitializedThis => 6
    case Object => 7
    case Uninitialized => 8
  }

  /** The `(VerificationElementType)` cast of a byte, `None` where the enum has no member. */
  function TypeOfOrdinal(b: uint8): (r: Option<VerificationType>)
    ensures r.Some? <==> b <= 8
    ensures r.Some? ==> Ordinal(r.value) == b
  {
    match b
    case 0 => Some(Top)
    case 1 => Some(Integer)
    case 2 => Some(Float)
    case 3 => Some(Long)
    case 4 => Some(Double)
    case 5 => Some(Null)
    case 6 => Some(UninitializedThis)
    case 7 => Some(Object)
    case 8 => Some(Uninitialized)
    case _ => None
  }

  lemma OrdinalInjective(s: VerificationType, t: VerificationType)
    ensures Ordinal(s) == Ordinal(t) ==> s == t
  {
  }

  /** The three element classes: a simple element carries only its type. */
  datatype VerificationElement =
    | Simple(simpleType: VerificationType)
    | ObjectElement(objectClass: ClassName)
    | UninitializedElement(newInstructionOffset: uint16)

  /** The `Type` property of each element class. */
  function ElementType(e: VerificationElement): VerificationType {
    match e
    case Simple(t) => t
    case ObjectElement(_) => Object
    case UninitializedElement(_) => Uninitialized
  }

  /** What the constructor of `SimpleVerificationElement` lets through: ordinals 0 to 6. */
  predicate ElementValid(e: VerificationElement) {
    e.Simple? ==> Ordinal(e.simpleType) <= 6
  }

  predicate ElementsValid(es: seq<VerificationElement>) {
    forall i :: 0 <= i < |es| ==> ElementValid(es[i])
  }

  /** The constructor of `SimpleVerificationElement`: Object and Uninitialized are rejected. */
  function NewSimpleElement(t: VerificationType): (r: Result<VerificationElement>)
    ensures r.Ok? <==> t != Object && t != Uninitialized
    ensures r.Ok? ==> r.value == Simple(t) && ElementValid(r.value)
    ensures r.Err? ==> r.error == ArgumentOutOfRange
  {
    if Ordinal(t) <= 6 then Ok(Simple(t)) else Err(ArgumentOutOfRange)
  }

  /** The bytes of one element once its class, if any, has pool index `index`. */
  function ElementBytes(e: VerificationElement, index: uint16): (w: seq<uint8>)
    ensures |w| == (if e.Simple? then 1 else 3) && w[0] == Ordinal(ElementType(e))
  {
    match e
    case Simple(t) => [Ordinal(t)]
    case ObjectElement(_) => [Ordinal(Object)] + EncodeU16(index)
    case UninitializedElement(offset) => [Ordinal(Uninitialized)] + EncodeU16(offset)
  }

  /** `WriteVerificationElement`: the type ordinal, then the pool index of the class of an
      object element, or the offset of an uninitialized one. `ClassEntry` is kept abstract:
      its own `PutToConstantPool` is not part of this model. */
  function EncodeElement(st: PoolState, e: VerificationElement): (res: (PoolState, Result<seq<uint8>>))
    requires ValidPool(st)
    ensures ValidPool(res.0) && Extends(st, res.0)
    ensures res.1.Err? ==> e.ObjectElement? && res.1.error == PoolOverflow
    ensures res.1.Ok? ==> |res.1.value| == (if e.Simple? then 1 else 3)
  {
    match e
    case ObjectElement(c) =>
      var (st', r) := FindIn(st, Entries.Class(c.name));
      FindClassFails(st, c.name);
      (st', if r.Ok? then Ok(ElementBytes(e, r.value)) else Err(r.error))
    case _ => (st, Ok(ElementBytes(e, 0)))
  }

  /** Finding a class entry fails only when the pool overflows, and the index found holds that class. */
  lemma FindClassFails(st: PoolState, name: string)
    requires ValidPool(st)
    ensures var (st', r) := FindIn(st, Entries.Class(name));
      && (r.Err? ==> r.error == PoolOverflow)
      && (r.Ok? ==> Entries.GetEntry(st'.entries, r.value, Entries.ClassTag) == Ok(Entries.Class(name)))
  {
    var e := Entries.Class(name);
    if Entries.Key(e) in st.indexOf {
      FindExisting(st, e);
    } else {
      FindNew(st, e);
    }
    if FindIn(st, e).1.Ok? {
      FindThenGet(st, e);
    }
  }

  /** A list of elements written in order, the pool threaded through. */
  function EncodeElements(st: PoolState, es: seq<VerificationElement>): (res: (PoolState, Result<seq<uint8>>))
    requires ValidPool(st)
    ensures ValidPool(res.0) && Extends(st, res.0)
    ensures res.1.Err? ==> res.1.error == PoolOverflow
    decreases es
  {
    if es == [] then (st, Ok([]))
    else
      var (st1, r) := EncodeElement(st, es[0]);
      if r.Err? then (st1, r)
      else
        var res := EncodeElements(st1, es[1..]);
        ExtendsTransitive(st, st1, res.0);
        Prefixed(r.value, res)
  }

  /** `ReadVerificationElement`: the tag byte, then the payload its type has. An object
      element names the class of the `ClassEntry` its index points at. */
  function DecodeElement(entries: seq<Entries.Entry>, input: seq<uint8>): (r: Result<(VerificationElement, seq<uint8>)>)
    ensures r.Ok? ==> ElementValid(r.value.0) && |r.value.1| < |input|
  {
    match NextByte(input)
    case Err(err) => Err(err)
    case Ok((b, rest)) =>
      match TypeOfOrdinal(b)
      case None => Err(ArgumentOutOfRange)
      case Some(Object) =>
        (match NextU16(rest)
         case Err(err) => Err(err)
         case Ok((index, rest')) =>
           match Entries.GetEntry(entries, index, Entries.ClassTag)
           case Err(err) => Err(err)
           case Ok(c) => Ok((ObjectElement(ClassName(c.className)), rest')))
      case Some(Uninitialized) =>
        (match NextU16(rest)
         case Err(err) => Err(err)
         case Ok((offset, rest')) => Ok((UninitializedElement(offset), rest')))
      case Some(t) => Ok((Simple(t), rest))
  }

  /** A tag above 8 names no `VerificationElementType`, and reading it fails whatever follows. */
  lemma UnknownElementTagFails(entries: seq<Entries.Entry>, input: seq<uint8>)
    requires |input| >= 1 && input[0] > 8
    ensures DecodeElement(entries, input) == Err(ArgumentOutOfRange)
  {
  }

  /** What each tag reads: tags 0-6 the simple element of that type and nothing more, tag 8
      the u16 offset of an uninitialized element, tag 7 the u16 index of a `ClassEntry`
      whose name becomes the element's class; a stream that ends early fails with
      `EndOfStream`. */
  lemma DecodeElementByTag(entries: seq<Entries.Entry>, input: seq<uint8>)
    ensures input == [] ==> DecodeElement(entries, input) == Err(EndOfStream)
    ensures |input| >= 1 && input[0] <= 6 ==>
      var r := DecodeElement(entries, input);
      r.Ok? && r.value.0.Simple? && Ordinal(r.value.0.simpleType) == input[0] && r.value.1 == input[1..]
    ensures |input| >= 1 && 7 <= input[0] <= 8 && |input| < 3 ==> DecodeElement(entries, input) == Err(EndOfStream)
    ensures |input| >= 3 && input[0] == 8 ==>
      DecodeElement(entries, input) == Ok((UninitializedElement(DecodeU16(input[1], input[2])), input[3..]))
    ensures |input| >= 3 && input[0] == 7 ==>
      var c := Entries.GetEntry(entries, DecodeU16(input[1], input[2]), Entries.ClassTag);
      DecodeElement(entries, input) ==
        if c.Ok? then Ok((ObjectElement(ClassName(c.value.className)), input[3..])) else Err(c.error)
  {
    if |input| >= 3 {
      assert input[1..][2..] == input[3..];
    }
  }

  /** `count` elements read one after another. */
  function DecodeElements(entries: seq<Entries.Entry>, input: seq<uint8>, count: nat)
    : (r: Result<(seq<VerificationElement>, seq<uint8>)>)
    ensures r.Ok? ==> |r.value.0| == count && ElementsValid(r.value.0) && |r.value.1| <= |input|
    decreases count
  {
    if count == 0 then Ok(([], input))
    else
      match DecodeElement(entries, input)
      case Err(err) => Err(err)
      case Ok((e, rest)) => Prepend([e], DecodeElements(entries, rest, count - 1))
  }

  // ---------------------------------------------------------------- Frames

  datatype FrameType = Same | SameLocals1StackItem | Chop | Append | Full

  /** A `StackMapFrame`; the fields a frame type does not use are ignored by the writer. */
  datatype StackMapFrame = StackMapFrame(
    frameType: FrameType,
    offsetDelta: uint16,
    stack: seq<VerificationElement>,
    locals: seq<VerificationElement>,
    chopK: Option<uint8>)

  /** The frames whose shape the writer accepts. */
  predicate FrameAccepted(f: StackMapFrame) {
    match f.frameType
    case Same => true
    case SameLocals1StackItem => |f.stack| >= 1
    case Chop => f.chopK.Some? && 1 <= f.chopK.value <= 3
    case Append => 1 <= |f.locals| <= 3
    case Full => |f.locals| <= 0xFFFF && |f.stack| <= 0xFFFF
  }

  /** Every element the writer writes could have been built (see `ElementValid`). */
  predicate FrameElementsValid(f: StackMapFrame) {
    ElementsValid(f.stack) && ElementsValid(f.locals)
  }

  /** The part of a frame its encoding carries. */
  function Normalize(f: StackMapFrame): StackMapFrame
    requires FrameAccepted(f)
  {
    match f.frameType
    case Same => StackMapFrame(Same, f.offsetDelta, [], [], None)
    case SameLocals1StackItem => StackMapFrame(SameLocals1StackItem, f.offsetDelta, [f.stack[0]], [], None)
    case Chop => StackMapFrame(Chop, f.offsetDelta, [], [], f.chopK)
    case Append => StackMapFrame(Append, f.offsetDelta, [], f.locals, None)
    case Full => StackMapFrame(Full, f.offsetDelta, f.stack, f.locals, None)
  }

  /** One iteration of the loop of `Save`: the frame type byte, the explicit delta where the
      type byte cannot carry it, and the elements. */
  function EncodeFrame(st: PoolState, f: StackMapFrame): (res: (PoolState, Result<seq<uint8>>))
    requires ValidPool(st)
    ensures ValidPool(res.0) && Extends(st, res.0)
    ensures res.1.Ok? ==> FrameAccepted(f)
    ensures res.1.Err? ==> !FrameAccepted(f) || res.1.error == PoolOverflow
  {
    var d := f.offsetDelta;
    match f.frameType
    case Same =>
      (st, Ok(if d < 64 then [d] else [251] + EncodeU16(d)))
    case SameLocals1StackItem =>
      if |f.stack| == 0 then (st, Err(ArgumentOutOfRange))
      else if d < 64 then
        var tag: uint8 := d + 64;
        Prefixed([tag], EncodeElement(st, f.stack[0]))
      else Prefixed([247] + EncodeU16(d), EncodeElement(st, f.stack[0]))
    case Chop =>
      if f.chopK.None? then (st, Err(ArgumentNull))
      else if f.chopK.value < 1 || f.chopK.value > 3 then (st, Err(ArgumentOutOfRange))
      else
        var tag: uint8 := 251 - f.chopK.value;
        (st, Ok([tag] + EncodeU16(d)))
    case Append =>
      if |f.locals| < 1 || |f.locals| > 3 then (st, Err(ArgumentOutOfRange))
      else
        var tag: uint8 := 251 + |f.locals|;
        Prefixed([tag] + EncodeU16(d), EncodeElements(st, f.locals))
    case Full => EncodeFullFrame(st, f)
  }

  /** A full frame: 255 and the delta, then the locals and the stack, each preceded by its
      count; a list longer than 65535 is rejected when the writer reaches it. */
  function EncodeFullFrame(st: PoolState, f: StackMapFrame): (res: (PoolState, Result<seq<uint8>>))
    requires ValidPool(st)
    ensures ValidPool(res.0) && Extends(st, res.0)
    ensures res.1.Ok? ==> |f.locals| <= 0xFFFF && |f.stack| <= 0xFFFF
    ensures res.1.Err? ==> |f.locals| > 0xFFFF || |f.stack| > 0xFFFF || res.1.error == PoolOverflow
  {
    if |f.locals| > 0xFFFF then (st, Err(ArgumentOutOfRange))
    else
      var (st1, rl) := EncodeElements(st, f.locals);
      if rl.Err? then (st1, rl)
      else if |f.stack| > 0xFFFF then (st1, Err(ArgumentOutOfRange))
      else
        var res := EncodeElements(st1, f.stack);
        ExtendsTransitive(st, st1, res.0);
        Prefixed([255] + EncodeU16(f.offsetDelta) + EncodeU16(|f.locals|) + rl.value + EncodeU16(|f.stack|), res)
  }

  /** The frames written in order, the pool threaded through. */
  function EncodeFrames(st: PoolState, frames: seq<StackMapFrame>): (res: (PoolState, Result<seq<uint8>>))
    requires ValidPool(st)
    ensures ValidPool(res.0) && Extends(st, res.0)
    ensures res.1.Ok? ==> forall i :: 0 <= i < |frames| ==> FrameAccepted(frames[i])
    decreases frames
  {
    if frames == [] then (st, Ok([]))
    else
      var (st1, r) := EncodeFrame(st, frames[0]);
      if r.Err? then (st1, r)
      else
        var res := EncodeFrames(st1, frames[1..]);
        ExtendsTransitive(st, st1, res.0);
        Prefixed(r.value, res)
  }

  /** `Save`: more than 65535 frames are rejected before anything is written; otherwise the
      frame count, then the frames. */
  function EncodeTable(st: PoolState, frames: seq<StackMapFrame>): (res: (PoolState, Result<seq<uint8>>))
    requires ValidPool(st)
    ensures ValidPool(res.0) && Extends(st, res.0)
    ensures |frames| > 0xFFFF ==> res == (st, Err(ArgumentOutOfRange))
    ensures res.1.Ok? ==> |frames| <= 0xFFFF && |res.1.value| >= 2 && res.1.value[..2] == EncodeU16(|frames|)
  {
    if |frames| > 0xFFFF then (st, Err(ArgumentOutOfRange))
    else Prefixed(EncodeU16(|frames|), EncodeFrames(st, frames))
  }

  /** One iteration of the loop of `Parse`: the frame type byte selects the variant. */
  function DecodeFrame(entries: seq<Entries.Entry>, input: seq<uint8>): (r: Result<(StackMapFrame, seq<uint8>)>)
    ensures r.Ok? ==> FrameElementsValid(r.value.0) && |r.value.1| < |input|
  {
    match NextByte(input)
    case Err(err) => Err(err)
    case Ok((tag, rest)) =>
      if tag < 64 then
        Ok((StackMapFrame(Same, tag, [], [], None), rest))
      else if tag < 128 then
        match DecodeElement(entries, rest)
        case Err(err) => Err(err)
        case Ok((e, rest')) => Ok((StackMapFrame(SameLocals1StackItem, tag - 64, [e], [], None), rest'))
      else
        match NextU16(rest)
        case Err(err) => Err(err)
        case Ok((d, rest)) =>
          if tag == 247 then
            match DecodeElement(entries, rest)
            case Err(err) => Err(err)
            case Ok((e, rest')) => Ok((StackMapFrame(SameLocals1StackItem, d, [e], [], None), rest'))
          else if tag < 251 then
            Ok((StackMapFrame(Chop, d, [], [], Some(251 - tag)), rest))
          else if tag == 251 then
            Ok((StackMapFrame(Same, d, [], [], None), rest))
          else if tag < 255 then
            match DecodeElements(entries, rest, tag - 251)
            case Err(err) => Err(err)
            case Ok((locals, rest')) => Ok((StackMapFrame(Append, d, [], locals, None), rest'))
          else
            DecodeFullFrame(entries, rest, d)
  }

  /** The rest of a full frame: the locals and the stack, each preceded by its count. */
  function DecodeFullFrame(entries: seq<Entries.Entry>, input: seq<uint8>, d: uint16)
    : (r: Result<(StackMapFrame, seq<uint8>)>)
    ensures r.Ok? ==> r.value.0.frameType == Full && r.value.0.offsetDelta == d && r.value.0.chopK.None?
    ensures r.Ok? ==> FrameElementsValid(r.value.0) && |r.value.1| < |input|
  {
    match NextU16(input)
    case Err(err) => Err(err)
    case Ok((localsCount, rest)) =>
      match DecodeElements(entries, rest, localsCount)
      case Err(err) => Err(err)
      case Ok((locals, rest)) =>
        match NextU16(rest)
        case Err(err) => Err(err)
        case Ok((stackCount, rest)) =>
          match DecodeElements(entries, rest, stackCount)
          case Err(err) => Err(err)
          case Ok((stack, rest)) => Ok((StackMapFrame(Full, d, stack, locals, None), rest))
  }

  /** `count` frames read one after another. */
  function DecodeFrames(entries: seq<Entries.Entry>, input: seq<uint8>, count: nat)
    : (r: Result<(seq<StackMapFrame>, seq<uint8>)>)
    ensures r.Ok? ==> |r.value.0| == count && |r.value.1| <= |input|
    decreases count
  {
    if count == 0 then Ok(([], input))
    else
      match DecodeFrame(entries, input)
      case Err(err) => Err(err)
      case Ok((f, rest)) => Prepend([f], DecodeFrames(entries, rest, count - 1))
  }

  /** `Parse`: the frame count, then that many frames. */
  function DecodeTable(entries: seq<Entries.Entry>, input: seq<uint8>): (r: Result<(seq<StackMapFrame>, seq<uint8>)>)
    ensures r.Ok? ==> |r.value.1| + 2 <= |input|
  {
    match NextU16(input)
    case Err(err) => Err(err)
    case Ok((size, rest)) => DecodeFrames(entries, rest, size)
  }

  // ---------------------------------------------------------------- Round trip

  /** What the reader produces for each frame of a table the writer accepted. */
  function NormalizeAll(frames: seq<StackMapFrame>): (r: seq<StackMapFrame>)
    requires forall i :: 0 <= i < |frames| ==> FrameAccepted(frames[i])
    ensures |r| == |frames|
    ensures forall i :: 0 <= i < |frames| ==> r[i] == Normalize(frames[i])
  {
    if frames == [] then [] else [Normalize(frames[0])] + NormalizeAll(frames[1..])
  }

  /** The class of an object element sits at `index` in the pool `entries`. */
  predicate ClassAt(entries: seq<Entries.Entry>, e: VerificationElement, index: uint16) {
    e.ObjectElement? ==> Entries.GetEntry(entries, index, Entries.ClassTag) == Ok(Entries.Class(e.objectClass.name))
  }

  /** The bytes of a list of elements whose classes have the pool indices `idx`. */
  function ElementsBytes(es: seq<VerificationElement>, idx: seq<uint16>): seq<uint8>
    requires |idx| == |es|
  {
    if es == [] then [] else ElementBytes(es[0], idx[0]) + ElementsBytes(es[1..], idx[1..])
  }

  predicate ClassesAt(entries: seq<Entries.Entry>, es: seq<VerificationElement>, idx: seq<uint16>)
    requires |idx| == |es|
  {
    es == [] || (ClassAt(entries, es[0], idx[0]) && ClassesAt(entries, es[1..], idx[1..]))
  }

  /** A class found in a pool is still there once more slots are appended. */
  lemma ClassAtGrows(written: seq<Entries.Entry>, entries: seq<Entries.Entry>, e: VerificationElement, index: uint16)
    requires ClassAt(written, e, index)
    requires |written| <= |entries| && entries[..|written|] == written
    ensures ClassAt(entries, e, index)
  {
    if e.ObjectElement? {
      assert entries[index - 1] == entries[..|written|][index - 1];
    }
  }

  lemma {:induction false} ClassesAtGrow(written: seq<Entries.Entry>, entries: seq<Entries.Entry>,
                                         es: seq<VerificationElement>, idx: seq<uint16>)
    requires |idx| == |es| && ClassesAt(written, es, idx)
    requires |written| <= |entries| && entries[..|written|] == written
    ensures ClassesAt(entries, es, idx)
    decreases es
  {
    if es != [] {
      ClassAtGrows(written, entries, es[0], idx[0]);
      ClassesAtGrow(written, entries, es[1..], idx[1..]);
    }
  }

  /** One element reads back from its bytes, whatever pool wrote them. */
  lemma ElementLayoutRoundTrip(entries: seq<Entries.Entry>, e: VerificationElement, index: uint16, rest: seq<uint8>)
    requires ElementValid(e) && ClassAt(entries, e, index)
    ensures DecodeElement(entries, ElementBytes(e, index) + rest) == Ok((e, rest))
  {
    match e
    case Simple(t) =>
      NextBytePrefix(Ordinal(t), rest);
    case ObjectElement(c) =>
      assert ElementBytes(e, index) + rest == [7] + (EncodeU16(index) + rest);
      NextBytePrefix(7, EncodeU16(index) + rest);
      NextU16Prefix(index, rest);
    case UninitializedElement(offset) =>
      assert ElementBytes(e, index) + rest == [8] + (EncodeU16(offset) + rest);
      NextBytePrefix(8, EncodeU16(offset) + rest);
      NextU16Prefix(offset, rest);
  }

  lemma {:induction false} ElementsLayoutRoundTrip(entries: seq<Entries.Entry>, es: seq<VerificationElement>,
                                                   idx: seq<uint16>, rest: seq<uint8>)
    requires |idx| == |es| && ElementsValid(es) && ClassesAt(entries, es, idx)
    ensures DecodeElements(entries, ElementsBytes(es, idx) + rest, |es|) == Ok((es, rest))
    decreases es
  {
    if es == [] {
      assert ElementsBytes(es, idx) + rest == rest;
    } else {
      var head := ElementBytes(es[0], idx[0]);
      var tail := ElementsBytes(es[1..], idx[1..]);
      assert ElementsBytes(es, idx) + rest == head + (tail + rest);
      ElementLayoutRoundTrip(entries, es[0], idx[0], tail + rest);
      ElementsValidTail(es);
      ElementsLayoutRoundTrip(entries, es[1..], idx[1..], rest);
      assert [es[0]] + es[1..] == es;
    }
  }

  /** What `EncodeElement` writes is the layout of the element under the index it found. */
  lemma ElementEncoded(st: PoolState, e: VerificationElement) returns (index: uint16)
    requires ValidPool(st) && EncodeElement(st, e).1.Ok?
    ensures EncodeElement(st, e).1.value == ElementBytes(e, index)
    ensures ClassAt(EncodeElement(st, e).0.entries, e, index)
  {
    index := 0;
    if e.ObjectElement? {
      FindClassFails(st, e.objectClass.name);
      index := FindIn(st, Entries.Class(e.objectClass.name)).1.value;
    }
  }

  lemma {:induction false} ElementsEncoded(st: PoolState, es: seq<VerificationElement>) returns (idx: seq<uint16>)
    requires ValidPool(st) && EncodeElements(st, es).1.Ok?
    ensures |idx| == |es|
    ensures EncodeElements(st, es).1.value == ElementsBytes(es, idx)
    ensures ClassesAt(EncodeElements(st, es).0.entries, es, idx)
    decreases es
  {
    if es == [] {
      idx := [];
    } else {
      var (st1, r) := EncodeElement(st, es[0]);
      var index := ElementEncoded(st, es[0]);
      var rest := ElementsEncoded(st1, es[1..]);
      var final := EncodeElements(st1, es[1..]).0;
      ClassAtGrows(st1.entries, final.entries, es[0], index);
      idx := [index] + rest;
      assert idx[1..] == rest;
    }
  }

  /** The classes of the elements of `a + b` are placed exactly when those of `a` and of `b` are. */
  lemma {:induction false} ClassesAtAppend(entries: seq<Entries.Entry>, a: seq<VerificationElement>, b: seq<VerificationElement>,
                                           i: seq<uint16>, j: seq<uint16>)
    requires |i| == |a| && |j| == |b|
    ensures ClassesAt(entries, a + b, i + j) <==> ClassesAt(entries, a, i) && ClassesAt(entries, b, j)
    decreases a
  {
    if a != [] {
      assert (a + b)[1..] == a[1..] + b;
      assert (i + j)[1..] == i[1..] + j;
      ClassesAtAppend(entries, a[1..], b, i[1..], j);
    } else {
      assert a + b == b && i + j == j;
    }
  }

  // ---------------------------------------------------------------- Frame layout

  /** The elements a frame's encoding carries, in the order they are written. */
  function WrittenElements(f: StackMapFrame): seq<VerificationElement>
    requires FrameAccepted(f)
  {
    match f.frameType
    case SameLocals1StackItem => [f.stack[0]]
    case Append => f.locals
    case Full => f.locals + f.stack
    case _ => []
  }

  function SameBytes(d: uint16): seq<uint8> {
    if d < 64 then [d] else [251] + EncodeU16(d)
  }

  function SameLocals1Bytes(d: uint16, e: VerificationElement, index: uint16): seq<uint8> {
    var tag: uint8 := if d < 64 then d + 64 else 247;
    (if d < 64 then [tag] else [tag] + EncodeU16(d)) + ElementBytes(e, index)
  }

  function ChopBytes(d: uint16, k: uint8): seq<uint8>
    requires 1 <= k <= 3
  {
    var tag: uint8 := 251 - k;
    [tag] + EncodeU16(d)
  }

  function AppendBytes(d: uint16, locals: seq<VerificationElement>, idx: seq<uint16>): seq<uint8>
    requires 1 <= |locals| <= 3 && |idx| == |locals|
  {
    var tag: uint8 := 251 + |locals|;
    [tag] + EncodeU16(d) + ElementsBytes(locals, idx)
  }

  function FullBytes(d: uint16, locals: seq<VerificationElement>, stack: seq<VerificationElement>,
                     li: seq<uint16>, si: seq<uint16>): seq<uint8>
    requires |locals| <= 0xFFFF && |stack| <= 0xFFFF && |li| == |locals| && |si| == |stack|
  {
    [255] + EncodeU16(d) + EncodeU16(|locals|) + ElementsBytes(locals, li) + EncodeU16(|stack|) + ElementsBytes(stack, si)
  }

  /** The bytes of an accepted frame whose written elements have the class indices `idx`. */
  function FrameBytes(f: StackMapFrame, idx: seq<uint16>): seq<uint8>
    requires FrameAccepted(f) && |idx| == |WrittenElements(f)|
  {
    match f.frameType
    case Same => SameBytes(f.offsetDelta)
    case SameLocals1StackItem => SameLocals1Bytes(f.offsetDelta, f.stack[0], idx[0])
    case Chop => ChopBytes(f.offsetDelta, f.chopK.value)
    case Append => AppendBytes(f.offsetDelta, f.locals, idx)
    case Full => FullBytes(f.offsetDelta, f.locals, f.stack, idx[..|f.locals|], idx[|f.locals|..])
  }

  lemma ElementsValidTail(es: seq<VerificationElement>)
    requires es != [] && ElementsValid(es)
    ensures ElementValid(es[0]) && ElementsValid(es[1..])
  {
    forall i | 0 <= i < |es[1..]| ensures ElementValid(es[1..][i]) {
      assert es[1..][i] == es[i + 1];
    }
  }

  lemma SameLayoutRoundTrip(entries: seq<Entries.Entry>, d: uint16, rest: seq<uint8>)
    ensures DecodeFrame(entries, SameBytes(d) + rest) == Ok((StackMapFrame(Same, d, [], [], None), rest))
  {
    if d < 64 {
      NextBytePrefix(d, rest);
    } else {
      assert SameBytes(d) + rest == [251] + (EncodeU16(d) + rest);
      NextBytePrefix(251, EncodeU16(d) + rest);
      NextU16Prefix(d, rest);
    }
  }

  lemma SameLocals1LayoutRoundTrip(entries: seq<Entries.Entry>, d: uint16, e: VerificationElement, index: uint16,
                                   rest: seq<uint8>)
    requires ElementValid(e) && ClassAt(entries, e, index)
    ensures DecodeFrame(entries, SameLocals1Bytes(d, e, index) + rest)
         == Ok((StackMapFrame(SameLocals1StackItem, d, [e], [], None), rest))
  {
    var ev := ElementBytes(e, index);
    ElementLayoutRoundTrip(entries, e, index, rest);
    if d < 64 {
      var tag: uint8 := d + 64;
      assert SameLocals1Bytes(d, e, index) + rest == [tag] + (ev + rest);
      NextBytePrefix(tag, ev + rest);
    } else {
      assert SameLocals1Bytes(d, e, index) + rest == [247] + (EncodeU16(d) + (ev + rest));
      NextBytePrefix(247, EncodeU16(d) + (ev + rest));
      NextU16Prefix(d, ev + rest);
    }
  }

  lemma ChopLayoutRoundTrip(entries: seq<Entries.Entry>, d: uint16, k: uint8, rest: seq<uint8>)
    requires 1 <= k <= 3
    ensures DecodeFrame(entries, ChopBytes(d, k) + rest) == Ok((StackMapFrame(Chop, d, [], [], Some(k)), rest))
  {
    var tag: uint8 := 251 - k;
    assert ChopBytes(d, k) + rest == [tag] + (EncodeU16(d) + rest);
    NextBytePrefix(tag, EncodeU16(d) + rest);
    NextU16Prefix(d, rest);
  }

  lemma AppendLayoutRoundTrip(entries: seq<Entries.Entry>, d: uint16, locals: seq<VerificationElement>, idx: seq<uint16>,
                              rest: seq<uint8>)
    requires 1 <= |locals| <= 3 && |idx| == |locals| && ElementsValid(locals) && ClassesAt(entries, locals, idx)
    ensures DecodeFrame(entries, AppendBytes(d, locals, idx) + rest) == Ok((StackMapFrame(Append, d, [], locals, None), rest))
  {
    var tag: uint8 := 251 + |locals|;
    var lv := ElementsBytes(locals, idx);
    assert AppendBytes(d, locals, idx) + rest == [tag] + (EncodeU16(d) + (lv + rest));
    NextBytePrefix(tag, EncodeU16(d) + (lv + rest));
    NextU16Prefix(d, lv + rest);
    ElementsLayoutRoundTrip(entries, locals, idx, rest);
  }

  /** The fields after a full frame's delta: the locals and the stack, each preceded by its count. */
  lemma FullFieldsRoundTrip(entries: seq<Entries.Entry>, d: uint16, locals: seq<VerificationElement>,
                            stack: seq<VerificationElement>, li: seq<uint16>, si: seq<uint16>, rest: seq<uint8>)
    requires |locals| <= 0xFFFF && |stack| <= 0xFFFF && |li| == |locals| && |si| == |stack|
    requires ElementsValid(locals) && ElementsValid(stack)
    requires ClassesAt(entries, locals, li) && ClassesAt(entries, stack, si)
    ensures DecodeFullFrame(entries, EncodeU16(|locals|) + (ElementsBytes(locals, li)
              + (EncodeU16(|stack|) + (ElementsBytes(stack, si) + rest))), d)
         == Ok((StackMapFrame(Full, d, stack, locals, None), rest))
  {
    var tail := EncodeU16(|stack|) + (ElementsBytes(stack, si) + rest);
    NextU16Prefix(|locals|, ElementsBytes(locals, li) + tail);
    ElementsLayoutRoundTrip(entries, locals, li, tail);
    NextU16Prefix(|stack|, ElementsBytes(stack, si) + rest);
    ElementsLayoutRoundTrip(entries, stack, si, rest);
  }

  lemma Reassociate<T>(a: seq<T>, b: seq<T>, c: seq<T>, d: seq<T>, e: seq<T>, f: seq<T>, g: seq<T>)
    ensures a + b + c + d + e + f + g == a + (b + (c + (d + (e + (f + g)))))
  {
  }

  /** The decoder's dispatch to a full frame once its tag and delta have been read. */
  lemma DecodeFullDispatch(entries: seq<Entries.Entry>, input: seq<uint8>, afterTag: seq<uint8>, d: uint16, fields: seq<uint8>)
    requires NextByte(input) == Ok((255, afterTag)) && NextU16(afterTag) == Ok((d, fields))
    ensures DecodeFrame(entries, input) == DecodeFullFrame(entries, fields, d)
  {
  }

  lemma FullLayoutRoundTrip(entries: seq<Entries.Entry>, d: uint16, locals: seq<VerificationElement>,
                            stack: seq<VerificationElement>, li: seq<uint16>, si: seq<uint16>, rest: seq<uint8>)
    requires |locals| <= 0xFFFF && |stack| <= 0xFFFF && |li| == |locals| && |si| == |stack|
    requires ElementsValid(locals) && ElementsValid(stack)
    requires ClassesAt(entries, locals, li) && ClassesAt(entries, stack, si)
    ensures DecodeFrame(entries, FullBytes(d, locals, stack, li, si) + rest)
         == Ok((StackMapFrame(Full, d, stack, locals, None), rest))
  {
    var fields := EncodeU16(|locals|) + (ElementsBytes(locals, li) + (EncodeU16(|stack|) + (ElementsBytes(stack, si) + rest)));
    var input := FullBytes(d, locals, stack, li, si) + rest;
    assert input == [255] + (EncodeU16(d) + fields) by {
      Reassociate([255], EncodeU16(d), EncodeU16(|locals|), ElementsBytes(locals, li), EncodeU16(|stack|), ElementsBytes(stack, si), rest);
    }
    NextBytePrefix(255, EncodeU16(d) + fields);
    NextU16Prefix(d, fields);
    DecodeFullDispatch(entries, input, EncodeU16(d) + fields, d, fields);
    FullFieldsRoundTrip(entries, d, locals, stack, li, si, rest);
  }

  /** An accepted frame reads back from its layout as the part of it the encoding carries. */
  lemma FrameLayoutRoundTrip(entries: seq<Entries.Entry>, f: StackMapFrame, idx: seq<uint16>, rest: seq<uint8>)
    requires FrameAccepted(f) && FrameElementsValid(f) && |idx| == |WrittenElements(f)|
    requires ClassesAt(entries, WrittenElements(f), idx)
    ensures DecodeFrame(entries, FrameBytes(f, idx) + rest) == Ok((Normalize(f), rest))
  {
    var d := f.offsetDelta;
    match f.frameType
    case Same => SameLayoutRoundTrip(entries, d, rest);
    case SameLocals1StackItem =>
      ElementsValidTail(f.stack);
      SameLocals1LayoutRoundTrip(entries, d, f.stack[0], idx[0], rest);
    case Chop => ChopLayoutRoundTrip(entries, d, f.chopK.value, rest);
    case Append => AppendLayoutRoundTrip(entries, d, f.locals, idx, rest);
    case Full =>
      var n := |f.locals|;
      assert idx == idx[..n] + idx[n..];
      ClassesAtAppend(entries, f.locals, f.stack, idx[..n], idx[n..]);
      FullLayoutRoundTrip(entries, d, f.locals, f.stack, idx[..n], idx[n..], rest);
  }

  // ---------------------------------------------------------------- Round trip through the pool

  /** What `EncodeFrame` writes is the layout of the frame under the class indices it found. */
  lemma FrameEncoded(st: PoolState, f: StackMapFrame) returns (idx: seq<uint16>)
    requires ValidPool(st) && EncodeFrame(st, f).1.Ok?
    ensures FrameAccepted(f) && |idx| == |WrittenElements(f)|
    ensures EncodeFrame(st, f).1.value == FrameBytes(f, idx)
    ensures ClassesAt(EncodeFrame(st, f).0.entries, WrittenElements(f), idx)
  {
    var d := f.offsetDelta;
    match f.frameType
    case Same =>
      idx := [];
    case SameLocals1StackItem =>
      var index := ElementEncoded(st, f.stack[0]);
      idx := [index];
    case Chop =>
      idx := [];
    case Append =>
      idx := ElementsEncoded(st, f.locals);
    case Full =>
      var (st1, rl) := EncodeElements(st, f.locals);
      var li := ElementsEncoded(st, f.locals);
      var si := ElementsEncoded(st1, f.stack);
      var final := EncodeElements(st1, f.stack).0;
      ClassesAtGrow(st1.entries, final.entries, f.locals, li);
      ClassesAtAppend(final.entries, f.locals, f.stack, li, si);
      idx := li + si;
      assert idx[..|f.locals|] == li && idx[|f.locals|..] == si;
  }

  /** A frame `EncodeFrame` writes reads back as its normal form through any pool that
      starts with the slots the writer left. */
  lemma FrameRoundTrip(st: PoolState, f: StackMapFrame, entries: seq<Entries.Entry>, rest: seq<uint8>)
    requires ValidPool(st) && FrameElementsValid(f) && EncodeFrame(st, f).1.Ok?
    requires Covers(entries, EncodeFrame(st, f).0)
    ensures FrameAccepted(f)
    ensures DecodeFrame(entries, EncodeFrame(st, f).1.value + rest) == Ok((Normalize(f), rest))
  {
    var idx := FrameEncoded(st, f);
    ClassesAtGrow(EncodeFrame(st, f).0.entries, entries, WrittenElements(f), idx);
    FrameLayoutRoundTrip(entries, f, idx, rest);
  }

  predicate FramesElementsValid(frames: seq<StackMapFrame>) {
    forall i :: 0 <= i < |frames| ==> FrameElementsValid(frames[i])
  }

  lemma {:induction false} FramesRoundTrip(st: PoolState, frames: seq<StackMapFrame>, entries: seq<Entries.Entry>,
                                           rest: seq<uint8>)
    requires ValidPool(st) && FramesElementsValid(frames) && EncodeFrames(st, frames).1.Ok?
    requires Covers(entries, EncodeFrames(st, frames).0)
    ensures forall i :: 0 <= i < |frames| ==> FrameAccepted(frames[i])
    ensures DecodeFrames(entries, EncodeFrames(st, frames).1.value + rest, |frames|)
         == Ok((NormalizeAll(frames), rest))
    decreases frames
  {
    if frames == [] {
      assert EncodeFrames(st, frames).1.value + rest == rest;
    } else {
      var (st1, r) := EncodeFrame(st, frames[0]);
      var tailRes := EncodeFrames(st1, frames[1..]);
      assert FramesElementsValid(frames[1..]) by {
        forall i | 0 <= i < |frames[1..]| ensures FrameElementsValid(frames[1..][i]) {
          assert frames[1..][i] == frames[i + 1];
        }
      }
      CoversEarlier(entries, st1, tailRes.0);
      var input := EncodeFrames(st, frames).1.value + rest;
      assert input == r.value + (tailRes.1.value + rest);
      FrameRoundTrip(st, frames[0], entries, tailRes.1.value + rest);
      DecodeFramesFrom(entries, input, |frames|, Normalize(frames[0]), tailRes.1.value + rest);
      FramesRoundTrip(st1, frames[1..], entries, rest);
      assert [Normalize(frames[0])] + NormalizeAll(frames[1..]) == NormalizeAll(frames);
    }
  }

  /** A table is its count followed by the frames that count says. */
  lemma TableFromFrames(entries: seq<Entries.Entry>, size: uint16, body: seq<uint8>, rest: seq<uint8>,
                        frames: seq<StackMapFrame>)
    requires DecodeFrames(entries, body + rest, size) == Ok((frames, rest))
    ensures DecodeTable(entries, EncodeU16(size) + body + rest) == Ok((frames, rest))
  {
    assert EncodeU16(size) + body + rest == EncodeU16(size) + (body + rest);
    NextU16Prefix(size, body + rest);
  }

  /** The decoder's first step through a non-empty list of frames. */
  lemma DecodeFramesFrom(entries: seq<Entries.Entry>, input: seq<uint8>, count: nat, f: StackMapFrame, after: seq<uint8>)
    requires count > 0 && DecodeFrame(entries, input) == Ok((f, after))
    ensures DecodeFrames(entries, input, count) == Prepend([f], DecodeFrames(entries, after, count - 1))
  {
  }

  /** `Parse(Save(frames))`: a table `Save` accepts reads back as the normal forms of its
      frames, in order, through any pool that starts with the slots the writer left. */
  lemma TableRoundTrip(st: PoolState, frames: seq<StackMapFrame>, entries: seq<Entries.Entry>, rest: seq<uint8>)
    requires ValidPool(st) && FramesElementsValid(frames) && EncodeTable(st, frames).1.Ok?
    requires Covers(entries, EncodeTable(st, frames).0)
    ensures forall i :: 0 <= i < |frames| ==> FrameAccepted(frames[i])
    ensures DecodeTable(entries, EncodeTable(st, frames).1.value + rest) == Ok((NormalizeAll(frames), rest))
  {
    FramesRoundTrip(st, frames, entries, rest);
    TableFromFrames(entries, |frames|, EncodeFrames(st, frames).1.value, rest, NormalizeAll(frames));
  }

  // ---------------------------------------------------------------- Frame encodings, variant by variant

  /** A Same frame is one byte below 64, otherwise 251 and an explicit u16 delta. */
  lemma SameFrameEncoding(st: PoolState, f: StackMapFrame)
    requires ValidPool(st) && f.frameType == Same
    ensures var (st', r) := EncodeFrame(st, f);
      && st' == st && r.Ok?
      && (f.offsetDelta < 64 ==> r.value == [f.offsetDelta])
      && (f.offsetDelta >= 64 ==> |r.value| == 3 && r.value[0] == 251 && DecodeU16(r.value[1], r.value[2]) == f.offsetDelta)
  {
  }

  /** The 63/64 boundary of the implicit delta. */
  lemma SameFrameBoundary(st: PoolState)
    requires ValidPool(st)
    ensures EncodeFrame(st, StackMapFrame(Same, 63, [], [], None)).1 == Ok([63])
    ensures EncodeFrame(st, StackMapFrame(Same, 64, [], [], None)).1 == Ok([251, 0, 64])
  {
    assert [251] + EncodeU16(64) == [251, 0, 64];
  }

  /** A SameLocals1StackItem frame needs a stack element; its delta rides in tags 64 to 127
      below 64, otherwise in a u16 after tag 247; then comes exactly the encoding of `Stack[0]`. */
  lemma SameLocals1FrameEncoding(st: PoolState, f: StackMapFrame)
    requires ValidPool(st) && f.frameType == SameLocals1StackItem
    ensures |f.stack| == 0 ==> EncodeFrame(st, f) == (st, Err(ArgumentOutOfRange))
    ensures |f.stack| > 0 ==>
      var (st', r) := EncodeFrame(st, f);
      var (st1, w) := EncodeElement(st, f.stack[0]);
      var d := f.offsetDelta;
      && st' == st1 && (r.Ok? <==> w.Ok?) && (r.Err? ==> r == w)
      && (r.Ok? && d < 64 ==> r.value == [d + 64] + w.value && 64 <= r.value[0] < 128)
      && (r.Ok? && d >= 64 ==> r.value == [247] + EncodeU16(d) + w.value)
  {
  }

  lemma SameLocals1FrameBoundary(st: PoolState, e: VerificationElement)
    requires ValidPool(st) && e.Simple?
    ensures EncodeFrame(st, StackMapFrame(SameLocals1StackItem, 63, [e], [], None)).1 == Ok([127, Ordinal(e.simpleType)])
    ensures EncodeFrame(st, StackMapFrame(SameLocals1StackItem, 64, [e], [], None)).1 == Ok([247, 0, 64, Ordinal(e.simpleType)])
  {
    var b := Ordinal(e.simpleType);
    assert EncodeElement(st, e).1 == Ok([b]);
    assert [127] + [b] == [127, b];
    assert [247] + EncodeU16(64) + [b] == [247, 0, 64, b];
  }

  /** A Chop frame needs `ChopK` in 1 to 3, and then takes a tag in 248 to 250 and a u16 delta. */
  lemma ChopFrameEncoding(st: PoolState, f: StackMapFrame)
    requires ValidPool(st) && f.frameType == Chop
    ensures f.chopK.None? ==> EncodeFrame(st, f) == (st, Err(ArgumentNull))
    ensures f.chopK.Some? && !(1 <= f.chopK.value <= 3) ==> EncodeFrame(st, f) == (st, Err(ArgumentOutOfRange))
    ensures f.chopK.Some? && 1 <= f.chopK.value <= 3 ==>
      var (st', r) := EncodeFrame(st, f);
      && st' == st && r.Ok? && |r.value| == 3
      && r.value[0] as int == 251 - f.chopK.value as int && 248 <= r.value[0] <= 250
      && DecodeU16(r.value[1], r.value[2]) == f.offsetDelta
  {
  }

  /** An Append frame needs one to three locals, and then takes a tag in 252 to 254, a u16
      delta and the locals in order. */
  lemma AppendFrameEncoding(st: PoolState, f: StackMapFrame)
    requires ValidPool(st) && f.frameType == Append
    ensures !(1 <= |f.locals| <= 3) ==> EncodeFrame(st, f) == (st, Err(ArgumentOutOfRange))
    ensures 1 <= |f.locals| <= 3 ==>
      var (st', r) := EncodeFrame(st, f);
      var (st1, w) := EncodeElements(st, f.locals);
      && st' == st1 && (r.Ok? <==> w.Ok?)
      && (r.Ok? ==> r.value == [251 + |f.locals|] + EncodeU16(f.offsetDelta) + w.value && 252 <= r.value[0] <= 254)
  {
  }

  /** A Full frame starts with 255, the delta and the locals count. */
  lemma FullFrameEncoding(st: PoolState, f: StackMapFrame)
    requires ValidPool(st) && f.frameType == Full
    ensures |f.locals| > 0xFFFF ==> EncodeFrame(st, f) == (st, Err(ArgumentOutOfRange))
    ensures EncodeFrame(st, f).1.Ok? ==>
      var w := EncodeFrame(st, f).1.value;
      |w| >= 7 && w[..5] == [255] + EncodeU16(f.offsetDelta) + EncodeU16(|f.locals|)
  {
    if EncodeFrame(st, f).1.Ok? {
      var idx := FrameEncoded(st, f);
      var n := |f.locals|;
      var lv := ElementsBytes(f.locals, idx[..n]);
      var head := [255] + EncodeU16(f.offsetDelta) + EncodeU16(|f.locals|);
      var tail := EncodeU16(|f.stack|) + ElementsBytes(f.stack, idx[n..]);
      assert FrameBytes(f, idx) == head + (lv + tail);
    }
  }

  // ---------------------------------------------------------------- Frame types by tag (section 4.7.4 of the JVMS)

  /** The frame kinds of section 4.7.4 of the JVMS. */
  datatype JvmsFrameKind =
    | SameFrame | SameLocals1StackItemFrame | SameLocals1StackItemFrameExtended
    | ChopFrame | SameFrameExtended | AppendFrame | FullFrame

  /** The tag ranges of section 4.7.4 of the JVMS; tags 128 to 246 are reserved. */
  function JvmsKindOfTag(tag: uint8): Option<JvmsFrameKind> {
    if tag <= 63 then Some(SameFrame)
    else if tag <= 127 then Some(SameLocals1StackItemFrame)
    else if tag <= 246 then None
    else if tag == 247 then Some(SameLocals1StackItemFrameExtended)
    else if tag <= 250 then Some(ChopFrame)
    else if tag == 251 then Some(SameFrameExtended)
    else if tag <= 254 then Some(AppendFrame)
    else Some(FullFrame)
  }

  /** The frame type a kind is read as. */
  function KindFrameType(k: JvmsFrameKind): FrameType {
    match k
    case SameFrame => Same
    case SameFrameExtended => Same
    case SameLocals1StackItemFrame => SameLocals1StackItem
    case SameLocals1StackItemFrameExtended => SameLocals1StackItem
    case ChopFrame => Chop
    case AppendFrame => Append
    case FullFrame => Full
  }

  /** Whether the kind carries its delta in a u16 after the tag. */
  predicate ExplicitDelta(k: JvmsFrameKind) {
    !(k == SameFrame || k == SameLocals1StackItemFrame)
  }

  /** For every tag the standard assigns, a frame the reader produces has the type, the delta,
      the `ChopK` and the number of elements the standard gives that tag. */
  lemma DecodeFollowsJvms(entries: seq<Entries.Entry>, input: seq<uint8>)
    requires |input| >= 1 && JvmsKindOfTag(input[0]).Some?
    ensures var r := DecodeFrame(entries, input);
      var tag := input[0];
      var k := JvmsKindOfTag(tag).value;
      r.Ok? ==>
        && r.value.0.frameType == KindFrameType(k)
        && (ExplicitDelta(k) ==> |input| >= 3 && r.value.0.offsetDelta == DecodeU16(input[1], input[2]))
        && (k == SameFrame ==> r.value.0.offsetDelta == tag)
        && (k == SameLocals1StackItemFrame ==> r.value.0.offsetDelta == tag - 64)
        && (k == ChopFrame ==> r.value.0.chopK == Some(251 - tag))
        && (KindFrameType(k) == SameLocals1StackItem ==> |r.value.0.stack| == 1 && r.value.0.locals == [])
        && (k == AppendFrame ==> |r.value.0.locals| == tag - 251 && r.value.0.stack == [])
        && FrameAccepted(r.value.0)
  {
  }

  /** `StackMapTableAttribute.cs:246-254` as written: a reserved tag reads as a Chop frame whose `ChopK` is
      `251 - tag`, between 5 and 123, which `Save` would refuse to write. */
  lemma ReservedTagReadsAsChop(entries: seq<Entries.Entry>, tag: uint8, d: uint16, rest: seq<uint8>)
    requires JvmsKindOfTag(tag).None?
    ensures DecodeFrame(entries, [tag] + EncodeU16(d) + rest)
         == Ok((StackMapFrame(Chop, d, [], [], Some(251 - tag)), rest))
    ensures 5 <= 251 - tag <= 123 && !FrameAccepted(StackMapFrame(Chop, d, [], [], Some(251 - tag)))
  {
    assert [tag] + EncodeU16(d) + rest == [tag] + (EncodeU16(d) + rest);
    NextBytePrefix(tag, EncodeU16(d) + rest);
    NextU16Prefix(d, rest);
  }

  /** The frame reader with the reserved tags rejected, as the error branch at `StackMapTableAttribute.cs:292`
      evidently intends. */
  function DecodeFrameChecked(entries: seq<Entries.Entry>, input: seq<uint8>): (r: Result<(StackMapFrame, seq<uint8>)>)
  {
    if |input| >= 1 && JvmsKindOfTag(input[0]).None? then Err(ArgumentOutOfRange)
    else DecodeFrame(entries, input)
  }

  /** The checked reader rejects exactly the reserved tags, agrees with the reader elsewhere,
      and yields only frames `Save` accepts. */
  lemma DecodeFrameCheckedSound(entries: seq<Entries.Entry>, input: seq<uint8>)
    ensures |input| >= 1 && JvmsKindOfTag(input[0]).None? ==> DecodeFrameChecked(entries, input) == Err(ArgumentOutOfRange)
    ensures (|input| == 0 || JvmsKindOfTag(input[0]).Some?) ==> DecodeFrameChecked(entries, input) == DecodeFrame(entries, input)
    ensures DecodeFrameChecked(entries, input).Ok? ==> FrameAccepted(DecodeFrameChecked(entries, input).value.0)
  {
    if |input| >= 1 && JvmsKindOfTag(input[0]).Some? {
      DecodeFollowsJvms(entries, input);
    }
  }

  /** No frame the writer produces starts with a reserved tag, so the checked reader reads
      back the same frames. */
  lemma CheckedFrameRoundTrip(st: PoolState, f: StackMapFrame, entries: seq<Entries.Entry>, rest: seq<uint8>)
    requires ValidPool(st) && FrameElementsValid(f) && EncodeFrame(st, f).1.Ok?
    requires Covers(entries, EncodeFrame(st, f).0)
    ensures FrameAccepted(f)
    ensures DecodeFrameChecked(entries, EncodeFrame(st, f).1.value + rest) == Ok((Normalize(f), rest))
  {
    FrameRoundTrip(st, f, entries, rest);
    var idx := FrameEncoded(st, f);
    assert (FrameBytes(f, idx) + rest)[0] == FrameBytes(f, idx)[0];
  }

  // ---------------------------------------------------------------- Save and Parse

  /** `WriteVerificationElement`. */
  method WriteElement(pool: ConstantPool, e: VerificationElement) returns (r: Result<seq<uint8>>)
    requires pool.Valid()
    modifies pool
    ensures (pool.State(), r) == EncodeElement(old(pool.State()), e)
    ensures pool.Valid()
  {
    var t := Ordinal(ElementType(e));
    match e
    case ObjectElement(c) =>
      var index := pool.Find(Entries.Class(c.name));
      if index.Err? {
        return Err(index.error);
      }
      return Ok([t] + EncodeU16(index.value));
    case UninitializedElement(offset) =>
      return Ok([t] + EncodeU16(offset));
    case Simple(_) =>
      return Ok([t]);
  }

  /** The `foreach` over a list of elements. */
  method WriteElements(pool: ConstantPool, es: seq<VerificationElement>) returns (r: Result<seq<uint8>>)
    requires pool.Valid()
    modifies pool
    ensures (pool.State(), r) == EncodeElements(old(pool.State()), es)
    ensures pool.Valid()
  {
    var out: seq<uint8> := [];
    var i := 0;
    assert es[0..] == es;
    PrefixedNothing(EncodeElements(pool.State(), es));
    while i < |es|
      invariant i <= |es| && pool.Valid()
      invariant EncodeElements(old(pool.State()), es) == Prefixed(out, EncodeElements(pool.State(), es[i..]))
    {
      assert es[i..][0] == es[i] && es[i..][1..] == es[i + 1..];
      var w := WriteElement(pool, es[i]);
      if w.Err? {
        return w;
      }
      PrefixedTwice(out, w.value, EncodeElements(pool.State(), es[i + 1..]));
      out := out + w.value;
      i := i + 1;
    }
    assert out + [] == out;
    return Ok(out);
  }

  /** The body of the loop of `Save`: one frame. */
  method WriteFrame(pool: ConstantPool, f: StackMapFrame) returns (r: Result<seq<uint8>>)
    requires pool.Valid()
    modifies pool
    ensures (pool.State(), r) == EncodeFrame(old(pool.State()), f)
    ensures pool.Valid()
  {
    var d := f.offsetDelta;
    match f.frameType
    case Same =>
      if d < 64 {
        return Ok([d]);
      }
      return Ok([251] + EncodeU16(d));
    case SameLocals1StackItem =>
      var header: seq<uint8>;
      if d < 64 {
        var tag: uint8 := d + 64;
        header := [tag];
      } else {
        header := [247] + EncodeU16(d);
      }
      if |f.stack| == 0 {
        return Err(ArgumentOutOfRange);
      }
      var w := WriteElement(pool, f.stack[0]);
      if w.Err? {
        return w;
      }
      return Ok(header + w.value);
    case Chop =>
      if f.chopK.None? {
        return Err(ArgumentNull);
      }
      if f.chopK.value < 1 || f.chopK.value > 3 {
        return Err(ArgumentOutOfRange);
      }
      var tag: uint8 := 251 - f.chopK.value;
      return Ok([tag] + EncodeU16(d));
    case Append =>
      if |f.locals| < 1 || |f.locals| > 3 {
        return Err(ArgumentOutOfRange);
      }
      var tag: uint8 := 251 + |f.locals|;
      var w := WriteElements(pool, f.locals);
      if w.Err? {
        return w;
      }
      return Ok([tag] + EncodeU16(d) + w.value);
    case Full =>
      r := WriteFullFrame(pool, f);
  }

  /** The full-frame case of `StackMapTableAttribute.Save`. */
  method WriteFullFrame(pool: ConstantPool, f: StackMapFrame) returns (r: Result<seq<uint8>>)
    requires pool.Valid()
    modifies pool
    ensures (pool.State(), r) == EncodeFullFrame(old(pool.State()), f)
    ensures pool.Valid()
  {
    if |f.locals| > 0xFFFF {
      return Err(ArgumentOutOfRange);
    }
    var l := WriteElements(pool, f.locals);
    if l.Err? {
      return l;
    }
    if |f.stack| > 0xFFFF {
      return Err(ArgumentOutOfRange);
    }
    var k := WriteElements(pool, f.stack);
    if k.Err? {
      return k;
    }
    return Ok([255] + EncodeU16(f.offsetDelta) + EncodeU16(|f.locals|) + l.value + EncodeU16(|f.stack|) + k.value);
  }

  /** `StackMapTableAttribute.Save`. */
  method Save(pool: ConstantPool, frames: seq<StackMapFrame>) returns (r: Result<seq<uint8>>)
    requires pool.Valid()
    modifies pool
    ensures (pool.State(), r) == EncodeTable(old(pool.State()), frames)
    ensures pool.Valid()
  {
    if |frames| > 0xFFFF {
      return Err(ArgumentOutOfRange);
    }
    var out := EncodeU16(|frames|);
    var i := 0;
    assert frames[0..] == frames;
    while i < |frames|
      invariant i <= |frames| && pool.Valid()
      invariant EncodeTable(old(pool.State()), frames) == Prefixed(out, EncodeFrames(pool.State(), frames[i..]))
    {
      assert frames[i..][0] == frames[i] && frames[i..][1..] == frames[i + 1..];
      var w := WriteFrame(pool, frames[i]);
      if w.Err? {
        return w;
      }
      PrefixedTwice(out, w.value, EncodeFrames(pool.State(), frames[i + 1..]));
      out := out + w.value;
      i := i + 1;
    }
    assert out + [] == out;
    return Ok(out);
  }

  /** `ReadVerificationElement`. */
  method ReadElement(pool: ConstantPool, input: seq<uint8>) returns (r: Result<(VerificationElement, seq<uint8>)>)
    ensures r == DecodeElement(pool.entries, input)
  {
    var b := NextByte(input);
    if b.Err? {
      return Err(b.error);
    }
    var (tag, rest) := b.value;
    if tag == 7 {
      var index := NextU16(rest);
      if index.Err? {
        return Err(index.error);
      }
      var c := pool.GetEntry(index.value.0, Entries.ClassTag);
      if c.Err? {
        return Err(c.error);
      }
      return Ok((ObjectElement(ClassName(c.value.className)), index.value.1));
    } else if tag == 8 {
      var offset := NextU16(rest);
      if offset.Err? {
        return Err(offset.error);
      }
      return Ok((UninitializedElement(offset.value.0), offset.value.1));
    } else if tag <= 6 {
      return Ok((Simple(TypeOfOrdinal(tag).value), rest));
    }
    return Err(ArgumentOutOfRange);
  }

  /** The `for` loops that read `count` elements. */
  method ReadElements(pool: ConstantPool, input: seq<uint8>, count: nat)
    returns (r: Result<(seq<VerificationElement>, seq<uint8>)>)
    ensures r == DecodeElements(pool.entries, input, count)
  {
    var es: seq<VerificationElement> := [];
    var rest := input;
    var j := 0;
    PrependNothing(DecodeElements(pool.entries, input, count));
    while j < count
      invariant j <= count
      invariant DecodeElements(pool.entries, input, count) == Prepend(es, DecodeElements(pool.entries, rest, count - j))
    {
      var e := ReadElement(pool, rest);
      if e.Err? {
        return Err(e.error);
      }
      PrependTwice(es, [e.value.0], DecodeElements(pool.entries, e.value.1, count - j - 1));
      es := es + [e.value.0];
      rest := e.value.1;
      j := j + 1;
    }
    assert es + [] == es;
    return Ok((es, rest));
  }

  /** The body of the loop of `Parse`: one frame, selected by its tag byte. */
  method ReadFrame(pool: ConstantPool, input: seq<uint8>) returns (r: Result<(StackMapFrame, seq<uint8>)>)
    ensures r == DecodeFrame(pool.entries, input)
  {
    var b := NextByte(input);
    if b.Err? {
      return Err(b.error);
    }
    var (tag, rest) := b.value;
    if tag < 64 {
      return Ok((StackMapFrame(Same, tag, [], [], None), rest));
    } else if tag < 128 {
      var e := ReadElement(pool, rest);
      if e.Err? {
        return Err(e.error);
      }
      return Ok((StackMapFrame(SameLocals1StackItem, tag - 64, [e.value.0], [], None), e.value.1));
    }
    var delta := NextU16(rest);
    if delta.Err? {
      return Err(delta.error);
    }
    var d := delta.value.0;
    rest := delta.value.1;
    if tag == 247 {
      var e := ReadElement(pool, rest);
      if e.Err? {
        return Err(e.error);
      }
      return Ok((StackMapFrame(SameLocals1StackItem, d, [e.value.0], [], None), e.value.1));
    } else if tag < 251 {
      return Ok((StackMapFrame(Chop, d, [], [], Some(251 - tag)), rest));
    } else if tag == 251 {
      return Ok((StackMapFrame(Same, d, [], [], None), rest));
    } else if tag < 255 {
      var locals := ReadElements(pool, rest, tag - 251);
      if locals.Err? {
        return Err(locals.error);
      }
      return Ok((StackMapFrame(Append, d, [], locals.value.0, None), locals.value.1));
    }
    var localsCount := NextU16(rest);
    if localsCount.Err? {
      return Err(localsCount.error);
    }
    var locals := ReadElements(pool, localsCount.value.1, localsCount.value.0);
    if locals.Err? {
      return Err(locals.error);
    }
    var stackCount := NextU16(locals.value.1);
    if stackCount.Err? {
      return Err(stackCount.error);
    }
    var stack := ReadElements(pool, stackCount.value.1, stackCount.value.0);
    if stack.Err? {
      return Err(stack.error);
    }
    return Ok((StackMapFrame(Full, d, stack.value.0, locals.value.0, None), stack.value.1));
  }

  /** `StackMapTableAttributeFactory.Parse`. */
  method Parse(pool: ConstantPool, input: seq<uint8>) returns (r: Result<(seq<StackMapFrame>, seq<uint8>)>)
    ensures r == DecodeTable(pool.entries, input)
  {
    var size := NextU16(input);
    if size.Err? {
      return Err(size.error);
    }
    var count := size.value.0;
    var frames: seq<StackMapFrame> := [];
    var rest := size.value.1;
    var i := 0;
    ghost var total := DecodeFrames(pool.entries, rest, count);
    assert total == DecodeTable(pool.entries, input);
    PrependNothing(total);
    while i < count
      invariant i <= count
      invariant total == Prepend(frames, DecodeFrames(pool.entries, rest, count - i))
    {
      var f := ReadFrame(pool, rest);
      if f.Err? {
        return Err(f.error);
      }
      PrependTwice(frames, [f.value.0], DecodeFrames(pool.entries, f.value.1, count - i - 1));
      frames := frames + [f.value.0];
      rest := f.value.1;
      i := i + 1;
    }
    assert frames + [] == frames;
    return Ok((frames, rest));
  }
}
