/**
  The attribute bookkeeping of a method (`MethodNode`): `Parse` takes the
  predefined attributes out of the raw attribute list into fields, and `Save`
  puts the fields back as attributes appended to the list.

  The attribute payloads other than their kind are not part of this model:
  annotations, element values, instructions and the Code attribute's body are
  abstract. `InstructionListConverter` is a parameter: `parseCode` stands for
  what `ParseCodeAttribute` makes of a Code attribute, and `code` for the Code
  attribute `SaveCodeAttribute` builds.
*/
module MethodNodes {
  import opened Wrappers
  import opened ClassNames

  type Annotation
  type ElementValue
  type Instruction
  type CodeAttribute

  /** `InstructionList`; a new method starts with an empty one. */
  datatype InstructionList = InstructionList(instructions: seq<Instruction>)

  /** The flags of `MethodAccessModifiers` (table 4.6-A of the JVMS). */
  datatype MethodAccess =
    | Public | Private | Protected | Static | Final | Synchronized | Bridge | Varargs
    | Native | Abstract | Strict | Synthetic

  /** The parsed form of an attribute, by class; `Other` is any class this model does not name. */
  datatype ParsedAttribute =
    | SignatureAttribute(value: Option<string>)
    | Code(code: CodeAttribute)
    | RuntimeInvisibleAnnotationsAttribute(invisible: Option<seq<Annotation>>)
    | RuntimeVisibleAnnotationsAttribute(visible: Option<seq<Annotation>>)
    | ExceptionsAttribute(exceptionTable: Option<seq<ClassName>>)
    | AnnotationDefaultAttribute(defaultValue: Option<ElementValue>)
    | DeprecatedAttribute
    | Other

  /** `AttributeNode`: a name and a parsed payload, which may be null. */
  datatype AttributeNode = AttributeNode(name: string, parsed: Option<ParsedAttribute>)

  // `PredefinedAttributeNames`: the attribute names of section 4.7 of the JVMS.
  const SignatureName := "Signature"
  const CodeName := "Code"
  const InvisibleAnnotationsName := "RuntimeInvisibleAnnotations"
  const VisibleAnnotationsName := "RuntimeVisibleAnnotations"
  const ExceptionsName := "Exceptions"
  const AnnotationDefaultName := "AnnotationDefault"
  const DeprecatedName := "Deprecated"

  /** The names `Parse` takes out and `Save` writes, in the order both handle them. */
  const MethodAttributeNames := [SignatureName, CodeName, InvisibleAnnotationsName, VisibleAnnotationsName,
                                 ExceptionsName, AnnotationDefaultName, DeprecatedName]

  /** The fields of a method besides its attribute list. */
  datatype MethodFields = MethodFields(
    access: set<MethodAccess>,
    signature: Option<string>,
    instructions: Option<InstructionList>,
    invisibleAnnotations: Option<seq<Annotation>>,
    visibleAnnotations: Option<seq<Annotation>>,
    isDeprecated: bool,
    throws: Option<seq<ClassName>>,
    annotationDefaultValue: Option<ElementValue>)

  // ---------------------------------------------------------------- Attribute lists

  /** The attributes named `name`, in list order. */
  function WithName(attrs: seq<AttributeNode>, name: string): (r: seq<AttributeNode>)
    ensures |r| <= |attrs|
  {
    if attrs == [] then []
    else (if attrs[0].name == name then [attrs[0]] else []) + WithName(attrs[1..], name)
  }

  /** Some attribute in the list is named `name`. */
  predicate HasName(attrs: seq<AttributeNode>, name: string) {
    exists i :: 0 <= i < |attrs| && attrs[i].name == name
  }

  lemma {:induction false} HasNameWithName(attrs: seq<AttributeNode>, name: string)
    ensures HasName(attrs, name) <==> WithName(attrs, name) != []
    decreases attrs
  {
    if attrs != [] {
      HasNameWithName(attrs[1..], name);
      if HasName(attrs[1..], name) {
        var i :| 0 <= i < |attrs[1..]| && attrs[1..][i].name == name;
        assert attrs[i + 1].name == name;
      }
      if HasName(attrs, name) && attrs[0].name != name {
        var i :| 0 <= i < |attrs| && attrs[i].name == name;
        assert attrs[1..][i - 1].name == name;
      }
    }
  }

  function Drop1<T>(s: seq<T>): seq<T> {
    if s == [] then [] else s[1..]
  }

  function First<T>(s: seq<T>): Option<T> {
    if s == [] then None else Some(s[0])
  }

  /** `GetAttribute`: the first attribute named `name` (`FirstOrDefault`), removed from
      the list, or null and the list unchanged. */
  function TakeAttribute(attrs: seq<AttributeNode>, name: string): (res: (seq<AttributeNode>, Option<AttributeNode>))
    ensures |res.0| + (if res.1.Some? then 1 else 0) == |attrs|
    ensures res.1.Some? ==> res.1.value.name == name
    ensures res.1.None? ==> res.0 == attrs
    decreases attrs
  {
    if attrs == [] then ([], None)
    else if attrs[0].name == name then (attrs[1..], Some(attrs[0]))
    else
      var (rest, taken) := TakeAttribute(attrs[1..], name);
      ([attrs[0]] + rest, taken)
  }

  /** The attribute taken is the first of that name, and the others of that name stay. */
  lemma {:induction false} TakeAttributeFirst(attrs: seq<AttributeNode>, name: string)
    ensures TakeAttribute(attrs, name).1 == First(WithName(attrs, name))
    ensures WithName(TakeAttribute(attrs, name).0, name) == Drop1(WithName(attrs, name))
    decreases attrs
  {
    if attrs != [] && attrs[0].name != name {
      var rest := TakeAttribute(attrs[1..], name).0;
      TakeAttributeFirst(attrs[1..], name);
      assert ([attrs[0]] + rest)[1..] == rest;
    }
  }

  /** Attributes of other names are not touched. */
  lemma {:induction false} TakeAttributeOthers(attrs: seq<AttributeNode>, name: string, n: string)
    requires n != name
    ensures WithName(TakeAttribute(attrs, name).0, n) == WithName(attrs, n)
    decreases attrs
  {
    if attrs != [] && attrs[0].name != name {
      var rest := TakeAttribute(attrs[1..], name).0;
      TakeAttributeOthers(attrs[1..], name, n);
      assert ([attrs[0]] + rest)[1..] == rest;
    }
  }

  /** `a` is `b` with some elements left out, the others in their order. */
  predicate Subsequence<T(==)>(a: seq<T>, b: seq<T>)
    decreases |b|
  {
    if a == [] then true
    else if b == [] then false
    else (a[0] == b[0] && Subsequence(a[1..], b[1..])) || Subsequence(a, b[1..])
  }

  lemma {:induction false} SubsequenceOfItself<T>(s: seq<T>)
    ensures Subsequence(s, s)
    decreases |s|
  {
    if s != [] {
      SubsequenceOfItself(s[1..]);
    }
  }

  lemma {:induction false} SubsequenceTransitive<T>(a: seq<T>, b: seq<T>, c: seq<T>)
    requires Subsequence(a, b) && Subsequence(b, c)
    ensures Subsequence(a, c)
    decreases |c|
  {
    if a != [] {
      assert b != [] && c != [];
      if b[0] == c[0] && Subsequence(b[1..], c[1..]) {
        if a[0] == b[0] && Subsequence(a[1..], b[1..]) {
          SubsequenceTransitive(a[1..], b[1..], c[1..]);
        } else {
          SubsequenceTransitive(a, b[1..], c[1..]);
        }
      } else {
        SubsequenceTransitive(a, b, c[1..]);
      }
    }
  }

  /** Removing an attribute keeps the others in their order. */
  lemma {:induction false} TakeAttributeKeepsOrder(attrs: seq<AttributeNode>, name: string)
    ensures Subsequence(TakeAttribute(attrs, name).0, attrs)
    decreases attrs
  {
    if attrs == [] {
    } else if attrs[0].name == name {
      SubsequenceOfItself(attrs[1..]);
      assert Subsequence(attrs[1..], attrs[1..]);
    } else {
      var rest := TakeAttribute(attrs[1..], name).0;
      TakeAttributeKeepsOrder(attrs[1..], name);
      assert ([attrs[0]] + rest)[0] == attrs[0] && ([attrs[0]] + rest)[1..] == rest;
    }
  }

  // ---------------------------------------------------------------- Parse

  /** The payload a field takes from an attribute: none when the attribute is missing, its payload is null, or it is of another class. */
  function SignatureOf(a: Option<AttributeNode>): Option<string> {
    if a.Some? && a.value.parsed.Some? && a.value.parsed.value.SignatureAttribute? then a.value.parsed.value.value else None
  }

  function InvisibleOf(a: AttributeNode): Option<seq<Annotation>> {
    if a.parsed.Some? && a.parsed.value.RuntimeInvisibleAnnotationsAttribute? then a.parsed.value.invisible else None
  }

  function VisibleOf(a: AttributeNode): Option<seq<Annotation>> {
    if a.parsed.Some? && a.parsed.value.RuntimeVisibleAnnotationsAttribute? then a.parsed.value.visible else None
  }

  function ExceptionsOf(a: AttributeNode): Option<seq<ClassName>> {
    if a.parsed.Some? && a.parsed.value.ExceptionsAttribute? then a.parsed.value.exceptionTable else None
  }

  function AnnotationDefaultOf(a: Option<AttributeNode>): Option<ElementValue> {
    if a.Some? && a.value.parsed.Some? && a.value.parsed.value.AnnotationDefaultAttribute? then a.value.parsed.value.defaultValue else None
  }

  /** The instructions after looking at a Code attribute: parsed from it when its payload
      is a Code attribute, unchanged otherwise. */
  function CodeOf(a: Option<AttributeNode>, instructions: Option<InstructionList>, parseCode: CodeAttribute -> InstructionList)
    : Option<InstructionList>
  {
    if a.Some? && a.value.parsed.Some? && a.value.parsed.value.Code? then Some(parseCode(a.value.parsed.value.code))
    else instructions
  }

  // The seven blocks of `Parse`, each on the fields and the list left by the one before.

  function ParseSignature(f: MethodFields, attrs: seq<AttributeNode>): (MethodFields, seq<AttributeNode>) {
    var (rest, a) := TakeAttribute(attrs, SignatureName);
    (f.(signature := SignatureOf(a)), rest)
  }

  function ParseCode(f: MethodFields, attrs: seq<AttributeNode>, parseCode: CodeAttribute -> InstructionList)
    : (MethodFields, seq<AttributeNode>)
  {
    var (rest, a) := TakeAttribute(attrs, CodeName);
    (f.(instructions := CodeOf(a, f.instructions, parseCode)), rest)
  }

  function ParseInvisibleAnnotations(f: MethodFields, attrs: seq<AttributeNode>): (MethodFields, seq<AttributeNode>) {
    var (rest, a) := TakeAttribute(attrs, InvisibleAnnotationsName);
    (if a.Some? then f.(invisibleAnnotations := InvisibleOf(a.value)) else f, rest)
  }

  function ParseVisibleAnnotations(f: MethodFields, attrs: seq<AttributeNode>): (MethodFields, seq<AttributeNode>) {
    var (rest, a) := TakeAttribute(attrs, VisibleAnnotationsName);
    (if a.Some? then f.(visibleAnnotations := VisibleOf(a.value)) else f, rest)
  }

  function ParseExceptions(f: MethodFields, attrs: seq<AttributeNode>): (MethodFields, seq<AttributeNode>) {
    var (rest, a) := TakeAttribute(attrs, ExceptionsName);
    (if a.Some? then f.(throws := ExceptionsOf(a.value)) else f, rest)
  }

  function ParseAnnotationDefault(f: MethodFields, attrs: seq<AttributeNode>): (MethodFields, seq<AttributeNode>) {
    var (rest, a) := TakeAttribute(attrs, AnnotationDefaultName);
    (f.(annotationDefaultValue := AnnotationDefaultOf(a)), rest)
  }

  function ParseDeprecated(f: MethodFields, attrs: seq<AttributeNode>): (MethodFields, seq<AttributeNode>) {
    var (rest, a) := TakeAttribute(attrs, DeprecatedName);
    (f.(isDeprecated := a.Some? && a.value.parsed.Some?), rest)
  }

  /** What `Parse` leaves in the fields and in the list: it takes out one attribute of
      each of the seven names, in order. Signature and AnnotationDefault are always
      assigned, Code only when its payload is a Code attribute, the annotation lists and
      the exception table only when their attribute is present, and IsDeprecated says
      whether a Deprecated attribute with a payload was there. */
  function Parsed(f: MethodFields, attrs: seq<AttributeNode>, parseCode: CodeAttribute -> InstructionList)
    : (res: (MethodFields, seq<AttributeNode>))
    ensures res.0.access == f.access
    ensures |res.1| <= |attrs|
  {
    var (f1, a1) := ParseSignature(f, attrs);
    var (f2, a2) := ParseCode(f1, a1, parseCode);
    var (f3, a3) := ParseInvisibleAnnotations(f2, a2);
    var (f4, a4) := ParseVisibleAnnotations(f3, a3);
    var (f5, a5) := ParseExceptions(f4, a4);
    var (f6, a6) := ParseAnnotationDefault(f5, a5);
    ParseDeprecated(f6, a6)
  }

  /** No name occurs twice. */
  ghost predicate Distinct(names: seq<string>) {
    forall i, j :: 0 <= i < j < |names| ==> names[i] != names[j]
  }

  lemma NamesDistinct()
    ensures Distinct(MethodAttributeNames)
  {
    assert ExceptionsName[0] != DeprecatedName[0];
  }

  /** The lists `Parse` goes through: `Stage(attrs, names, k)` is the list after the
      first `k` names were taken out, one after the other. */
  function Stage(attrs: seq<AttributeNode>, names: seq<string>, k: nat): seq<AttributeNode>
    requires k <= |names|
  {
    if k == 0 then attrs else TakeAttribute(Stage(attrs, names, k - 1), names[k - 1]).0
  }

  /** A name is looked up in a list from which only other names have been taken out, so
      each name finds the first attribute of its name in the original list. */
  lemma {:induction false} StageWithName(attrs: seq<AttributeNode>, names: seq<string>, k: nat, n: string)
    requires k <= |names| && Distinct(names)
    ensures WithName(Stage(attrs, names, k), n) ==
      (if n in names[..k] then Drop1(WithName(attrs, n)) else WithName(attrs, n))
  {
    if k > 0 {
      var prev := Stage(attrs, names, k - 1);
      var cur := Stage(attrs, names, k);
      assert cur == TakeAttribute(prev, names[k - 1]).0;
      StageWithName(attrs, names, k - 1, n);
      if n == names[k - 1] {
        assert n !in names[..k - 1];
        assert WithName(prev, n) == WithName(attrs, n);
        TakeAttributeFirst(prev, n);
        assert names[..k][k - 1] == n;
      } else {
        TakeAttributeOthers(prev, names[k - 1], n);
        assert WithName(cur, n) == WithName(prev, n);
        assert names[..k] == names[..k - 1] + [names[k - 1]];
      }
    }
  }

  /** The attributes left keep their order. */
  lemma {:induction false} StageKeepsOrder(attrs: seq<AttributeNode>, names: seq<string>, k: nat)
    requires k <= |names|
    ensures Subsequence(Stage(attrs, names, k), attrs)
  {
    if k == 0 {
      SubsequenceOfItself(attrs);
    } else {
      var prev := Stage(attrs, names, k - 1);
      StageKeepsOrder(attrs, names, k - 1);
      TakeAttributeKeepsOrder(prev, names[k - 1]);
      SubsequenceTransitive(Stage(attrs, names, k), prev, attrs);
    }
  }

  /** Name `k` finds the first attribute of that name in the original list. */
  lemma StageFirst(attrs: seq<AttributeNode>, names: seq<string>, k: nat)
    requires k < |names| && Distinct(names)
    ensures TakeAttribute(Stage(attrs, names, k), names[k]).1 == First(WithName(attrs, names[k]))
  {
    StageWithName(attrs, names, k, names[k]);
    assert names[k] !in names[..k];
    TakeAttributeFirst(Stage(attrs, names, k), names[k]);
  }

  /** The lists `Parse` leaves after each of its blocks are the stages of the seven names. */
  lemma ParsedRest(f: MethodFields, attrs: seq<AttributeNode>, parseCode: CodeAttribute -> InstructionList)
    ensures Parsed(f, attrs, parseCode).1 == Stage(attrs, MethodAttributeNames, 7)
  {
    var names := MethodAttributeNames;
    var (f1, a1) := ParseSignature(f, attrs);
    var (f2, a2) := ParseCode(f1, a1, parseCode);
    var (f3, a3) := ParseInvisibleAnnotations(f2, a2);
    var (f4, a4) := ParseVisibleAnnotations(f3, a3);
    var (f5, a5) := ParseExceptions(f4, a4);
    var (f6, a6) := ParseAnnotationDefault(f5, a5);
    assert a1 == Stage(attrs, names, 1);
    assert a2 == Stage(attrs, names, 2);
    assert a3 == Stage(attrs, names, 3);
    assert a4 == Stage(attrs, names, 4);
    assert a5 == Stage(attrs, names, 5);
    assert a6 == Stage(attrs, names, 6);
  }

  // Every field `Parse` assigns comes from the first attribute of its name in the list
  // before the call, as if it were the only one looked up.

  /** The signature is the value of the first Signature attribute when its payload is a
      Signature attribute, and null otherwise. */
  lemma ParsedSignature(f: MethodFields, attrs: seq<AttributeNode>, parseCode: CodeAttribute -> InstructionList)
    ensures Parsed(f, attrs, parseCode).0.signature == SignatureOf(First(WithName(attrs, SignatureName)))
  {
    var names := MethodAttributeNames;
    var (f1, a1) := ParseSignature(f, attrs);
    var (f2, a2) := ParseCode(f1, a1, parseCode);
    var (f3, a3) := ParseInvisibleAnnotations(f2, a2);
    var (f4, a4) := ParseVisibleAnnotations(f3, a3);
    var (f5, a5) := ParseExceptions(f4, a4);
    var (f6, a6) := ParseAnnotationDefault(f5, a5);
    NamesDistinct();
    StageFirst(attrs, names, 0);
  }

  /** The instructions are parsed from the first Code attribute when its payload is a Code
      attribute, and kept otherwise. */
  lemma ParsedInstructions(f: MethodFields, attrs: seq<AttributeNode>, parseCode: CodeAttribute -> InstructionList)
    ensures Parsed(f, attrs, parseCode).0.instructions == CodeOf(First(WithName(attrs, CodeName)), f.instructions, parseCode)
  {
    var names := MethodAttributeNames;
    var (f1, a1) := ParseSignature(f, attrs);
    var (f2, a2) := ParseCode(f1, a1, parseCode);
    var (f3, a3) := ParseInvisibleAnnotations(f2, a2);
    var (f4, a4) := ParseVisibleAnnotations(f3, a3);
    var (f5, a5) := ParseExceptions(f4, a4);
    var (f6, a6) := ParseAnnotationDefault(f5, a5);
    NamesDistinct();
    assert a1 == Stage(attrs, names, 1);
    StageFirst(attrs, names, 1);
  }

  /** The invisible annotations come from the first RuntimeInvisibleAnnotations attribute,
      null when its payload is of another kind, and are kept when there is none. */
  lemma ParsedInvisibleAnnotations(f: MethodFields, attrs: seq<AttributeNode>, parseCode: CodeAttribute -> InstructionList)
    ensures Parsed(f, attrs, parseCode).0.invisibleAnnotations ==
      (var a := First(WithName(attrs, InvisibleAnnotationsName)); if a.Some? then InvisibleOf(a.value) else f.invisibleAnnotations)
  {
    var names := MethodAttributeNames;
    var (f1, a1) := ParseSignature(f, attrs);
    var (f2, a2) := ParseCode(f1, a1, parseCode);
    var (f3, a3) := ParseInvisibleAnnotations(f2, a2);
    var (f4, a4) := ParseVisibleAnnotations(f3, a3);
    var (f5, a5) := ParseExceptions(f4, a4);
    var (f6, a6) := ParseAnnotationDefault(f5, a5);
    NamesDistinct();
    assert a1 == Stage(attrs, names, 1);
    assert a2 == Stage(attrs, names, 2);
    StageFirst(attrs, names, 2);
  }

  /** The visible annotations come from the first RuntimeVisibleAnnotations attribute,
      null when its payload is of another kind, and are kept when there is none. */
  lemma ParsedVisibleAnnotations(f: MethodFields, attrs: seq<AttributeNode>, parseCode: CodeAttribute -> InstructionList)
    ensures Parsed(f, attrs, parseCode).0.visibleAnnotations ==
      (var a := First(WithName(attrs, VisibleAnnotationsName)); if a.Some? then VisibleOf(a.value) else f.visibleAnnotations)
  {
    var names := MethodAttributeNames;
    var (f1, a1) := ParseSignature(f, attrs);
    var (f2, a2) := ParseCode(f1, a1, parseCode);
    var (f3, a3) := ParseInvisibleAnnotations(f2, a2);
    var (f4, a4) := ParseVisibleAnnotations(f3, a3);
    var (f5, a5) := ParseExceptions(f4, a4);
    var (f6, a6) := ParseAnnotationDefault(f5, a5);
    NamesDistinct();
    assert a1 == Stage(attrs, names, 1);
    assert a2 == Stage(attrs, names, 2);
    assert a3 == Stage(attrs, names, 3);
    StageFirst(attrs, names, 3);
  }

  /** The exception table comes from the first Exceptions attribute, null when its payload
      is of another kind, and is kept when there is none. */
  lemma ParsedThrows(f: MethodFields, attrs: seq<AttributeNode>, parseCode: CodeAttribute -> InstructionList)
    ensures Parsed(f, attrs, parseCode).0.throws ==
      (var a := First(WithName(attrs, ExceptionsName)); if a.Some? then ExceptionsOf(a.value) else f.throws)
  {
    var names := MethodAttributeNames;
    var (f1, a1) := ParseSignature(f, attrs);
    var (f2, a2) := ParseCode(f1, a1, parseCode);
    var (f3, a3) := ParseInvisibleAnnotations(f2, a2);
    var (f4, a4) := ParseVisibleAnnotations(f3, a3);
    var (f5, a5) := ParseExceptions(f4, a4);
    var (f6, a6) := ParseAnnotationDefault(f5, a5);
    NamesDistinct();
    assert a1 == Stage(attrs, names, 1);
    assert a2 == Stage(attrs, names, 2);
    assert a3 == Stage(attrs, names, 3);
    assert a4 == Stage(attrs, names, 4);
    StageFirst(attrs, names, 4);
  }

  /** The default value comes from the first AnnotationDefault attribute, and is null when
      there is none or its payload is of another kind. */
  lemma ParsedAnnotationDefault(f: MethodFields, attrs: seq<AttributeNode>, parseCode: CodeAttribute -> InstructionList)
    ensures Parsed(f, attrs, parseCode).0.annotationDefaultValue == AnnotationDefaultOf(First(WithName(attrs, AnnotationDefaultName)))
  {
    var names := MethodAttributeNames;
    var (f1, a1) := ParseSignature(f, attrs);
    var (f2, a2) := ParseCode(f1, a1, parseCode);
    var (f3, a3) := ParseInvisibleAnnotations(f2, a2);
    var (f4, a4) := ParseVisibleAnnotations(f3, a3);
    var (f5, a5) := ParseExceptions(f4, a4);
    var (f6, a6) := ParseAnnotationDefault(f5, a5);
    NamesDistinct();
    assert a1 == Stage(attrs, names, 1);
    assert a2 == Stage(attrs, names, 2);
    assert a3 == Stage(attrs, names, 3);
    assert a4 == Stage(attrs, names, 4);
    assert a5 == Stage(attrs, names, 5);
    StageFirst(attrs, names, 5);
  }

  /** The method is deprecated exactly when the first Deprecated attribute has a parsed
      payload. */
  lemma ParsedDeprecated(f: MethodFields, attrs: seq<AttributeNode>, parseCode: CodeAttribute -> InstructionList)
    ensures Parsed(f, attrs, parseCode).0.isDeprecated <==>
      WithName(attrs, DeprecatedName) != [] && WithName(attrs, DeprecatedName)[0].parsed.Some?
  {
    var names := MethodAttributeNames;
    var (f1, a1) := ParseSignature(f, attrs);
    var (f2, a2) := ParseCode(f1, a1, parseCode);
    var (f3, a3) := ParseInvisibleAnnotations(f2, a2);
    var (f4, a4) := ParseVisibleAnnotations(f3, a3);
    var (f5, a5) := ParseExceptions(f4, a4);
    var (f6, a6) := ParseAnnotationDefault(f5, a5);
    NamesDistinct();
    assert a1 == Stage(attrs, names, 1);
    assert a2 == Stage(attrs, names, 2);
    assert a3 == Stage(attrs, names, 3);
    assert a4 == Stage(attrs, names, 4);
    assert a5 == Stage(attrs, names, 5);
    assert a6 == Stage(attrs, names, 6);
    StageFirst(attrs, names, 6);
  }

  /** `Parse` takes out the first attribute of each of the seven names, if there is one,
      and leaves every other attribute where it was, in order. */
  lemma ParseRemovesFirstOfEach(f: MethodFields, attrs: seq<AttributeNode>, parseCode: CodeAttribute -> InstructionList, n: string)
    ensures var rest := Parsed(f, attrs, parseCode).1;
      && Subsequence(rest, attrs)
      && (n in MethodAttributeNames ==> WithName(rest, n) == Drop1(WithName(attrs, n)))
      && (n !in MethodAttributeNames ==> WithName(rest, n) == WithName(attrs, n))
  {
    ParsedRest(f, attrs, parseCode);
    NamesDistinct();
    StageWithName(attrs, MethodAttributeNames, 7, n);
    StageKeepsOrder(attrs, MethodAttributeNames, 7);
    assert MethodAttributeNames[..7] == MethodAttributeNames;
  }

  // ---------------------------------------------------------------- Save

  /** One block of `Save`: nothing to write, an attribute to append after the duplicate
      check, or the `NullReferenceException` of `.Count` on a null list. */
  datatype SaveStep = Skip | Add(attribute: AttributeNode) | ThrowNull

  // The seven blocks of `Save`, for the fields `f`.

  function SignatureStep(f: MethodFields): SaveStep {
    if f.signature.Some? then Add(AttributeNode(SignatureName, Some(SignatureAttribute(f.signature)))) else Skip
  }

  /** A Code attribute is written for a method that is neither abstract nor native and
      has an instruction list. */
  predicate CodeWritten(f: MethodFields) {
    Abstract !in f.access && Native !in f.access && f.instructions.Some?
  }

  /** `code` is what `SaveCodeAttribute` builds. */
  function CodeStep(f: MethodFields, code: CodeAttribute): SaveStep {
    if CodeWritten(f) then Add(AttributeNode(CodeName, Some(Code(code)))) else Skip
  }

  function InvisibleAnnotationsStep(f: MethodFields): SaveStep {
    if f.invisibleAnnotations.None? then ThrowNull
    else if |f.invisibleAnnotations.value| > 0
    then Add(AttributeNode(InvisibleAnnotationsName, Some(RuntimeInvisibleAnnotationsAttribute(f.invisibleAnnotations))))
    else Skip
  }

  function VisibleAnnotationsStep(f: MethodFields): SaveStep {
    if f.visibleAnnotations.None? then ThrowNull
    else if |f.visibleAnnotations.value| > 0
    then Add(AttributeNode(VisibleAnnotationsName, Some(RuntimeVisibleAnnotationsAttribute(f.visibleAnnotations))))
    else Skip
  }

  function ExceptionsStep(f: MethodFields): SaveStep {
    if f.throws.None? then ThrowNull
    else if |f.throws.value| > 0 then Add(AttributeNode(ExceptionsName, Some(ExceptionsAttribute(f.throws))))
    else Skip
  }

  function AnnotationDefaultStep(f: MethodFields): SaveStep {
    if f.annotationDefaultValue.Some?
    then Add(AttributeNode(AnnotationDefaultName, Some(AnnotationDefaultAttribute(f.annotationDefaultValue))))
    else Skip
  }

  function DeprecatedStep(f: MethodFields): SaveStep {
    if f.isDeprecated then Add(AttributeNode(DeprecatedName, Some(DeprecatedAttribute))) else Skip
  }

  /** The seven blocks in their order: block i can only add an attribute named
      `MethodAttributeNames[i]`, and only the two annotation blocks and the Exceptions
      block can throw on a null list. */
  function Plan(f: MethodFields, code: CodeAttribute): (p: seq<SaveStep>)
    ensures |p| == 7
    ensures forall i :: 0 <= i < 7 && p[i].Add? ==> p[i].attribute.name == MethodAttributeNames[i]
    ensures forall i :: 0 <= i < 7 && p[i].ThrowNull? ==> 2 <= i <= 4
  {
    [SignatureStep(f), CodeStep(f, code), InvisibleAnnotationsStep(f), VisibleAnnotationsStep(f),
     ExceptionsStep(f), AnnotationDefaultStep(f), DeprecatedStep(f)]
  }

  /** One block of `Save`: an attribute of the same name already present is an error; otherwise the attribute is appended. */
  function AppendChecked(attrs: seq<AttributeNode>, a: AttributeNode): (res: (seq<AttributeNode>, Result<()>))
    ensures res.1.Err? <==> HasName(attrs, a.name)
    ensures res.1.Err? ==> res == (attrs, Err(DuplicateAttribute(a.name)))
    ensures res.1.Ok? ==> res.0 == attrs + [a]
  {
    if HasName(attrs, a.name) then (attrs, Err(DuplicateAttribute(a.name))) else (attrs + [a], Ok(()))
  }

  /** One block on the list: the new list and whether it threw. */
  function Block(attrs: seq<AttributeNode>, step: SaveStep): (res: (seq<AttributeNode>, Result<()>))
    ensures |attrs| <= |res.0| && res.0[..|attrs|] == attrs
  {
    match step
    case Skip => (attrs, Ok(()))
    case ThrowNull => (attrs, Err(NullReference))
    case Add(a) => AppendChecked(attrs, a)
  }

  /** One block, run on the list and the outcome so far: once an exception is thrown,
      nothing else happens. */
  function Then(st: (seq<AttributeNode>, Result<()>), step: SaveStep): (res: (seq<AttributeNode>, Result<()>))
    ensures |st.0| <= |res.0| && res.0[..|st.0|] == st.0
  {
    if st.1.Err? then st else Block(st.0, step)
  }

  /** `Save`: the new list, and whether an exception ended it; what was appended before
      the exception stays. */
  function SaveAttributes(f: MethodFields, code: CodeAttribute, attrs: seq<AttributeNode>): (res: (seq<AttributeNode>, Result<()>))
  {
    var s1 := Block(attrs, SignatureStep(f));
    if s1.1.Err? then s1 else
    var s2 := Block(s1.0, CodeStep(f, code));
    if s2.1.Err? then s2 else
    var s3 := Block(s2.0, InvisibleAnnotationsStep(f));
    if s3.1.Err? then s3 else
    var s4 := Block(s3.0, VisibleAnnotationsStep(f));
    if s4.1.Err? then s4 else
    var s5 := Block(s4.0, ExceptionsStep(f));
    if s5.1.Err? then s5 else
    var s6 := Block(s5.0, AnnotationDefaultStep(f));
    if s6.1.Err? then s6 else
    Block(s6.0, DeprecatedStep(f))
  }

  /** Any list of blocks, run in order. */
  function Run(st: (seq<AttributeNode>, Result<()>), plan: seq<SaveStep>): (res: (seq<AttributeNode>, Result<()>))
    ensures |st.0| <= |res.0| && res.0[..|st.0|] == st.0
    decreases plan
  {
    if plan == [] then st
    else
      var next := Then(st, plan[0]);
      var res := Run(next, plan[1..]);
      assert res.0[..|st.0|] == res.0[..|next.0|][..|st.0|];
      res
  }

  lemma RunStep(st: (seq<AttributeNode>, Result<()>), plan: seq<SaveStep>, k: nat)
    requires k < |plan|
    ensures Run(st, plan[k..]) == Run(Then(st, plan[k]), plan[k + 1..])
  {
    assert plan[k..][0] == plan[k] && plan[k..][1..] == plan[k + 1..];
  }

  lemma {:induction false} RunAfterThrow(st: (seq<AttributeNode>, Result<()>), plan: seq<SaveStep>)
    requires st.1.Err?
    ensures Run(st, plan) == st
    decreases plan
  {
    if plan != [] {
      RunAfterThrow(st, plan[1..]);
    }
  }

  /** `Save` runs its plan. */
  lemma SaveRunsPlan(f: MethodFields, code: CodeAttribute, attrs: seq<AttributeNode>)
    ensures SaveAttributes(f, code, attrs) == Run((attrs, Ok(())), Plan(f, code))
  {
    var p := Plan(f, code);
    var s0 := (attrs, Ok(()));
    var s1 := Then(s0, p[0]);
    var s2 := Then(s1, p[1]);
    var s3 := Then(s2, p[2]);
    var s4 := Then(s3, p[3]);
    var s5 := Then(s4, p[4]);
    var s6 := Then(s5, p[5]);
    var s7 := Then(s6, p[6]);
    assert p[0..] == p;
    RunStep(s0, p, 0);
    RunStep(s1, p, 1);
    RunStep(s2, p, 2);
    RunStep(s3, p, 3);
    RunStep(s4, p, 4);
    RunStep(s5, p, 5);
    RunStep(s6, p, 6);
    assert p[7..] == [];
    assert SaveAttributes(f, code, attrs) == s7;
  }

  /** The attribute a block appends, if any. */
  function StepAdded(step: SaveStep): seq<AttributeNode> {
    if step.Add? then [step.attribute] else []
  }

  /** The attributes of the blocks that append one, in order. */
  function Added(plan: seq<SaveStep>): seq<AttributeNode>
    decreases plan
  {
    if plan == [] then [] else StepAdded(plan[0]) + Added(plan[1..])
  }

  /** Block `i` of the plan, when it appends, appends an attribute named `names[i]`. */
  ghost predicate NamedAfter(plan: seq<SaveStep>, names: seq<string>) {
    && |plan| == |names|
    && Distinct(names)
    && forall i :: 0 <= i < |plan| && plan[i].Add? ==> plan[i].attribute.name == names[i]
  }

  lemma NamedAfterTail(plan: seq<SaveStep>, names: seq<string>)
    requires plan != [] && NamedAfter(plan, names)
    ensures NamedAfter(plan[1..], names[1..])
    ensures names[0] !in names[1..]
  {
    forall i | 0 <= i < |plan[1..]| && plan[1..][i].Add?
      ensures plan[1..][i].attribute.name == names[1..][i]
    {
      assert plan[1..][i] == plan[i + 1];
    }
    forall i, j | 0 <= i < j < |names[1..]|
      ensures names[1..][i] != names[1..][j]
    {
      assert names[1..][i] == names[i + 1] && names[1..][j] == names[j + 1];
    }
    forall i | 0 <= i < |names[1..]|
      ensures names[1..][i] != names[0]
    {
      assert names[1..][i] == names[i + 1];
    }
  }

  lemma PlanNamed(f: MethodFields, code: CodeAttribute)
    ensures NamedAfter(Plan(f, code), MethodAttributeNames)
  {
    NamesDistinct();
  }

  /** Without an exception, `Run` appends exactly the attributes of its `Add` blocks, in order. */
  lemma {:induction false} RunAppendsAdded(st: (seq<AttributeNode>, Result<()>), plan: seq<SaveStep>)
    requires st.1.Ok? && Run(st, plan).1.Ok?
    ensures Run(st, plan).0 == st.0 + Added(plan)
    decreases plan
  {
    if plan == [] {
      assert st.0 + [] == st.0;
    } else {
      var next := Then(st, plan[0]);
      match plan[0]
      case ThrowNull =>
        RunAfterThrow(next, plan[1..]);
      case Skip =>
        RunAppendsAdded(next, plan[1..]);
        assert Added(plan) == [] + Added(plan[1..]);
      case Add(a) =>
        if next.1.Err? {
          RunAfterThrow(next, plan[1..]);
        } else {
          RunAppendsAdded(next, plan[1..]);
          assert st.0 + [a] + Added(plan[1..]) == st.0 + ([a] + Added(plan[1..]));
        }
    }
  }

  /** The only exceptions are the null list and a duplicate of a name already in the list
      the run started from. */
  lemma {:induction false} RunErrors(st: (seq<AttributeNode>, Result<()>), plan: seq<SaveStep>, names: seq<string>)
    requires st.1.Ok? && NamedAfter(plan, names)
    ensures var r := Run(st, plan).1;
      r.Err? ==>
        || (r.error == NullReference && exists i :: 0 <= i < |plan| && plan[i].ThrowNull?)
        || (r.error.DuplicateAttribute? && r.error.name in names && HasName(st.0, r.error.name))
    decreases plan
  {
    if plan != [] {
      var next := Then(st, plan[0]);
      if next.1.Err? {
        RunAfterThrow(next, plan[1..]);
      } else {
        NamedAfterTail(plan, names);
        RunErrors(next, plan[1..], names[1..]);
        var r := Run(st, plan).1;
        if r.Err? && r.error == NullReference {
          var i :| 0 <= i < |plan[1..]| && plan[1..][i].ThrowNull?;
          assert plan[i + 1].ThrowNull?;
        }
        if r.Err? && r.error.DuplicateAttribute? && plan[0].Add? {
          var n := r.error.name;
          var i :| 0 <= i < |next.0| && next.0[i].name == n;
          assert next.0 == st.0 + [plan[0].attribute];
          assert n != plan[0].attribute.name;
          assert i < |st.0| && st.0[i].name == n;
        }
      }
    }
  }

  /** With nothing null and none of the appended names already present, the run succeeds. */
  lemma {:induction false} RunSucceeds(st: (seq<AttributeNode>, Result<()>), plan: seq<SaveStep>, names: seq<string>)
    requires st.1.Ok? && NamedAfter(plan, names)
    requires forall i :: 0 <= i < |plan| ==> !plan[i].ThrowNull?
    requires forall i :: 0 <= i < |plan| && plan[i].Add? ==> !HasName(st.0, plan[i].attribute.name)
    ensures Run(st, plan).1.Ok?
    decreases plan
  {
    if plan != [] {
      var next := Then(st, plan[0]);
      NamedAfterTail(plan, names);
      forall i | 0 <= i < |plan[1..]| && plan[1..][i].Add?
        ensures !HasName(next.0, plan[1..][i].attribute.name)
      {
        assert plan[1..][i] == plan[i + 1];
        if plan[0].Add? {
          assert next.0 == st.0 + [plan[0].attribute];
          assert plan[i + 1].attribute.name == names[1..][i] != names[0];
        }
      }
      assert forall i :: 0 <= i < |plan[1..]| ==> !plan[1..][i].ThrowNull? by {
        forall i | 0 <= i < |plan[1..]|
          ensures !plan[1..][i].ThrowNull?
        {
          assert plan[1..][i] == plan[i + 1];
        }
      }
      RunSucceeds(next, plan[1..], names[1..]);
    }
  }

  /** The names of a list of attributes. */
  function NamesOf(attrs: seq<AttributeNode>): (r: seq<string>)
    ensures |r| == |attrs|
  {
    if attrs == [] then [] else [attrs[0].name] + NamesOf(attrs[1..])
  }

  /** The appended names come in the order of the plan's names, each at most once. */
  lemma {:induction false} AddedInOrder(plan: seq<SaveStep>, names: seq<string>)
    requires NamedAfter(plan, names)
    ensures Subsequence(NamesOf(Added(plan)), names)
    decreases plan
  {
    if plan != [] {
      var tail := plan[1..];
      NamedAfterTail(plan, names);
      AddedInOrder(tail, names[1..]);
      var rest := NamesOf(Added(tail));
      if plan[0].Add? {
        assert Added(plan) == [plan[0].attribute] + Added(tail);
        assert NamesOf(Added(plan)) == [names[0]] + rest;
      } else {
        assert Added(plan) == Added(tail);
      }
    }
  }

  /** The old list is a prefix of the new one, whether `Save` succeeds or not. */
  lemma SaveKeepsOldAttributes(f: MethodFields, code: CodeAttribute, attrs: seq<AttributeNode>)
    ensures var res := SaveAttributes(f, code, attrs).0;
      |attrs| <= |res| && res[..|attrs|] == attrs
  {
    SaveRunsPlan(f, code, attrs);
  }

  /** A successful `Save` appends attributes of the predefined names only, each at most
      once, in the order Signature, Code, RuntimeInvisibleAnnotations,
      RuntimeVisibleAnnotations, Exceptions, AnnotationDefault, Deprecated. */
  lemma SaveOrder(f: MethodFields, code: CodeAttribute, attrs: seq<AttributeNode>)
    requires SaveAttributes(f, code, attrs).1.Ok?
    ensures Subsequence(NamesOf(SaveAttributes(f, code, attrs).0[|attrs|..]), MethodAttributeNames)
  {
    var plan := Plan(f, code);
    SaveRunsPlan(f, code, attrs);
    RunAppendsAdded((attrs, Ok(())), plan);
    assert SaveAttributes(f, code, attrs).0[|attrs|..] == Added(plan);
    PlanNamed(f, code);
    AddedInOrder(plan, MethodAttributeNames);
  }

  /** `Save` throws only for a null annotation list or exception table, or for a
      predefined attribute that the list already held. */
  lemma SaveErrors(f: MethodFields, code: CodeAttribute, attrs: seq<AttributeNode>)
    ensures var r := SaveAttributes(f, code, attrs).1;
      r.Err? ==>
        || (r.error == NullReference && (f.invisibleAnnotations.None? || f.visibleAnnotations.None? || f.throws.None?))
        || (r.error.DuplicateAttribute? && r.error.name in MethodAttributeNames && HasName(attrs, r.error.name))
  {
    SaveRunsPlan(f, code, attrs);
    PlanNamed(f, code);
    RunErrors((attrs, Ok(())), Plan(f, code), MethodAttributeNames);
  }

  /** With no null list and none of the predefined names in the list, `Save` succeeds. */
  lemma SaveSucceeds(f: MethodFields, code: CodeAttribute, attrs: seq<AttributeNode>)
    requires f.invisibleAnnotations.Some? && f.visibleAnnotations.Some? && f.throws.Some?
    requires forall n :: n in MethodAttributeNames ==> !HasName(attrs, n)
    ensures SaveAttributes(f, code, attrs).1.Ok?
  {
    SaveRunsPlan(f, code, attrs);
    PlanNamed(f, code);
    RunSucceeds((attrs, Ok(())), Plan(f, code), MethodAttributeNames);
  }

  /** Singleton list when `c`. */
  function When(c: bool, a: AttributeNode): seq<AttributeNode> {
    if c then [a] else []
  }

  /** A block that leaves no exception appends what it adds. */
  lemma ThenAppends(st: (seq<AttributeNode>, Result<()>), step: SaveStep)
    requires Then(st, step).1.Ok?
    ensures st.1.Ok? && !step.ThrowNull? && Then(st, step).0 == st.0 + StepAdded(step)
  {
    if step.Skip? {
      assert st.0 + [] == st.0;
    }
  }

  /** A successful `Save` appends exactly the attributes its fields call for: Signature
      when there is one, Code when the method is neither abstract nor native and has
      instructions, each annotation list and the exception table when non-empty, the
      default value when there is one, Deprecated when flagged; and none of the lists
      it counts is null. */
  lemma SaveAppends(f: MethodFields, code: CodeAttribute, attrs: seq<AttributeNode>)
    requires SaveAttributes(f, code, attrs).1.Ok?
    ensures f.invisibleAnnotations.Some? && f.visibleAnnotations.Some? && f.throws.Some?
    ensures SaveAttributes(f, code, attrs).0 == attrs
      + When(f.signature.Some?, AttributeNode(SignatureName, Some(SignatureAttribute(f.signature))))
      + When(CodeWritten(f), AttributeNode(CodeName, Some(Code(code))))
      + When(|f.invisibleAnnotations.value| > 0,
             AttributeNode(InvisibleAnnotationsName, Some(RuntimeInvisibleAnnotationsAttribute(f.invisibleAnnotations))))
      + When(|f.visibleAnnotations.value| > 0,
             AttributeNode(VisibleAnnotationsName, Some(RuntimeVisibleAnnotationsAttribute(f.visibleAnnotations))))
      + When(|f.throws.value| > 0, AttributeNode(ExceptionsName, Some(ExceptionsAttribute(f.throws))))
      + When(f.annotationDefaultValue.Some?,
             AttributeNode(AnnotationDefaultName, Some(AnnotationDefaultAttribute(f.annotationDefaultValue))))
      + When(f.isDeprecated, AttributeNode(DeprecatedName, Some(DeprecatedAttribute)))
  {
    var s1 := Then((attrs, Ok(())), SignatureStep(f));
    var s2 := Then(s1, CodeStep(f, code));
    var s3 := Then(s2, InvisibleAnnotationsStep(f));
    var s4 := Then(s3, VisibleAnnotationsStep(f));
    var s5 := Then(s4, ExceptionsStep(f));
    var s6 := Then(s5, AnnotationDefaultStep(f));
    var s7 := Then(s6, DeprecatedStep(f));
    assert SaveAttributes(f, code, attrs) == s7;
    ThenAppends(s6, DeprecatedStep(f));
    ThenAppends(s5, AnnotationDefaultStep(f));
    ThenAppends(s4, ExceptionsStep(f));
    ThenAppends(s3, VisibleAnnotationsStep(f));
    ThenAppends(s2, InvisibleAnnotationsStep(f));
    ThenAppends(s1, CodeStep(f, code));
    ThenAppends((attrs, Ok(())), SignatureStep(f));
  }

  // ---------------------------------------------------------------- MethodNode

  /** `MethodNode`, with the fields `Parse` and `Save` work on. */
  class MethodNode {
    var access: set<MethodAccess>
    var attributes: seq<AttributeNode>
    var signature: Option<string>
    var instructions: Option<InstructionList>
    var invisibleAnnotations: Option<seq<Annotation>>
    var visibleAnnotations: Option<seq<Annotation>>
    var isDeprecated: bool
    var throws: Option<seq<ClassName>>
    var annotationDefaultValue: Option<ElementValue>

    /** A new method: no attributes, an empty instruction list, empty annotation lists
        and exception table. */
    constructor ()
      ensures attributes == []
      ensures Fields() == MethodFields({}, None, Some(InstructionList([])), Some([]), Some([]), false, Some([]), None)
    {
      access := {};
      attributes := [];
      signature := None;
      instructions := Some(InstructionList([]));
      invisibleAnnotations := Some([]);
      visibleAnnotations := Some([]);
      isDeprecated := false;
      throws := Some([]);
      annotationDefaultValue := None;
    }

    function Fields(): MethodFields
      reads this
    {
      MethodFields(access, signature, instructions, invisibleAnnotations, visibleAnnotations,
                   isDeprecated, throws, annotationDefaultValue)
    }

    method GetAttribute(name: string) returns (a: Option<AttributeNode>)
      modifies this
      ensures (attributes, a) == TakeAttribute(old(attributes), name)
      ensures Fields() == old(Fields())
    {
      var (rest, taken) := TakeAttribute(attributes, name);
      if taken.Some? {
        attributes := rest;
      }
      a := taken;
    }

    /** `Parse`; `parseCode` stands for `InstructionListConverter.ParseCodeAttribute`. */
    method Parse(parseCode: CodeAttribute -> InstructionList)
      modifies this
      ensures (Fields(), attributes) == Parsed(old(Fields()), old(attributes), parseCode)
    {
      ParseSignatureBlock();
      ParseCodeBlock(parseCode);
      ParseInvisibleAnnotationsBlock();
      ParseVisibleAnnotationsBlock();
      ParseExceptionsBlock();
      ParseAnnotationDefaultBlock();
      ParseDeprecatedBlock();
    }

    method ParseSignatureBlock()
      modifies this
      ensures (Fields(), attributes) == ParseSignature(old(Fields()), old(attributes))
    {
      var a := GetAttribute(SignatureName);
      signature := SignatureOf(a);
    }

    method ParseCodeBlock(parseCode: CodeAttribute -> InstructionList)
      modifies this
      ensures (Fields(), attributes) == ParseCode(old(Fields()), old(attributes), parseCode)
    {
      var a := GetAttribute(CodeName);
      if a.Some? && a.value.parsed.Some? && a.value.parsed.value.Code? {
        instructions := Some(parseCode(a.value.parsed.value.code));
      }
    }

    method ParseInvisibleAnnotationsBlock()
      modifies this
      ensures (Fields(), attributes) == ParseInvisibleAnnotations(old(Fields()), old(attributes))
    {
      var a := GetAttribute(InvisibleAnnotationsName);
      if a.Some? {
        invisibleAnnotations := InvisibleOf(a.value);
      }
    }

    method ParseVisibleAnnotationsBlock()
      modifies this
      ensures (Fields(), attributes) == ParseVisibleAnnotations(old(Fields()), old(attributes))
    {
      var a := GetAttribute(VisibleAnnotationsName);
      if a.Some? {
        visibleAnnotations := VisibleOf(a.value);
      }
    }

    method ParseExceptionsBlock()
      modifies this
      ensures (Fields(), attributes) == ParseExceptions(old(Fields()), old(attributes))
    {
      var a := GetAttribute(ExceptionsName);
      if a.Some? {
        throws := ExceptionsOf(a.value);
      }
    }

    method ParseAnnotationDefaultBlock()
      modifies this
      ensures (Fields(), attributes) == ParseAnnotationDefault(old(Fields()), old(attributes))
    {
      var a := GetAttribute(AnnotationDefaultName);
      annotationDefaultValue := AnnotationDefaultOf(a);
    }

    method ParseDeprecatedBlock()
      modifies this
      ensures (Fields(), attributes) == ParseDeprecated(old(Fields()), old(attributes))
    {
      var a := GetAttribute(DeprecatedName);
      isDeprecated := a.Some? && a.value.parsed.Some?;
    }

    /** The duplicate check and `Attributes.Add` of one block. */
    method AddAttribute(a: AttributeNode) returns (r: Result<()>)
      modifies this
      ensures (attributes, r) == AppendChecked(old(attributes), a)
      ensures Fields() == old(Fields())
    {
      if exists i :: 0 <= i < |attributes| && attributes[i].name == a.name {
        r := Err(DuplicateAttribute(a.name));
      } else {
        attributes := attributes + [a];
        r := Ok(());
      }
    }

    /** `Save`; `code` stands for what `InstructionListConverter.SaveCodeAttribute` builds.
        An exception ends it, and the attributes appended before it stay. */
    method Save(code: CodeAttribute) returns (r: Result<()>)
      modifies this
      ensures (attributes, r) == SaveAttributes(old(Fields()), code, old(attributes))
      ensures Fields() == old(Fields())
    {
      r := SaveSignatureBlock();
      if r.Err? { return; }
      r := SaveCodeBlock(code);
      if r.Err? { return; }
      r := SaveInvisibleAnnotationsBlock();
      if r.Err? { return; }
      r := SaveVisibleAnnotationsBlock();
      if r.Err? { return; }
      r := SaveExceptionsBlock();
      if r.Err? { return; }
      r := SaveAnnotationDefaultBlock();
      if r.Err? { return; }
      r := SaveDeprecatedBlock();
    }

    method SaveSignatureBlock() returns (r: Result<()>)
      modifies this
      ensures (attributes, r) == Block(old(attributes), SignatureStep(old(Fields())))
      ensures Fields() == old(Fields())
    {
      r := Ok(());
      if signature.Some? {
        r := AddAttribute(AttributeNode(SignatureName, Some(SignatureAttribute(signature))));
      }
    }

    method SaveCodeBlock(code: CodeAttribute) returns (r: Result<()>)
      modifies this
      ensures (attributes, r) == Block(old(attributes), CodeStep(old(Fields()), code))
      ensures Fields() == old(Fields())
    {
      r := Ok(());
      if Abstract !in access && Native !in access && instructions.Some? {
        r := AddAttribute(AttributeNode(CodeName, Some(Code(code))));
      }
    }

    method SaveInvisibleAnnotationsBlock() returns (r: Result<()>)
      modifies this
      ensures (attributes, r) == Block(old(attributes), InvisibleAnnotationsStep(old(Fields())))
      ensures Fields() == old(Fields())
    {
      r := Ok(());
      if invisibleAnnotations.None? {
        r := Err(NullReference);
      } else if |invisibleAnnotations.value| > 0 {
        r := AddAttribute(AttributeNode(InvisibleAnnotationsName, Some(RuntimeInvisibleAnnotationsAttribute(invisibleAnnotations))));
      }
    }

    method SaveVisibleAnnotationsBlock() returns (r: Result<()>)
      modifies this
      ensures (attributes, r) == Block(old(attributes), VisibleAnnotationsStep(old(Fields())))
      ensures Fields() == old(Fields())
    {
      r := Ok(());
      if visibleAnnotations.None? {
        r := Err(NullReference);
      } else if |visibleAnnotations.value| > 0 {
        r := AddAttribute(AttributeNode(VisibleAnnotationsName, Some(RuntimeVisibleAnnotationsAttribute(visibleAnnotations))));
      }
    }

    method SaveExceptionsBlock() returns (r: Result<()>)
      modifies this
      ensures (attributes, r) == Block(old(attributes), ExceptionsStep(old(Fields())))
      ensures Fields() == old(Fields())
    {
      r := Ok(());
      if throws.None? {
        r := Err(NullReference);
      } else if |throws.value| > 0 {
        r := AddAttribute(AttributeNode(ExceptionsName, Some(ExceptionsAttribute(throws))));
      }
    }

    method SaveAnnotationDefaultBlock() returns (r: Result<()>)
      modifies this
      ensures (attributes, r) == Block(old(attributes), AnnotationDefaultStep(old(Fields())))
      ensures Fields() == old(Fields())
    {
      r := Ok(());
      if annotationDefaultValue.Some? {
        r := AddAttribute(AttributeNode(AnnotationDefaultName, Some(AnnotationDefaultAttribute(annotationDefaultValue))));
      }
    }

    method SaveDeprecatedBlock() returns (r: Result<()>)
      modifies this
      ensures (attributes, r) == Block(old(attributes), DeprecatedStep(old(Fields())))
      ensures Fields() == old(Fields())
    {
      r := Ok(());
      if isDeprecated {
        r := AddAttribute(AttributeNode(DeprecatedName, Some(DeprecatedAttribute)));
      }
    }
  }
}
