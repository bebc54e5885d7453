# java-asm class-file codec, modelled in Dafny

This project models the core of java-asm, a C# library that reads and writes Java class
files. A class file is the binary format of chapter 4 of the Java Virtual Machine
Specification, Java SE 8 edition (the JVMS). The model covers these parts:

- **The constant pool** (`ConstantPools`, `Entries`).
  - It is a class with an entry list and a deduplicating map.
  - `Find` returns 1-based 16-bit indices. A Long or Double takes two slots (section 4.4.5 of the JVMS).
  - `GetEntry` is a checked cast of a slot.
  - `Read` has two phases: it reads every slot, then resolves the references.
  - `Write` emits a count header and skips placeholder slots.
- **The method-handle entry** (`MethodHandles`, section 4.4.8 of the JVMS). This covers its reference kinds,
  how its reference resolves by kind, its three-byte body, its registration in the pool,
  and its equality.
- **The StackMapTable attribute** (`StackMapTables`, section 4.7.4 of the JVMS). This covers verification
  elements, the five frame types, the writer `Save` and the reader `Parse`.
- **The LocalVariableTable attribute** (`LocalVariableTables`, section 4.7.13 of the JVMS). Each record is
  10 bytes, and its name and descriptor are stored in the pool.
- **The RuntimeInvisibleParameterAnnotations attribute** (`ParameterAnnotationsAttributes`,
  section 4.7.19 of the JVMS). It has a one-byte parameter count, then a u16 annotation count per
  parameter.
- **The type-parameter target of a type annotation** (`TypeParameterTargets`, section 4.7.20.1 of
  the JVMS).
- **`ClassName`** (`ClassNames`). This covers the change from internal to dotted form, and equality.
- **The attribute bookkeeping of `MethodNode`** (`MethodNodes`). `Parse` takes the known attributes out of the list.
  `Save` appends them back in a fixed order and refuses duplicates.

Each operation that changes state becomes a Dafny method on a class or with a `modifies`
clause. The source loops become `while` loops with invariants. Each method is proved equal to
a pure specification function over the old state, and the properties of the source are
proved as lemmas about those functions. Exceptions of the C# code become the `Err`
alternatives of `Wrappers.Result`. Null becomes `Option.None` only where the model keeps it:
the name given to `ClassName` and the other object of `ClassName.Equals`, the reference of a
method handle, the name and descriptor of a local-variable record, the chop count of a stack-map
frame, and the optional fields and attribute payloads of `MethodNode`. Every other reference
the source dereferences is always present in the model (see "## Left out").

A stream is modelled in one of two ways. `Bytes.NextByteAtPosition` and `Bytes.NextU16AtPosition`
prove the two views agree.

- **Position style** (the constant pool and the method-handle body): the data plus a cursor.
- **Remainder style** (the attribute codecs): the input not yet read. A reader returns the value and what is left.

The code the core calls but does not contain is passed in as function parameters:

- entry bodies: `BodyReader` and `BodyWriter`
- annotation readers and writers
- descriptor rendering and parsing
- the parsed Code attribute

## Model

| member | source | states |
|---|---|---|
| Bytes.EncodeU16 | JavaAsm/CustomAttributes/LocalVariableTableAttribute.cs:36-42 | the big-endian u16 writer emits two bytes whose value, high byte first, is the input |
| Bytes.DecodeU16 | JavaAsm/CustomAttributes/LocalVariableTableAttribute.cs:60-64 | the u16 reader inverts the writer: re-encoding the value read gives back the two bytes |
| Bytes.DecodeEncodeU16 | JavaAsm/CustomAttributes/LocalVariableTableAttribute.cs:36-64 | decoding an encoded u16 gives the original value |
| Bytes.ReadU16At | JavaAsm/IO/ConstantPool.cs:45 | where the encoding of x sits at pos, the positional u16 reader returns x and pos + 2 |
| Bytes.NextBytePrefix | JavaAsm/CustomAttributes/StackMapTableAttribute.cs:217 | a byte reader on b followed by rest returns b and exactly rest |
| Bytes.NextU16Prefix | JavaAsm/CustomAttributes/StackMapTableAttribute.cs:212 | a u16 reader on an encoded x followed by rest returns x and exactly rest |
| Bytes.NextRawByte | JavaAsm/CustomAttributes/TypeAnnotation/TypeParameterTarget.cs:19 | the raw stream byte is -1 (end of stream) or a byte value 0..255 |
| Bytes.NextByteAtPosition | JavaAsm/IO/ConstantPool.cs:48 | the positional and remainder readers of a byte agree: same success, same value, same rest |
| Bytes.NextU16AtPosition | JavaAsm/IO/ConstantPool.cs:45 | the positional and remainder readers of a u16 agree: same success, same value, same rest |
| Bytes.NextU16Within | JavaAsm/CustomAttributes/LocalVariableTableAttribute.cs:60-64 | the u16 at offset k of a record is read iff two bytes remain there, with that value and rest |
| ClassNames.NewClassName | JavaAsm/ClassName.cs:9-12 | construction succeeds iff the name is non-null, keeps the name, and fails with ArgumentNull otherwise |
| ClassNames.Dotted | JavaAsm/ClassName.cs:16 | same length; every slash becomes a dot and every other character is unchanged |
| ClassNames.ToString | JavaAsm/ClassName.cs:14-17 | same length as the name; every slash becomes a dot and every other character is unchanged |
| ClassNames.ToStringHasNoSlash | JavaAsm/ClassName.cs:16 | the printed form contains no slash |
| ClassNames.ToStringWithoutSlash | JavaAsm/ClassName.cs:16 | a name without slashes prints as itself |
| ClassNames.Equals | JavaAsm/ClassName.cs:19-29 | a class name equals another object iff that object is a non-null class name with the same name |
| ClassNames.EqualNamesHaveEqualHashes | JavaAsm/ClassName.cs:31-34 | equal class names have equal hash codes, for any string hash |
| Entries.TagOfByte | JavaAsm/IO/ConstantPool.cs:48 | the tag cast inverts the tag table: it returns the one entry class with that tag byte, and none when no class has it |
| Entries.Key | JavaDeobfuscator/JavaAsm/IO/ConstantPoolEntries/MethodHandleEntry.cs:86-96 | the dictionary key of an entry keeps its class; a handle's key forgets the private reference index, and every other entry is its own key |
| Entries.KeyOfMemberRef | JavaAsm/IO/ConstantPool.cs:19-25 | a member reference is the only entry with its key |
| Entries.GetEntry | JavaAsm/IO/ConstantPool.cs:38-41 | succeeds iff 1 <= id <= count and slot id - 1 is of the requested class, and returns that slot; fails with InvalidCast for a slot of another class and ArgumentOutOfRange for id 0 or past the end |
| Entries.GetEntryPrefix | JavaAsm/IO/ConstantPool.cs:38-41 | a lookup that succeeds in a pool still succeeds, with the same entry, in any pool that extends it |
| MethodHandles.KindClassification | JavaDeobfuscator/JavaAsm/IO/ConstantPoolEntries/MethodHandleEntry.cs:110-125 | IsFieldReference holds exactly for kinds 1-4, IsMethodReference exactly for 5-9, and never both |
| MethodHandles.NewMethodHandle | JavaDeobfuscator/JavaAsm/IO/ConstantPoolEntries/MethodHandleEntry.cs:28-32 | the constructor succeeds iff the reference is non-null, keeping kind and reference; a null reference gives ArgumentNull |
| MethodHandles.TagIsNotItsClass | JavaDeobfuscator/JavaAsm/IO/ConstantPoolEntries/MethodHandleEntry.cs:40 | the Tag property reports MethodType (16), not the MethodHandle class (15) of the entry |
| MethodHandles.ResolveReference | JavaDeobfuscator/JavaAsm/IO/ConstantPoolEntries/MethodHandleEntry.cs:42-73 | a resolved reference is the member reference at slot index - 1; it is a field reference iff the kind is a field kind, and a method or interface-method reference iff the kind is a method kind; a kind outside 1-9 fails with ArgumentOutOfRange |
| MethodHandles.ResolveFieldKinds | JavaDeobfuscator/JavaAsm/IO/ConstantPoolEntries/MethodHandleEntry.cs:46-51 | kinds 1-4 resolve iff the slot at the index is a field reference, to that entry |
| MethodHandles.ResolveMethodKinds | JavaDeobfuscator/JavaAsm/IO/ConstantPoolEntries/MethodHandleEntry.cs:52-55 | InvokeVirtual and NewInvokeSpecial resolve iff the slot is a method reference, to that entry |
| MethodHandles.ResolveStaticOrSpecial | JavaDeobfuscator/JavaAsm/IO/ConstantPoolEntries/MethodHandleEntry.cs:56-66 | InvokeStatic and InvokeSpecial resolve iff the slot is a method or an interface-method reference; an index outside the pool gives ArgumentOutOfRange and a slot of another class gives InvalidCast |
| MethodHandles.ResolveInterfaceKind | JavaDeobfuscator/JavaAsm/IO/ConstantPoolEntries/MethodHandleEntry.cs:67-69 | InvokeReference (9) resolves iff the slot is an interface-method reference, to that entry |
| MethodHandles.ProcessFromConstantPool | JavaDeobfuscator/JavaAsm/IO/ConstantPoolEntries/MethodHandleEntry.cs:42-73 | resolution succeeds iff the reference resolves for the kind, and then sets the reference to the entry at slot referenceIndex - 1, changing nothing else |
| MethodHandles.WriteBody | JavaDeobfuscator/JavaAsm/IO/ConstantPoolEntries/MethodHandleEntry.cs:75-79 | the body is three bytes: the kind, then the big-endian reference index |
| MethodHandles.BodyRoundTrip | JavaDeobfuscator/JavaAsm/IO/ConstantPoolEntries/MethodHandleEntry.cs:34-38 | the stream constructor reads a written body back as the same kind and index, with the reference unresolved, ending 3 bytes later |
| MethodHandles.HandlesEqualIsKeyEquality | JavaDeobfuscator/JavaAsm/IO/ConstantPoolEntries/MethodHandleEntry.cs:86-96 | two handles are equal (same kind, equal references) iff their pool keys are equal |
| MethodHandles.EqualHandlesHaveEqualHashes | JavaDeobfuscator/JavaAsm/IO/ConstantPoolEntries/MethodHandleEntry.cs:98-105 | equal handles have equal hash codes, for any reference hash |
| ConstantPools.MapIsInjective | JavaAsm/IO/ConstantPool.cs:34 | in a consistent pool no two keys share an index |
| ConstantPools.Append | JavaAsm/IO/ConstantPool.cs:28-35 | the entry (and a placeholder after a Long or Double) is always appended; it succeeds iff the slots fit in 65535, returning count + 1 and adding the key; on PoolOverflow the grown list stays and the map is unchanged |
| ConstantPools.FindIn | JavaAsm/IO/ConstantPool.cs:17-36 | Find keeps the pool valid, only extends it, and on success the entry's key maps to the returned index; only the entry (or, for a handle, also its reference) becomes a new key |
| ConstantPools.FindPlainIn | JavaAsm/IO/ConstantPool.cs:17-36 | Find without a handle fails only with PoolOverflow |
| ConstantPools.FindPlainAgrees | JavaAsm/IO/ConstantPool.cs:27 | for an entry other than a method handle, registering its dependencies does nothing, and Find is the plain lookup-or-append |
| ConstantPools.FindPlainTwiceValid | JavaAsm/IO/ConstantPool.cs:17-36 | two Finds in a row keep the pool valid and extend the first pool |
| ConstantPools.AppendKeepsSlots | JavaAsm/IO/ConstantPool.cs:28-31 | the old slots are a prefix of the new list, and the new entry sits at the old count |
| ConstantPools.AppendValid | JavaAsm/IO/ConstantPool.cs:28-35 | appending a new entry keeps every pool invariant: a placeholder after each wide entry, a map consistent with the slots, resolved handles pointing at their reference |
| ConstantPools.AppendHandleValid | JavaDeobfuscator/JavaAsm/IO/ConstantPoolEntries/MethodHandleEntry.cs:81-84 | appending a handle whose index points at its reference keeps the pool valid |
| ConstantPools.FindExisting | JavaAsm/IO/ConstantPool.cs:19-25 | Find of an entry already in the map returns the stored index and changes neither the list nor the map |
| ConstantPools.FindNew | JavaAsm/IO/ConstantPool.cs:27-35 | Find of a new entry appends it, plus a placeholder if wide; it succeeds iff the list fits in 65535, returning count + 1 and mapping the entry to it; otherwise PoolOverflow with the grown list and the old map |
| ConstantPools.FindThenGet | JavaAsm/IO/ConstantPool.cs:17-41 | GetEntry of the index Find returned succeeds, with the same key; for an entry other than a handle, it is the entry itself |
| ConstantPools.FindPlain | JavaAsm/IO/ConstantPool.cs:17-41 | Find of an entry other than a handle either fails with PoolOverflow or returns an index at which GetEntry gives back the entry |
| ConstantPools.FindDeduplicates | JavaAsm/IO/ConstantPool.cs:19-25 | a second Find of an equal entry changes nothing and returns the same index |
| ConstantPools.FindWide | JavaAsm/IO/ConstantPool.cs:30-31 | a new Long or Double is followed by a placeholder slot that GetEntry refuses with InvalidCast, and the next new entry gets index + 2 |
| ConstantPools.FindHandle | JavaDeobfuscator/JavaAsm/IO/ConstantPoolEntries/MethodHandleEntry.cs:81-84 | Find of a new handle first finds its reference; a failure there is returned, otherwise the handle is appended with referenceIndex set to the index of its reference |
| ConstantPools.FindUnresolvedHandle | JavaDeobfuscator/JavaAsm/IO/ConstantPoolEntries/MethodHandleEntry.cs:83 | Find of a handle with a null reference fails with ArgumentNull and leaves the pool unchanged |
| ConstantPools.ReadEntryWellFormed | JavaAsm/IO/ConstantPool.cs:48-66 | an entry read from the stream is well formed, and a handle read from it is unresolved |
| ConstantPools.ReadSlotsCount | JavaAsm/IO/ConstantPool.cs:46-73 | the read loop stores exactly size - 1 slots, or one more when the last entry read is a Long or Double whose placeholder overshoots |
| ConstantPools.ReadSlotsShape | JavaAsm/IO/ConstantPool.cs:68-72 | the slots read have a placeholder right after each wide entry and nowhere else, and every handle read is unresolved |
| ConstantPools.ResolveEntry | JavaDeobfuscator/JavaAsm/IO/ConstantPoolEntries/MethodHandleEntry.cs:42-73 | resolving an entry keeps its class, and returns every entry other than a handle unchanged |
| ConstantPools.ResolveEntryDependsOnShape | JavaAsm/IO/ConstantPool.cs:75-76 | resolution only looks at the classes and non-handle contents of the pool, so resolving earlier slots does not change later results |
| ConstantPools.ResolveAgainstCompletePool | JavaAsm/IO/ConstantPool.cs:75-76 | the resolve pass from slot `from` succeeds iff every remaining entry resolves against the pool as read, and each final slot is that resolution |
| ConstantPools.ResolveFromStart | JavaAsm/IO/ConstantPool.cs:75-76 | because resolution runs after all slots are read, forward references resolve: the pass succeeds iff every entry resolves against the complete pool, and the result is the list of resolutions |
| ConstantPools.ResolveHandleFacts | JavaDeobfuscator/JavaAsm/IO/ConstantPoolEntries/MethodHandleEntry.cs:42-73 | a resolved handle's index lies in the pool at a member reference, and the handle now refers to it |
| ConstantPools.ResolveFromValid | JavaAsm/IO/ConstantPool.cs:75-76 | the resolve pass keeps the pool valid |
| ConstantPools.ReadIntoValid | JavaAsm/IO/ConstantPool.cs:43-77 | Read into a valid pool leaves a valid pool, whatever the input |
| ConstantPools.ResolvePassValid | JavaAsm/IO/ConstantPool.cs:75-76 | the resolve step after a read keeps the pool valid |
| ConstantPools.TagPropertyOfClass | JavaAsm/IO/ConstantPool.cs:97 | each entry's Tag is the tag byte of its class, except the method handle, whose Tag is MethodType's byte |
| ConstantPools.SlotsBytesConcat | JavaAsm/IO/ConstantPool.cs:95-99 | Write emits the slots in pool order: the bytes of a + b are the bytes of a followed by those of b |
| ConstantPools.SlotsBytesSingle | JavaAsm/IO/ConstantPool.cs:95-99 | a single slot emits its own bytes: nothing for a placeholder, the tag and body otherwise |
| ConstantPools.SerializeHeader | JavaAsm/IO/ConstantPool.cs:90-94 | Write succeeds iff there are at most 65535 slots, and below that the header is the slot count + 1 |
| ConstantPools.FullPoolHeaderWraps | JavaAsm/IO/ConstantPool.cs:92-94 | as written: with 65535 slots, which Find allows, Write succeeds, its 16-bit header wraps to 0, and Read of the output reads an empty pool |
| ConstantPools.CheckedHeaderCountsSlots | JavaAsm/IO/ConstantPool.cs:92-94 | corrected: a writer that refuses 65535 slots succeeds iff fewer are present, and its header minus one is the slot count |
| ConstantPools.HandleReadsBackAsMethodType | JavaDeobfuscator/JavaAsm/IO/ConstantPoolEntries/MethodHandleEntry.cs:40 | as written: a method handle written to the pool reads back as an entry of class MethodType, if it reads at all |
| ConstantPools.CorrectedHandleRoundTrip | JavaDeobfuscator/JavaAsm/IO/ConstantPoolEntries/MethodHandleEntry.cs:40 | corrected: with tag 15, a written handle reads back as the same unresolved handle, 4 bytes later |
| ConstantPools.CoversEarlier | JavaAsm/IO/ConstantPool.cs:17-36 | a pool that covers a later state covers every earlier one |
| ConstantPools.ConstantPool.constructor | JavaAsm/IO/ConstantPool.cs:14-15 | a new pool is empty and valid |
| ConstantPools.ConstantPool.Find | JavaAsm/IO/ConstantPool.cs:17-36 | the list and the map change exactly as FindIn says, and the pool stays valid |
| ConstantPools.ConstantPool.Store | JavaAsm/IO/ConstantPool.cs:28-35 | the append, the 65535 check and the map update change the pool exactly as Append says |
| ConstantPools.ConstantPool.Read | JavaAsm/IO/ConstantPool.cs:43-77 | the pool changes exactly as ReadInto says (the counted loop, then the resolve pass), and stays valid |
| ConstantPools.ConstantPool.ReadSlotsIn | JavaAsm/IO/ConstantPool.cs:46-73 | the counted loop appends exactly the slots ReadSlots reads, skipping i past each placeholder, and leaves the map alone |
| ConstantPools.ConstantPool.ResolveAll | JavaAsm/IO/ConstantPool.cs:75-76 | the loop over every slot leaves exactly the list ResolveFrom computes |
| ConstantPools.ConstantPool.Write | JavaAsm/IO/ConstantPool.cs:90-100 | the output is the header and the slots as Serialize says |
| TypeParameterTargets.WriteTarget | JavaAsm/CustomAttributes/TypeAnnotation/TypeParameterTarget.cs:14 | Write emits exactly one byte, the type-parameter index |
| TypeParameterTargets.ReadTarget | JavaAsm/CustomAttributes/TypeAnnotation/TypeParameterTarget.cs:19 | Read consumes one byte and returns it; at the end of the stream it consumes nothing and yields 255 |
| TypeParameterTargets.TargetRoundTrip | JavaAsm/CustomAttributes/TypeAnnotation/TypeParameterTarget.cs:14-19 | Read after Write restores the index and leaves the rest of the stream |
| TypeParameterTargets.TypeParameterTarget.constructor | JavaAsm/CustomAttributes/TypeAnnotation/TypeParameterTarget.cs:8 | the target holds the given index |
| TypeParameterTargets.TypeParameterTarget.Kind | JavaAsm/CustomAttributes/TypeAnnotation/TypeParameterTarget.cs:10 | the kind is always TypeParameter, whose target_info size is the one byte Write emits |
| TypeParameterTargets.TypeParameterTarget.Write | JavaAsm/CustomAttributes/TypeAnnotation/TypeParameterTarget.cs:12-15 | emits the byte of WriteTarget for the field |
| TypeParameterTargets.TypeParameterTarget.Read | JavaAsm/CustomAttributes/TypeAnnotation/TypeParameterTarget.cs:17-20 | the field becomes the byte ReadTarget reads |
| LocalVariableTables.RecordBytes | JavaAsm/CustomAttributes/LocalVariableTableAttribute.cs:36-42 | a record is exactly 10 bytes |
| LocalVariableTables.RecordBytesFields | JavaAsm/CustomAttributes/LocalVariableTableAttribute.cs:36-42 | the fields come in the order StartPc, Length, name index, descriptor index, Index, each a big-endian u16 |
| LocalVariableTables.EncodeRecord | JavaAsm/CustomAttributes/LocalVariableTableAttribute.cs:36-42 | a null name gives NullReference before the pool changes, a null descriptor gives an error; with both present the only failure is PoolOverflow; success gives 10 bytes |
| LocalVariableTables.EncodeRecords | JavaAsm/CustomAttributes/LocalVariableTableAttribute.cs:34-43 | the loop succeeds only when every record has a name and a descriptor, giving 10 bytes per record; with both present the only failure is PoolOverflow |
| LocalVariableTables.EncodeTable | JavaAsm/CustomAttributes/LocalVariableTableAttribute.cs:27-46 | more than 65535 entries give ArgumentOutOfRange before the pool changes; success gives 2 + 10n bytes starting with the u16 count |
| LocalVariableTables.EncodeTableValid | JavaAsm/CustomAttributes/LocalVariableTableAttribute.cs:38-41 | Save keeps the pool valid and only extends it |
| LocalVariableTables.DecodeRecord | JavaAsm/CustomAttributes/LocalVariableTableAttribute.cs:60-64 | a record read consumes exactly 10 bytes and yields a name and a descriptor |
| LocalVariableTables.DecodedFields | JavaAsm/CustomAttributes/LocalVariableTableAttribute.cs:60-64 | a record read keeps StartPc, Length and Index as read; the name is the Utf8 entry at the name index, and the descriptor parses from the Utf8 entry at the descriptor index; short input fails |
| LocalVariableTables.DecodeRecords | JavaAsm/CustomAttributes/LocalVariableTableAttribute.cs:57-65 | reading count records yields count entries with names and descriptors and consumes 10 bytes each |
| LocalVariableTables.DecodeTable | JavaAsm/CustomAttributes/LocalVariableTableAttribute.cs:51-68 | Parse yields as many entries as the u16 count it reads first |
| LocalVariableTables.RecordsBytesAt | JavaAsm/CustomAttributes/LocalVariableTableAttribute.cs:34-43 | record i sits at bytes 10i to 10i + 10 of the records, in list order |
| LocalVariableTables.RecordsLayoutRoundTrip | JavaAsm/CustomAttributes/LocalVariableTableAttribute.cs:57-65 | records whose name and descriptor sit at their indices in the pool read back as the same list, leaving the rest |
| LocalVariableTables.RecordsEncoded | JavaAsm/CustomAttributes/LocalVariableTableAttribute.cs:34-43 | the loop output is the records laid out with the indices Find returned, and the pool it leaves holds each name and descriptor at those indices |
| LocalVariableTables.EncodedFields | JavaAsm/CustomAttributes/LocalVariableTableAttribute.cs:33-43 | in the output of Save, record i sits at bytes 2 + 10i with its five fields in order, and its name and descriptor strings are in the pool at the indices written |
| LocalVariableTables.NameFoundBeforeDescriptor | JavaAsm/CustomAttributes/LocalVariableTableAttribute.cs:38-41 | the name is found before the descriptor: for two new strings, the name gets index count + 1 and the descriptor count + 2 |
| LocalVariableTables.TableRoundTrip | JavaAsm/CustomAttributes/LocalVariableTableAttribute.cs:27-68 | Parse of the output of Save, against the pool Save left (or any pool extending it), gives back the same entries, names and descriptors included |
| LocalVariableTables.TableLayoutRoundTrip | JavaAsm/CustomAttributes/LocalVariableTableAttribute.cs:51-68 | a count followed by records laid out with pool indices reads back as the list |
| LocalVariableTables.WriteRecord | JavaAsm/CustomAttributes/LocalVariableTableAttribute.cs:36-42 | one loop iteration changes the pool and writes bytes as EncodeRecord says |
| LocalVariableTables.Save | JavaAsm/CustomAttributes/LocalVariableTableAttribute.cs:27-46 | the foreach loop changes the pool and writes the bytes as EncodeTable says, and keeps the pool valid |
| LocalVariableTables.ReadRecord | JavaAsm/CustomAttributes/LocalVariableTableAttribute.cs:60-64 | one iteration reads the record DecodeRecord describes |
| LocalVariableTables.ReadRecords | JavaAsm/CustomAttributes/LocalVariableTableAttribute.cs:57-65 | the counted loop appends exactly the records DecodeRecords reads |
| LocalVariableTables.Parse | JavaAsm/CustomAttributes/LocalVariableTableAttribute.cs:51-68 | the factory reads the count, then the records, as DecodeTable says |
| ParameterAnnotationsAttributes.EncodeAnnotations | JavaAsm/CustomAttributes/RuntimeInvisibleParameterAnnotationsAttribute.cs:33-34 | the inner loop fails only with an error the annotation writer can give for one of the annotations, and always succeeds with a writer that cannot fail |
| ParameterAnnotationsAttributes.EncodeAnnotationsAppend | JavaAsm/CustomAttributes/RuntimeInvisibleParameterAnnotationsAttribute.cs:33-34 | annotations are written in list order: xs + ys writes xs, then ys against the pool xs left, and a failure in xs ends the run |
| ParameterAnnotationsAttributes.EncodeParameter | JavaAsm/CustomAttributes/RuntimeInvisibleParameterAnnotationsAttribute.cs:29-34 | more than 65535 annotations give ArgumentOutOfRange with the pool untouched; otherwise it succeeds iff every annotation write does, and then writes the u16 count followed by the annotations, leaving the pool the annotations left |
| ParameterAnnotationsAttributes.EncodeParameters | JavaAsm/CustomAttributes/RuntimeInvisibleParameterAnnotationsAttribute.cs:27-35 | the parameter loop succeeds only if every count fits in a u16, and with a writer that cannot fail it succeeds exactly then |
| ParameterAnnotationsAttributes.EncodeAttribute | JavaAsm/CustomAttributes/RuntimeInvisibleParameterAnnotationsAttribute.cs:20-38 | more than 255 parameters give ArgumentOutOfRange with the pool untouched; a success means at most 255 parameters whose counts all fit, and its first byte is the parameter count; with a writer that cannot fail Save succeeds exactly then |
| ParameterAnnotationsAttributes.NoParameters | JavaAsm/CustomAttributes/RuntimeInvisibleParameterAnnotationsAttribute.cs:26 | with no parameters the output is exactly [0] and the pool is unchanged |
| ParameterAnnotationsAttributes.EncodeParametersAppend | JavaAsm/CustomAttributes/RuntimeInvisibleParameterAnnotationsAttribute.cs:27-35 | parameters are written in list order: xs + ys writes xs, then ys against the pool xs left, and stops at the first failure |
| ParameterAnnotationsAttributes.EncodeParametersErrors | JavaAsm/CustomAttributes/RuntimeInvisibleParameterAnnotationsAttribute.cs:27-35 | the parameter loop fails only with ArgumentOutOfRange when some count does not fit, or with a failure the annotation writer can give for one of the annotations |
| ParameterAnnotationsAttributes.SaveErrors | JavaAsm/CustomAttributes/RuntimeInvisibleParameterAnnotationsAttribute.cs:20-38 | Save fails only with ArgumentOutOfRange when there are more than 255 parameters or a count does not fit, or with a failure the annotation writer can give for one of the annotations |
| ParameterAnnotationsAttributes.EncodeAnnotationsValid | JavaAsm/CustomAttributes/RuntimeInvisibleParameterAnnotationsAttribute.cs:33-34 | if the annotation writer keeps the pool valid and only appends to it, so does the inner loop |
| ParameterAnnotationsAttributes.EncodeParametersValid | JavaAsm/CustomAttributes/RuntimeInvisibleParameterAnnotationsAttribute.cs:27-35 | if the annotation writer keeps the pool valid and only appends to it, so does the parameter loop |
| ParameterAnnotationsAttributes.EncodeAttributeValid | JavaAsm/CustomAttributes/RuntimeInvisibleParameterAnnotationsAttribute.cs:20-38 | if the annotation writer keeps the pool valid and only appends to it, so does Save, whether it succeeds or fails |
| ParameterAnnotationsAttributes.DecodeAnnotations | JavaAsm/CustomAttributes/RuntimeInvisibleParameterAnnotationsAttribute.cs:52-55 | the inner loop yields exactly count annotations |
| ParameterAnnotationsAttributes.DecodeParameter | JavaAsm/CustomAttributes/RuntimeInvisibleParameterAnnotationsAttribute.cs:50-56 | a parameter yields as many annotations as its u16 count; fewer than two bytes give EndOfStream |
| ParameterAnnotationsAttributes.DecodeParameters | JavaAsm/CustomAttributes/RuntimeInvisibleParameterAnnotationsAttribute.cs:49-57 | the outer loop yields exactly count parameters |
| ParameterAnnotationsAttributes.DecodeAttribute | JavaAsm/CustomAttributes/RuntimeInvisibleParameterAnnotationsAttribute.cs:43-60 | Parse yields as many parameters as the first byte says |
| ParameterAnnotationsAttributes.EmptyInputFails | JavaAsm/CustomAttributes/RuntimeInvisibleParameterAnnotationsAttribute.cs:47 | Parse of an empty stream fails with EndOfStream |
| ParameterAnnotationsAttributes.AnnotationsRoundTrip | JavaAsm/CustomAttributes/RuntimeInvisibleParameterAnnotationsAttribute.cs:33-34 | annotations that each read back from what the writer wrote against any pool read back as a list, leaving the rest |
| ParameterAnnotationsAttributes.ParameterRoundTrip | JavaAsm/CustomAttributes/RuntimeInvisibleParameterAnnotationsAttribute.cs:29-34 | a written parameter reads back as the same parameter, leaving the rest |
| ParameterAnnotationsAttributes.ParametersRoundTrip | JavaAsm/CustomAttributes/RuntimeInvisibleParameterAnnotationsAttribute.cs:27-35 | written parameters read back as the same list, in order |
| ParameterAnnotationsAttributes.AttributeRoundTrip | JavaAsm/CustomAttributes/RuntimeInvisibleParameterAnnotationsAttribute.cs:20-60 | Parse of the output of Save gives back the same parameters with the same annotations, leaving the rest |
| ParameterAnnotationsAttributes.CountsRoundTrip | JavaAsm/CustomAttributes/RuntimeInvisibleParameterAnnotationsAttribute.cs:26-55 | the round trip keeps the number of parameters and each parameter's number of annotations |
| ParameterAnnotationsAttributes.RuntimeInvisibleParameterAnnotationsAttribute.constructor | JavaAsm/CustomAttributes/RuntimeInvisibleParameterAnnotationsAttribute.cs:18 | a new attribute has no parameters |
| ParameterAnnotationsAttributes.RuntimeInvisibleParameterAnnotationsAttribute.Save | JavaAsm/CustomAttributes/RuntimeInvisibleParameterAnnotationsAttribute.cs:20-38 | the nested loops leave the pool and return the result EncodeAttribute gives for the parameter list and the old pool, and keep the pool valid when the annotation writer does |
| ParameterAnnotationsAttributes.WriteAnnotations | JavaAsm/CustomAttributes/RuntimeInvisibleParameterAnnotationsAttribute.cs:33-34 | the inner loop leaves the pool and returns the result EncodeAnnotations gives for the annotations and the old pool |
| ParameterAnnotationsAttributes.ReadAnnotations | JavaAsm/CustomAttributes/RuntimeInvisibleParameterAnnotationsAttribute.cs:52-55 | the inner loop appends exactly the annotations DecodeAnnotations reads |
| ParameterAnnotationsAttributes.Parse | JavaAsm/CustomAttributes/RuntimeInvisibleParameterAnnotationsAttribute.cs:43-60 | the factory succeeds iff DecodeAttribute does, with its error, and then builds a new attribute holding the parameters read |
| StackMapTables.Ordinal | JavaAsm/CustomAttributes/StackMapTableAttribute.cs:13-24 | the tag of a verification type is its enum ordinal, at most 8 |
| StackMapTables.TypeOfOrdinal | JavaAsm/CustomAttributes/StackMapTableAttribute.cs:184 | the cast of a byte to a verification type succeeds iff the byte is 0..8, and inverts Ordinal |
| StackMapTables.OrdinalInjective | JavaAsm/CustomAttributes/StackMapTableAttribute.cs:13-24 | distinct verification types have distinct tags |
| StackMapTables.NewSimpleElement | JavaAsm/CustomAttributes/StackMapTableAttribute.cs:35-40 | a simple element accepts every type except Object and Uninitialized, which give ArgumentOutOfRange |
| StackMapTables.ElementBytes | JavaAsm/CustomAttributes/StackMapTableAttribute.cs:81-99 | an element is its tag byte, followed by a u16 for Object and Uninitialized only |
| StackMapTables.EncodeElement | JavaAsm/CustomAttributes/StackMapTableAttribute.cs:81-99 | writing an element keeps the pool valid; only an Object element can fail, with PoolOverflow; success gives 1 byte, or 3 with a payload |
| StackMapTables.FindClassFails | JavaAsm/CustomAttributes/StackMapTableAttribute.cs:86-89 | registering the class of an Object element fails only with PoolOverflow, and the returned index holds that class entry |
| StackMapTables.EncodeElements | JavaAsm/CustomAttributes/StackMapTableAttribute.cs:150-151 | writing an element list keeps the pool valid and fails only with PoolOverflow |
| StackMapTables.DecodeElement | JavaAsm/CustomAttributes/StackMapTableAttribute.cs:182-206 | an element read is one a writer could have built, and it consumes input |
| StackMapTables.UnknownElementTagFails | JavaAsm/CustomAttributes/StackMapTableAttribute.cs:204 | a tag above 8 names no verification type, and reading it fails with ArgumentOutOfRange |
| StackMapTables.DecodeElementByTag | JavaAsm/CustomAttributes/StackMapTableAttribute.cs:182-206 | tags 0-6 read the simple element of that type from one byte; tag 8 reads a u16 instruction offset; tag 7 reads a u16 index whose ClassEntry names the class, and fails as GetEntry does; a stream that ends early gives EndOfStream |
| StackMapTables.DecodeElements | JavaAsm/CustomAttributes/StackMapTableAttribute.cs:271-274 | reading count elements yields count valid elements |
| StackMapTables.EncodeFrame | JavaAsm/CustomAttributes/StackMapTableAttribute.cs:110-173 | writing a frame keeps the pool valid; it succeeds only for frames of an accepted shape, and otherwise the failure is a shape error or PoolOverflow |
| StackMapTables.EncodeFullFrame | JavaAsm/CustomAttributes/StackMapTableAttribute.cs:153-170 | a full frame succeeds only with at most 65535 locals and stack items |
| StackMapTables.EncodeFrames | JavaAsm/CustomAttributes/StackMapTableAttribute.cs:110-175 | the frame loop succeeds only when every frame has an accepted shape |
| StackMapTables.EncodeTable | JavaAsm/CustomAttributes/StackMapTableAttribute.cs:101-177 | more than 65535 frames give ArgumentOutOfRange before any change; success starts with the u16 frame count |
| StackMapTables.DecodeFrame | JavaAsm/CustomAttributes/StackMapTableAttribute.cs:216-294 | a frame read holds only valid elements and consumes input |
| StackMapTables.DecodeFullFrame | JavaAsm/CustomAttributes/StackMapTableAttribute.cs:276-290 | a full frame read keeps the delta, has no chop count and holds valid elements |
| StackMapTables.DecodeFrames | JavaAsm/CustomAttributes/StackMapTableAttribute.cs:214-295 | the frame loop yields exactly count frames |
| StackMapTables.DecodeTable | JavaAsm/CustomAttributes/StackMapTableAttribute.cs:208-298 | Parse consumes at least the two bytes of the count |
| StackMapTables.NormalizeAll | JavaAsm/CustomAttributes/StackMapTableAttribute.cs:110-175 | each frame is reduced to the fields its frame type writes, in order |
| StackMapTables.ElementLayoutRoundTrip | JavaAsm/CustomAttributes/StackMapTableAttribute.cs:182-206 | a written element whose class sits at its index reads back unchanged |
| StackMapTables.ElementsLayoutRoundTrip | JavaAsm/CustomAttributes/StackMapTableAttribute.cs:271-274 | written elements read back as the same list, in order |
| StackMapTables.ElementsEncoded | JavaAsm/CustomAttributes/StackMapTableAttribute.cs:81-99 | the writer's output is the element layout with the class indices Find returned, and the pool holds those classes there |
| StackMapTables.SameLayoutRoundTrip | JavaAsm/CustomAttributes/StackMapTableAttribute.cs:218-225 | a written Same frame reads back as Same with its delta |
| StackMapTables.SameLocals1LayoutRoundTrip | JavaAsm/CustomAttributes/StackMapTableAttribute.cs:226-245 | a written SameLocals1StackItem frame reads back with its delta and its one stack element |
| StackMapTables.ChopLayoutRoundTrip | JavaAsm/CustomAttributes/StackMapTableAttribute.cs:246-254 | a written Chop frame reads back with its delta and chop count |
| StackMapTables.AppendLayoutRoundTrip | JavaAsm/CustomAttributes/StackMapTableAttribute.cs:263-275 | a written Append frame reads back with its delta and its 1-3 locals |
| StackMapTables.FullLayoutRoundTrip | JavaAsm/CustomAttributes/StackMapTableAttribute.cs:276-290 | a written Full frame reads back with its delta, locals and stack |
| StackMapTables.FrameLayoutRoundTrip | JavaAsm/CustomAttributes/StackMapTableAttribute.cs:216-294 | every accepted frame type reads back as its normal form |
| StackMapTables.FrameEncoded | JavaAsm/CustomAttributes/StackMapTableAttribute.cs:110-173 | a written frame is the frame layout with the class indices Find returned, and the pool holds those classes there |
| StackMapTables.FrameRoundTrip | JavaAsm/CustomAttributes/StackMapTableAttribute.cs:110-293 | a frame the writer accepts reads back, against the pool the writer left, as its normal form |
| StackMapTables.FramesRoundTrip | JavaAsm/CustomAttributes/StackMapTableAttribute.cs:110-295 | written frames read back as their normal forms, in order |
| StackMapTables.TableRoundTrip | JavaAsm/CustomAttributes/StackMapTableAttribute.cs:101-298 | for frames that Save accepts, Parse of the output gives back the types, deltas, chop counts and element lists, leaving the rest |
| StackMapTables.SameFrameEncoding | JavaAsm/CustomAttributes/StackMapTableAttribute.cs:114-122 | a Same frame leaves the pool alone; below 64 it is the single byte delta, from 64 it is 251 and the u16 delta |
| StackMapTables.SameFrameBoundary | JavaAsm/CustomAttributes/StackMapTableAttribute.cs:114-122 | delta 63 writes [63] and delta 64 writes [251, 0, 64] |
| StackMapTables.SameLocals1FrameEncoding | JavaAsm/CustomAttributes/StackMapTableAttribute.cs:123-133 | an empty stack gives ArgumentOutOfRange with the pool unchanged; otherwise tag delta + 64 (64-127) below 64, else 247 and the u16 delta, followed by exactly the encoding of the first stack element |
| StackMapTables.SameLocals1FrameBoundary | JavaAsm/CustomAttributes/StackMapTableAttribute.cs:123-133 | delta 63 writes tag 127 and delta 64 writes 247, 0, 64, each followed by the element |
| StackMapTables.ChopFrameEncoding | JavaAsm/CustomAttributes/StackMapTableAttribute.cs:134-143 | a null chop count gives ArgumentNull, one outside 1-3 gives ArgumentOutOfRange; otherwise three bytes: 251 - k (248-250) and the u16 delta |
| StackMapTables.AppendFrameEncoding | JavaAsm/CustomAttributes/StackMapTableAttribute.cs:144-152 | fewer than 1 or more than 3 locals give ArgumentOutOfRange; otherwise tag 251 + n (252-254), the u16 delta, then the locals in order |
| StackMapTables.FullFrameEncoding | JavaAsm/CustomAttributes/StackMapTableAttribute.cs:153-170 | more than 65535 locals give ArgumentOutOfRange; otherwise the output starts with 255, the u16 delta and the u16 locals count |
| StackMapTables.DecodeFollowsJvms | JavaAsm/CustomAttributes/StackMapTableAttribute.cs:217-290 | for every tag the JVMS defines, a frame read has the JVMS frame type; the delta is the tag (Same), tag - 64 (SameLocals1) or the u16 after it; Chop has k = 251 - tag, Append has tag - 251 locals, SameLocals1 one stack item; and the frame is of an accepted shape |
| StackMapTables.ReservedTagReadsAsChop | JavaAsm/CustomAttributes/StackMapTableAttribute.cs:246-254 | as written: a reserved tag (128-246) reads as a Chop frame with count 251 - tag, between 5 and 123, which the writer would refuse |
| StackMapTables.DecodeFrameCheckedSound | JavaAsm/CustomAttributes/StackMapTableAttribute.cs:291-292 | corrected: reserved tags give ArgumentOutOfRange, and every other input reads as before; every frame it returns is of an accepted shape |
| StackMapTables.CheckedFrameRoundTrip | JavaAsm/CustomAttributes/StackMapTableAttribute.cs:110-293 | the corrected reader still reads every accepted frame back as its normal form |
| StackMapTables.WriteElement | JavaAsm/CustomAttributes/StackMapTableAttribute.cs:81-99 | writes an element and changes the pool as EncodeElement says, keeping it valid |
| StackMapTables.WriteElements | JavaAsm/CustomAttributes/StackMapTableAttribute.cs:150-151 | the element loop writes and changes the pool as EncodeElements says |
| StackMapTables.WriteFrame | JavaAsm/CustomAttributes/StackMapTableAttribute.cs:110-173 | one iteration of the frame loop writes and changes the pool as EncodeFrame says |
| StackMapTables.WriteFullFrame | JavaAsm/CustomAttributes/StackMapTableAttribute.cs:153-170 | the Full case writes and changes the pool as EncodeFullFrame says |
| StackMapTables.Save | JavaAsm/CustomAttributes/StackMapTableAttribute.cs:101-177 | Save writes and changes the pool as EncodeTable says, keeping it valid |
| StackMapTables.ReadElement | JavaAsm/CustomAttributes/StackMapTableAttribute.cs:182-206 | reads the element DecodeElement describes |
| StackMapTables.ReadElements | JavaAsm/CustomAttributes/StackMapTableAttribute.cs:271-274 | the counted loop appends exactly the elements DecodeElements reads |
| StackMapTables.ReadFrame | JavaAsm/CustomAttributes/StackMapTableAttribute.cs:216-294 | one iteration of the frame loop reads the frame DecodeFrame describes |
| StackMapTables.Parse | JavaAsm/CustomAttributes/StackMapTableAttribute.cs:208-298 | the factory reads the count, then the frames, as DecodeTable says |
| MethodNodes.WithName | JavaDeobfuscator/JavaAsm/MethodNode.cs:47-53 | the attributes with a given name form a sublist of the list |
| MethodNodes.HasNameWithName | JavaDeobfuscator/JavaAsm/MethodNode.cs:87 | an attribute of that name is present iff the attributes with that name are not empty |
| MethodNodes.TakeAttribute | JavaDeobfuscator/JavaAsm/MethodNode.cs:47-53 | GetAttribute removes one attribute exactly when it returns one, of the requested name; when none is found the list is unchanged |
| MethodNodes.TakeAttributeFirst | JavaDeobfuscator/JavaAsm/MethodNode.cs:47-53 | GetAttribute returns the first attribute with the name, and removes exactly that one of them |
| MethodNodes.TakeAttributeOthers | JavaDeobfuscator/JavaAsm/MethodNode.cs:47-53 | attributes of every other name are unchanged |
| MethodNodes.TakeAttributeKeepsOrder | JavaDeobfuscator/JavaAsm/MethodNode.cs:47-53 | the remaining attributes keep their order |
| MethodNodes.Parsed | JavaDeobfuscator/JavaAsm/MethodNode.cs:55-81 | Parse keeps the access flags and never grows the list |
| MethodNodes.NamesDistinct | JavaDeobfuscator/JavaAsm/MethodNode.cs:57-80 | the seven attribute names Parse handles are distinct |
| MethodNodes.StageWithName | JavaDeobfuscator/JavaAsm/MethodNode.cs:57-80 | after the first k lookups, each name looked up has lost its first attribute, and every other name is untouched |
| MethodNodes.StageFirst | JavaDeobfuscator/JavaAsm/MethodNode.cs:57-80 | each lookup finds the first attribute of its name in the original list |
| MethodNodes.ParsedSignature | JavaDeobfuscator/JavaAsm/MethodNode.cs:57 | the signature is the payload of the first Signature attribute, or null |
| MethodNodes.ParsedInstructions | JavaDeobfuscator/JavaAsm/MethodNode.cs:58-62 | the instructions are parsed from the first Code attribute, or stay as they were without one |
| MethodNodes.ParsedInvisibleAnnotations | JavaDeobfuscator/JavaAsm/MethodNode.cs:63-67 | the invisible annotations come from the first RuntimeInvisibleAnnotations attribute, or stay as they were |
| MethodNodes.ParsedVisibleAnnotations | JavaDeobfuscator/JavaAsm/MethodNode.cs:68-72 | the visible annotations come from the first RuntimeVisibleAnnotations attribute, or stay as they were |
| MethodNodes.ParsedThrows | JavaDeobfuscator/JavaAsm/MethodNode.cs:73-77 | the thrown classes come from the first Exceptions attribute, or stay as they were |
| MethodNodes.ParsedAnnotationDefault | JavaDeobfuscator/JavaAsm/MethodNode.cs:78-79 | the annotation default is the payload of the first AnnotationDefault attribute, or null |
| MethodNodes.ParsedDeprecated | JavaDeobfuscator/JavaAsm/MethodNode.cs:80 | IsDeprecated holds iff a Deprecated attribute was present and the first one has a non-null payload |
| MethodNodes.ParseRemovesFirstOfEach | JavaDeobfuscator/JavaAsm/MethodNode.cs:55-81 | Parse removes exactly the first attribute of each of the seven names; attributes of other names stay, and the order is kept |
| MethodNodes.Plan | JavaDeobfuscator/JavaAsm/MethodNode.cs:83-184 | Save has seven blocks, and block i can only add an attribute with the i-th name of Signature, Code, RuntimeInvisibleAnnotations, RuntimeVisibleAnnotations, Exceptions, AnnotationDefault, Deprecated; only the two annotation blocks and the Exceptions block throw on a null list |
| MethodNodes.AppendChecked | JavaDeobfuscator/JavaAsm/MethodNode.cs:87-90 | a block fails iff an attribute of that name is present, with that name in the error and the list unchanged; otherwise it appends the attribute |
| MethodNodes.Block | JavaDeobfuscator/JavaAsm/MethodNode.cs:85-98 | a block never removes or reorders attributes: the old list is a prefix of the new |
| MethodNodes.RunAfterThrow | JavaDeobfuscator/JavaAsm/MethodNode.cs:83-184 | after an exception no later block runs |
| MethodNodes.SaveRunsPlan | JavaDeobfuscator/JavaAsm/MethodNode.cs:83-184 | Save is its seven blocks run in order, stopping at the first exception |
| MethodNodes.RunErrors | JavaDeobfuscator/JavaAsm/MethodNode.cs:83-184 | a failing run fails on a null list or on a name of the run already present before it started |
| MethodNodes.SaveKeepsOldAttributes | JavaDeobfuscator/JavaAsm/MethodNode.cs:83-184 | Save never removes or reorders pre-existing attributes, even when it throws: the old list is a prefix of the new one |
| MethodNodes.SaveOrder | JavaDeobfuscator/JavaAsm/MethodNode.cs:83-184 | the appended attributes are named in the order Signature, Code, RuntimeInvisibleAnnotations, RuntimeVisibleAnnotations, Exceptions, AnnotationDefault, Deprecated |
| MethodNodes.SaveErrors | JavaDeobfuscator/JavaAsm/MethodNode.cs:83-184 | Save throws only NullReference for a null annotations or exceptions list, or DuplicateAttribute for one of the seven names already in the old list |
| MethodNodes.SaveSucceeds | JavaDeobfuscator/JavaAsm/MethodNode.cs:83-184 | with the three lists non-null and none of the seven names present, Save succeeds |
| MethodNodes.SaveAppends | JavaDeobfuscator/JavaAsm/MethodNode.cs:83-184 | a successful Save appends exactly: Signature if set, Code if the method is neither abstract nor native and has instructions, each annotation and exception attribute if its list is non-empty, AnnotationDefault if set, Deprecated if true, in that order |
| MethodNodes.MethodNode.constructor | JavaDeobfuscator/JavaAsm/MethodNode.cs:16-45 | a new method has no attributes, empty instructions, annotation and exception lists, and no signature, default or deprecation |
| MethodNodes.MethodNode.GetAttribute | JavaDeobfuscator/JavaAsm/MethodNode.cs:47-53 | the list and the result are as TakeAttribute says, and no field changes |
| MethodNodes.MethodNode.Parse | JavaDeobfuscator/JavaAsm/MethodNode.cs:55-81 | the fields and the list change exactly as Parsed says |
| MethodNodes.MethodNode.ParseSignatureBlock | JavaDeobfuscator/JavaAsm/MethodNode.cs:57 | the Signature statement of Parse |
| MethodNodes.MethodNode.ParseCodeBlock | JavaDeobfuscator/JavaAsm/MethodNode.cs:58-62 | the Code block of Parse |
| MethodNodes.MethodNode.ParseInvisibleAnnotationsBlock | JavaDeobfuscator/JavaAsm/MethodNode.cs:63-67 | the RuntimeInvisibleAnnotations block of Parse |
| MethodNodes.MethodNode.ParseVisibleAnnotationsBlock | JavaDeobfuscator/JavaAsm/MethodNode.cs:68-72 | the RuntimeVisibleAnnotations block of Parse |
| MethodNodes.MethodNode.ParseExceptionsBlock | JavaDeobfuscator/JavaAsm/MethodNode.cs:73-77 | the Exceptions block of Parse |
| MethodNodes.MethodNode.ParseAnnotationDefaultBlock | JavaDeobfuscator/JavaAsm/MethodNode.cs:78-79 | the AnnotationDefault statement of Parse |
| MethodNodes.MethodNode.ParseDeprecatedBlock | JavaDeobfuscator/JavaAsm/MethodNode.cs:80 | the Deprecated statement of Parse |
| MethodNodes.MethodNode.AddAttribute | JavaDeobfuscator/JavaAsm/MethodNode.cs:87-90 | the duplicate check and append change the list as AppendChecked says, and no field changes |
| MethodNodes.MethodNode.Save | JavaDeobfuscator/JavaAsm/MethodNode.cs:83-184 | the list and the outcome are as SaveAttributes says, and no field changes |
| MethodNodes.MethodNode.SaveSignatureBlock | JavaDeobfuscator/JavaAsm/MethodNode.cs:85-98 | the Signature block of Save |
| MethodNodes.MethodNode.SaveCodeBlock | JavaDeobfuscator/JavaAsm/MethodNode.cs:100-110 | the Code block of Save |
| MethodNodes.MethodNode.SaveInvisibleAnnotationsBlock | JavaDeobfuscator/JavaAsm/MethodNode.cs:112-125 | the RuntimeInvisibleAnnotations block of Save |
| MethodNodes.MethodNode.SaveVisibleAnnotationsBlock | JavaDeobfuscator/JavaAsm/MethodNode.cs:127-140 | the RuntimeVisibleAnnotations block of Save |
| MethodNodes.MethodNode.SaveExceptionsBlock | JavaDeobfuscator/JavaAsm/MethodNode.cs:142-155 | the Exceptions block of Save |
| MethodNodes.MethodNode.SaveAnnotationDefaultBlock | JavaDeobfuscator/JavaAsm/MethodNode.cs:157-170 | the AnnotationDefault block of Save |
| MethodNodes.MethodNode.SaveDeprecatedBlock | JavaDeobfuscator/JavaAsm/MethodNode.cs:172-183 | the Deprecated block of Save |

## Left out

- Streams are not modelled. `Stream`, `MemoryStream`, `ReadByteFully` and the `BinaryEncoding` library become pure functions over byte sequences (see above), and writers return the bytes they would append to the stream.
- `BigEndian.ReadUInt16` at the end of the stream is not shown. The model treats it as a failure (`EndOfStream`), like `ReadByteFully`.
- Entry classes other than `MethodHandleEntry` are not part of this model. Their payloads are abstract: a number, a string, or the owner, name and descriptor of a member reference. Their `Read`, `Write`, `PutToConstantPool` and `ProcessFromConstantPool` are function parameters (entry bodies) or do nothing (dependencies and resolution).
- Float and Double entries keep only an integer standing for their bits. Floating point is not modelled.
- `AnnotationNode.Parse`/`Write`, `ElementValue` and `TypeDescriptor.Parse`/`ToString` are not part of this model. They are function parameters. The round trips are the hypotheses of the lemmas that need them (`DescriptorsRoundTrip`, `ParametersReadBack`).
- The annotation writer (`AnnotationNode.Write`) is a parameter that takes the pool and may extend it or fail, but it is not modelled: which entries it finds and which errors it raises are whatever the parameter says. The annotation reader (`AnnotationNode.Parse`) is a parameter that does not see the pool, so an annotation's round trip is assumed (`ParametersReadBack`) rather than tied to the pool Save left.
- Nulls that the source dereferences are not modelled, because the model's lists and element fields are always present. In the source each throws NullReferenceException. The cases are:
  - a null `ObjectClass` of an object verification element (`JavaAsm/CustomAttributes/StackMapTableAttribute.cs:86-88`);
  - a null element in a frame's `Stack` or `Locals`;
  - a null `Parameters` list, or a null `Annotations` list of a parameter (`JavaAsm/CustomAttributes/RuntimeInvisibleParameterAnnotationsAttribute.cs:24`, `:29`);
  - a null `Attributes` list of a `MethodNode`, or a null attribute in it.
- `InstructionListConverter.ParseCodeAttribute` and `SaveCodeAttribute` are not part of this model. The parsed instructions come from the parameter `parseCode`, and the Code attribute `Save` writes is the parameter `code`. Exceptions thrown inside them are not modelled.
- Hash codes are not computed. Only "equal values have equal hashes" is modelled, for any string or reference hash.
- The pool's inconsistency check at `JavaAsm/IO/ConstantPool.cs:22` is not a code path. It cannot fire in a valid pool, and the `MapConsistent` invariant of `ConstantPools.ValidPool` states why.
- `Debug.Assert` at `JavaAsm/IO/ConstantPool.cs:67` exists only in debug builds. The model follows release behaviour and appends what was read.
- `CheckInAndThrow` is not modelled beyond the membership test it enforces in the `SimpleVerificationElement` constructor (`StackMapTables.NewSimpleElement`): the type must be one of the seven listed types, and any other type is rejected with ArgumentOutOfRange.
- `MethodNode.ToString` and the fields of `MethodNode` outside the attribute bookkeeping are not modelled: owner, name, descriptor, max stack, max locals, try/catch blocks and code attributes.
- `JavaDeobfuscator/JavaAsm/ClassVersion.cs` is an enumeration of version numbers with no behaviour, so it is not modelled.
- Exception messages are not modelled. Exceptions are modelled by kind only; a duplicate attribute carries its name.
- ConstantPools.ReadSlotsCount: the read loop stores size - 1 slots only when the input does not end on a wide entry. When the last entry is a Long or Double, its placeholder makes size slots, because the code does not check it.
- StackMapTables.TableRoundTrip: a frame reads back as its normal form (`Normalize`), not as itself. The fields its frame type does not write (the stack of a Chop frame, for instance) are lost, as in the source.

## Findings

| source | as written | input that shows it | evidently intended | confidence | as-written member | corrected member |
|---|---|---|---|---|---|---|
| JavaDeobfuscator/JavaAsm/IO/ConstantPoolEntries/MethodHandleEntry.cs:40 | the `Tag` of a method handle is MethodType (16) | any method handle written by the pool writer is tagged 16, so it reads back as a MethodType entry | tag 15 (CONSTANT_MethodHandle, section 4.4.8 of the JVMS), so the handle reads back as itself | high; not executed | ConstantPools.HandleReadsBackAsMethodType | ConstantPools.CorrectedHandleRoundTrip |
| JavaAsm/CustomAttributes/StackMapTableAttribute.cs:246-254 | the Chop branch accepts every tag from 128 to 250, so the error branch at line 291-292 is unreachable | tag 200 with delta 0 reads as a Chop frame with count 51 | tags 128-246 are reserved (section 4.7.4 of the JVMS) and should be rejected | high; not executed | StackMapTables.ReservedTagReadsAsChop | StackMapTables.DecodeFrameCheckedSound |
| JavaAsm/IO/ConstantPool.cs:92-94 | `Find` allows 65535 slots and `Write` accepts them, but the header `count + 1` is cast to 16 bits | a pool of 65535 slots writes header 0, which reads back as an empty pool | a pool that fits the 16-bit header: at most 65534 slots | medium; not executed | ConstantPools.FullPoolHeaderWraps | ConstantPools.CheckedHeaderCountsSlots |
