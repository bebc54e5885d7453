/**
  The `LocalVariableTable` attribute (section 4.7.13 of the JVMS): a u16 count,
  then ten bytes per local variable: start_pc, length, the pool index of the
  name, the pool index of the descriptor, and the slot index.

  `TypeDescriptor` is not part of this model: a descriptor is a value of the
  type parameter `D`, written through `render` (its `ToString`) and read back
  through `parse` (its `Parse`, which may fail).
*/
module LocalVariableTables {
  import opened Wrappers
  import opened Bytes
  import opened Entries
  import opened ConstantPools

  /** `LocalVariableTableEntry`; the name and the descriptor are references and may be null. */
  datatype LocalVariable<D> = LocalVariable(startPc: uint16, length: uint16, name: Option<string>, descriptor: Option<D>, index: uint16)

  /** A record with a name and a descriptor, the only kind `Save` can write. */
  predicate Present<D>(v: LocalVariable<D>) {
    v.name.Some? && v.descriptor.Some?
  }

  predicate AllPresent<D>(vs: seq<LocalVariable<D>>) {
    forall i :: 0 <= i < |vs| ==> Present(vs[i])
  }

  lemma AllPresentCons<D>(vs: seq<LocalVariable<D>>)
    requires vs != []
    ensures AllPresent(vs) <==> Present(vs[0]) && AllPresent(vs[1..])
  {
    if Present(vs[0]) && AllPresent(vs[1..]) {
      forall i | 0 <= i < |vs|
        ensures Present(vs[i])
      {
        if i > 0 {
          assert vs[i] == vs[1..][i - 1];
        }
      }
    }
  }

  /** The ten bytes of one record once its name and descriptor have the pool indices `nameIndex` and `descriptorIndex`. */
  function RecordBytes<D>(v: LocalVariable<D>, nameIndex: uint16, descriptorIndex: uint16): (w: seq<uint8>)
    ensures |w| == 10
  {
    EncodeU16(v.startPc) + EncodeU16(v.length) + EncodeU16(nameIndex) + EncodeU16(descriptorIndex) + EncodeU16(v.index)
  }

  /** Where each field sits in the ten bytes of a record. */
  lemma RecordBytesFields<D>(v: LocalVariable<D>, nameIndex: uint16, descriptorIndex: uint16)
    ensures var w := RecordBytes(v, nameIndex, descriptorIndex);
      && w[0..2] == EncodeU16(v.startPc) && w[2..4] == EncodeU16(v.length)
      && w[4..6] == EncodeU16(nameIndex) && w[6..8] == EncodeU16(descriptorIndex)
      && w[8..10] == EncodeU16(v.index)
      && DecodeU16(w[4], w[5]) == nameIndex && DecodeU16(w[6], w[7]) == descriptorIndex
  {
    DecodeEncodeU16(nameIndex);
    DecodeEncodeU16(descriptorIndex);
  }

  /** The body of the loop of `Save`: the name is found in the pool before the descriptor is
      rendered and found (a Utf8 entry has no dependencies, so `Find` is `FindPlainIn`).
      `Utf8Entry` is not part of this model: a null string cannot be hashed for the
      lookup, which is modelled as a `NullReference` failure. */
  function EncodeRecord<D>(st: PoolState, v: LocalVariable<D>, render: D -> string): (res: (PoolState, Result<seq<uint8>>))
    ensures v.name.None? ==> res == (st, Err(NullReference))
    ensures v.descriptor.None? ==> res.1.Err?
    ensures Present(v) && res.1.Err? ==> res.1.error == PoolOverflow
    ensures res.1.Ok? ==> Present(v) && |res.1.value| == 10
  {
    match v.name
    case None => (st, Err(NullReference))
    case Some(name) =>
      var (st1, n) := FindPlainIn(st, Utf8(name));
      if n.Err? then (st1, Err(n.error))
      else
        match v.descriptor
        case None => (st1, Err(NullReference))
        case Some(descriptor) =>
          var (st2, d) := FindPlainIn(st1, Utf8(render(descriptor)));
          if d.Err? then (st2, Err(d.error))
          else (st2, Ok(RecordBytes(v, n.value, d.value)))
  }

  function EncodeRecords<D>(st: PoolState, vs: seq<LocalVariable<D>>, render: D -> string): (res: (PoolState, Result<seq<uint8>>))
    ensures res.1.Ok? ==> AllPresent(vs) && |res.1.value| == 10 * |vs|
    ensures AllPresent(vs) && res.1.Err? ==> res.1.error == PoolOverflow
    decreases vs
  {
    if vs == [] then (st, Ok([]))
    else
      var (st1, r) := EncodeRecord(st, vs[0], render);
      if r.Err? then (st1, r)
      else
        AllPresentCons(vs);
        Prefixed(r.value, EncodeRecords(st1, vs[1..], render))
  }

  /** `LocalVariableTableAttribute.Save`: more than 65535 records are rejected before
      the pool is touched; otherwise the u16 count and ten bytes per record. A record
      without a name or a descriptor fails, and a record with both fails only when the
      pool overflows. */
  function EncodeTable<D>(st: PoolState, vs: seq<LocalVariable<D>>, render: D -> string): (res: (PoolState, Result<seq<uint8>>))
    ensures |vs| > 0xFFFF ==> res == (st, Err(ArgumentOutOfRange))
    ensures |vs| <= 0xFFFF && AllPresent(vs) && res.1.Err? ==> res.1.error == PoolOverflow
    ensures res.1.Ok? ==> AllPresent(vs) && |res.1.value| == 2 + 10 * |vs| && res.1.value[..2] == EncodeU16(|vs|)
  {
    if |vs| > 0xFFFF then (st, Err(ArgumentOutOfRange))
    else Prefixed(EncodeU16(|vs|), EncodeRecords(st, vs, render))
  }

  /** Writing one record keeps the pool valid and only appends to it. */
  lemma EncodeRecordValid<D>(st: PoolState, v: LocalVariable<D>, render: D -> string)
    requires ValidPool(st)
    ensures ValidPool(EncodeRecord(st, v, render).0) && Extends(st, EncodeRecord(st, v, render).0)
  {
    if v.name.None? {
      ExtendsItself(st);
    } else if FindPlainIn(st, Utf8(v.name.value)).1.Err? || v.descriptor.None? {
      NameOnlyValid(st, v, render);
    } else {
      NameAndDescriptorValid(st, v, render);
    }
  }

  lemma NameOnlyValid<D>(st: PoolState, v: LocalVariable<D>, render: D -> string)
    requires ValidPool(st) && v.name.Some?
    requires FindPlainIn(st, Utf8(v.name.value)).1.Err? || v.descriptor.None?
    ensures ValidPool(EncodeRecord(st, v, render).0) && Extends(st, EncodeRecord(st, v, render).0)
  {
    FindPlainAgrees(st, Utf8(v.name.value));
    assert EncodeRecord(st, v, render).0 == FindPlainIn(st, Utf8(v.name.value)).0;
  }

  lemma NameAndDescriptorValid<D>(st: PoolState, v: LocalVariable<D>, render: D -> string)
    requires ValidPool(st) && Present(v) && FindPlainIn(st, Utf8(v.name.value)).1.Ok?
    ensures ValidPool(EncodeRecord(st, v, render).0) && Extends(st, EncodeRecord(st, v, render).0)
  {
    var e1, e2 := Utf8(v.name.value), Utf8(render(v.descriptor.value));
    FindPlainTwiceValid(st, e1, e2);
    assert EncodeRecord(st, v, render).0 == FindPlainIn(FindPlainIn(st, e1).0, e2).0;
  }

  lemma {:induction false} EncodeRecordsValid<D>(st: PoolState, vs: seq<LocalVariable<D>>, render: D -> string)
    requires ValidPool(st)
    ensures ValidPool(EncodeRecords(st, vs, render).0) && Extends(st, EncodeRecords(st, vs, render).0)
    decreases vs
  {
    if vs != [] {
      var (st1, r) := EncodeRecord(st, vs[0], render);
      EncodeRecordValid(st, vs[0], render);
      if r.Ok? {
        EncodeRecordsValid(st1, vs[1..], render);
        ExtendsTransitive(st, st1, EncodeRecords(st1, vs[1..], render).0);
      }
    }
  }

  /** `Save` keeps the pool valid and only appends to it, whether it succeeds or not. */
  lemma EncodeTableValid<D>(st: PoolState, vs: seq<LocalVariable<D>>, render: D -> string)
    requires ValidPool(st)
    ensures ValidPool(EncodeTable(st, vs, render).0) && Extends(st, EncodeTable(st, vs, render).0)
  {
    if |vs| <= 0xFFFF {
      EncodeRecordsValid(st, vs, render);
    }
  }

  /** The object initializer of `Parse`, read at the fixed offsets of the record's fields:
      start_pc (0), length (2), the name index (4), its `GetEntry<Utf8Entry>`, the
      descriptor index (6), its `GetEntry<Utf8Entry>` and `Parse`, and the slot index (8).
      Each read needs its bytes first, so a record cut short before byte 6 fails at the
      end of the stream before any lookup, and one cut short after, only once the lookups
      before the cut have succeeded. */
  function DecodeRecord<D>(entries: seq<Entry>, input: seq<uint8>, parse: string -> Result<D>)
    : (r: Result<(LocalVariable<D>, seq<uint8>)>)
    ensures r.Ok? ==> Present(r.value.0) && |input| >= 10 && r.value.1 == input[10..]
  {
    if |input| < 6 then Err(EndOfStream)
    else
      var name :- GetEntry(entries, DecodeU16(input[4], input[5]), Utf8Tag);
      if |input| < 8 then Err(EndOfStream)
      else
        var descriptor :- GetEntry(entries, DecodeU16(input[6], input[7]), Utf8Tag);
        var d :- parse(descriptor.text);
        if |input| < 10 then Err(EndOfStream)
        else
          var v := LocalVariable(DecodeU16(input[0], input[1]), DecodeU16(input[2], input[3]),
                                 Some(name.text), Some(d), DecodeU16(input[8], input[9]));
          Ok((v, input[10..]))
  }

  /** Whatever the pool, a record read from `input` holds the u16 fields at offsets 0, 2
      and 8, the strings of the Utf8 entries the u16s at offsets 4 and 6 name (the second
      one parsed), and consumes exactly ten bytes; fewer than ten bytes fail. */
  lemma DecodedFields<D>(entries: seq<Entry>, input: seq<uint8>, parse: string -> Result<D>)
    ensures |input| < 6 ==> DecodeRecord(entries, input, parse) == Err(EndOfStream)
    ensures |input| < 10 ==> DecodeRecord(entries, input, parse).Err?
    ensures DecodeRecord(entries, input, parse).Ok? ==>
      var (v, rest) := DecodeRecord(entries, input, parse).value;
      && |input| >= 10 && rest == input[10..]
      && v.startPc == DecodeU16(input[0], input[1])
      && v.length == DecodeU16(input[2], input[3])
      && GetEntry(entries, DecodeU16(input[4], input[5]), Utf8Tag) == Ok(Utf8(v.name.value))
      && GetEntry(entries, DecodeU16(input[6], input[7]), Utf8Tag).Ok?
      && parse(GetEntry(entries, DecodeU16(input[6], input[7]), Utf8Tag).value.text) == Ok(v.descriptor.value)
      && v.index == DecodeU16(input[8], input[9])
  {
  }

  function DecodeRecords<D>(entries: seq<Entry>, input: seq<uint8>, count: nat, parse: string -> Result<D>)
    : (r: Result<(seq<LocalVariable<D>>, seq<uint8>)>)
    ensures r.Ok? ==> |r.value.0| == count && AllPresent(r.value.0) && |r.value.1| + 10 * count == |input|
    decreases count
  {
    if count == 0 then Ok(([], input))
    else
      var v :- DecodeRecord(entries, input, parse);
      Prepend([v.0], DecodeRecords(entries, v.1, count - 1, parse))
  }

  /** `LocalVariableTableAttributeFactory.Parse`: the u16 count, then that many records. */
  function DecodeTable<D>(entries: seq<Entry>, input: seq<uint8>, parse: string -> Result<D>)
    : (r: Result<(seq<LocalVariable<D>>, seq<uint8>)>)
    ensures r.Ok? ==> |input| >= 2 && |r.value.0| == DecodeU16(input[0], input[1]) && AllPresent(r.value.0)
  {
    var size :- NextU16(input);
    DecodeRecords(entries, size.1, size.0, parse)
  }

  // ---------------------------------------------------------------- Layout

  /** The records laid out with the pool indices of their names and descriptors. */
  function RecordsBytes<D>(vs: seq<LocalVariable<D>>, names: seq<uint16>, descriptors: seq<uint16>): (w: seq<uint8>)
    requires |names| == |vs| && |descriptors| == |vs|
    ensures |w| == 10 * |vs|
  {
    if vs == [] then [] else RecordBytes(vs[0], names[0], descriptors[0]) + RecordsBytes(vs[1..], names[1..], descriptors[1..])
  }

  /** Record `i` occupies bytes `10 * i` to `10 * i + 10` of the records' layout. */
  lemma {:induction false} RecordsBytesAt<D>(vs: seq<LocalVariable<D>>, names: seq<uint16>, descriptors: seq<uint16>, i: nat)
    requires |names| == |vs| && |descriptors| == |vs| && i < |vs|
    ensures RecordsBytes(vs, names, descriptors)[10 * i..10 * i + 10] == RecordBytes(vs[i], names[i], descriptors[i])
    decreases i
  {
    var head := RecordBytes(vs[0], names[0], descriptors[0]);
    var tail := RecordsBytes(vs[1..], names[1..], descriptors[1..]);
    if i == 0 {
      assert (head + tail)[..10] == head;
    } else {
      RecordsBytesAt(vs[1..], names[1..], descriptors[1..], i - 1);
      assert (head + tail)[10 * i..10 * i + 10] == tail[10 * (i - 1)..10 * (i - 1) + 10];
    }
  }

  /** The name and the descriptor string of a record sit at its indices in the pool `entries`. */
  predicate RecordAt<D>(entries: seq<Entry>, v: LocalVariable<D>, nameIndex: uint16, descriptorIndex: uint16, render: D -> string) {
    && Present(v)
    && GetEntry(entries, nameIndex, Utf8Tag) == Ok(Utf8(v.name.value))
    && GetEntry(entries, descriptorIndex, Utf8Tag) == Ok(Utf8(render(v.descriptor.value)))
  }

  predicate RecordsAt<D>(entries: seq<Entry>, vs: seq<LocalVariable<D>>, names: seq<uint16>, descriptors: seq<uint16>,
                         render: D -> string)
    requires |names| == |vs| && |descriptors| == |vs|
  {
    forall i :: 0 <= i < |vs| ==> RecordAt(entries, vs[i], names[i], descriptors[i], render)
  }

  lemma RecordAtGrows<D>(written: seq<Entry>, entries: seq<Entry>, v: LocalVariable<D>, n: uint16, d: uint16, render: D -> string)
    requires RecordAt(written, v, n, d, render)
    requires |written| <= |entries| && entries[..|written|] == written
    ensures RecordAt(entries, v, n, d, render)
  {
    GetEntryPrefix(written, entries, n, Utf8Tag);
    GetEntryPrefix(written, entries, d, Utf8Tag);
  }

  /** The descriptor of `v`, if any, reads back from its string. */
  ghost predicate DescriptorRoundTrips<D>(v: LocalVariable<D>, render: D -> string, parse: string -> Result<D>) {
    v.descriptor.Some? ==> parse(render(v.descriptor.value)) == Ok(v.descriptor.value)
  }

  ghost predicate DescriptorsRoundTrip<D>(vs: seq<LocalVariable<D>>, render: D -> string, parse: string -> Result<D>) {
    forall i :: 0 <= i < |vs| ==> DescriptorRoundTrips(vs[i], render, parse)
  }

  /** One record reads back from its bytes when its strings are where its indices point. */
  lemma RecordLayoutRoundTrip<D>(entries: seq<Entry>, v: LocalVariable<D>, n: uint16, d: uint16, rest: seq<uint8>,
                                 render: D -> string, parse: string -> Result<D>)
    requires RecordAt(entries, v, n, d, render) && DescriptorRoundTrips(v, render, parse)
    ensures DecodeRecord(entries, RecordBytes(v, n, d) + rest, parse) == Ok((v, rest))
  {
    var w := RecordBytes(v, n, d);
    var input := w + rest;
    RecordBytesFields(v, n, d);
    DecodeEncodeU16(v.startPc);
    DecodeEncodeU16(v.length);
    DecodeEncodeU16(v.index);
    assert input[10..] == rest;
    assert input[0] == w[0..2][0] && input[1] == w[0..2][1] && input[2] == w[2..4][0] && input[3] == w[2..4][1];
    assert input[4] == w[4] && input[5] == w[5] && input[6] == w[6] && input[7] == w[7];
    assert input[8] == w[8..10][0] && input[9] == w[8..10][1];
    DecodeRecordOf(entries, input, parse, v, render(v.descriptor.value));
  }

  /** `DecodeRecord` once each of its lookups is known, on an input kept abstract. */
  lemma DecodeRecordOf<D>(entries: seq<Entry>, input: seq<uint8>, parse: string -> Result<D>, v: LocalVariable<D>, text: string)
    requires Present(v) && |input| >= 10
    requires v.startPc == DecodeU16(input[0], input[1]) && v.length == DecodeU16(input[2], input[3])
    requires GetEntry(entries, DecodeU16(input[4], input[5]), Utf8Tag) == Ok(Utf8(v.name.value))
    requires GetEntry(entries, DecodeU16(input[6], input[7]), Utf8Tag) == Ok(Utf8(text))
    requires parse(text) == Ok(v.descriptor.value) && v.index == DecodeU16(input[8], input[9])
    ensures DecodeRecord(entries, input, parse) == Ok((v, input[10..]))
  {
  }

  lemma {:induction false} RecordsLayoutRoundTrip<D>(entries: seq<Entry>, vs: seq<LocalVariable<D>>, names: seq<uint16>,
                                                     descriptors: seq<uint16>, rest: seq<uint8>,
                                                     render: D -> string, parse: string -> Result<D>)
    requires |names| == |vs| && |descriptors| == |vs|
    requires RecordsAt(entries, vs, names, descriptors, render) && DescriptorsRoundTrip(vs, render, parse)
    ensures DecodeRecords(entries, RecordsBytes(vs, names, descriptors) + rest, |vs|, parse) == Ok((vs, rest))
    decreases vs
  {
    if vs == [] {
      assert RecordsBytes(vs, names, descriptors) + rest == rest;
    } else {
      var head := RecordBytes(vs[0], names[0], descriptors[0]);
      var tail := RecordsBytes(vs[1..], names[1..], descriptors[1..]);
      assert RecordsBytes(vs, names, descriptors) + rest == head + (tail + rest);
      assert RecordAt(entries, vs[0], names[0], descriptors[0], render) && DescriptorRoundTrips(vs[0], render, parse);
      RecordsAtTail(entries, vs, names, descriptors, render, parse);
      RecordsLayoutRoundTrip(entries, vs[1..], names[1..], descriptors[1..], rest, render, parse);
      RecordsConsRoundTrip(entries, vs[0], names[0], descriptors[0], tail, rest, vs[1..], render, parse);
      assert [vs[0]] + vs[1..] == vs;
    }
  }

  /** One record in front of records that read back reads back with them. */
  lemma RecordsConsRoundTrip<D>(entries: seq<Entry>, v: LocalVariable<D>, n: uint16, d: uint16,
                                tail: seq<uint8>, rest: seq<uint8>, vs: seq<LocalVariable<D>>,
                                render: D -> string, parse: string -> Result<D>)
    requires RecordAt(entries, v, n, d, render) && DescriptorRoundTrips(v, render, parse)
    requires DecodeRecords(entries, tail + rest, |vs|, parse) == Ok((vs, rest))
    ensures DecodeRecords(entries, RecordBytes(v, n, d) + (tail + rest), |vs| + 1, parse) == Ok(([v] + vs, rest))
  {
    RecordLayoutRoundTrip(entries, v, n, d, tail + rest, render, parse);
    DecodeRecordsStep(entries, RecordBytes(v, n, d) + (tail + rest), |vs| + 1, parse);
  }

  /** The layout facts of a list of records hold for its tail. */
  lemma RecordsAtTail<D>(entries: seq<Entry>, vs: seq<LocalVariable<D>>, names: seq<uint16>,
                         descriptors: seq<uint16>, render: D -> string, parse: string -> Result<D>)
    requires |vs| > 0 && |names| == |vs| && |descriptors| == |vs|
    requires RecordsAt(entries, vs, names, descriptors, render) && DescriptorsRoundTrip(vs, render, parse)
    ensures RecordsAt(entries, vs[1..], names[1..], descriptors[1..], render) && DescriptorsRoundTrip(vs[1..], render, parse)
  {
    forall i | 0 <= i < |vs| - 1
      ensures RecordAt(entries, vs[1..][i], names[1..][i], descriptors[1..][i], render)
      ensures DescriptorRoundTrips(vs[1..][i], render, parse)
    {
      assert RecordAt(entries, vs[i + 1], names[i + 1], descriptors[i + 1], render);
      assert DescriptorRoundTrips(vs[i + 1], render, parse);
    }
  }

  // ---------------------------------------------------------------- Through the pool

  /** What `EncodeRecord` writes is the layout of the record under the indices `Find`
      returned, and those indices hold the name and the descriptor string. */
  lemma RecordEncoded<D>(st: PoolState, v: LocalVariable<D>, render: D -> string) returns (n: uint16, d: uint16)
    requires ValidPool(st) && EncodeRecord(st, v, render).1.Ok?
    ensures EncodeRecord(st, v, render).1.value == RecordBytes(v, n, d)
    ensures RecordAt(EncodeRecord(st, v, render).0.entries, v, n, d, render)
  {
    var e1, e2 := Utf8(v.name.value), Utf8(render(v.descriptor.value));
    var (st1, rn) := FindPlainIn(st, e1);
    FindPlainAgrees(st, e1);
    FindPlain(st, e1);
    var (st2, rd) := FindPlainIn(st1, e2);
    FindPlainAgrees(st1, e2);
    FindPlain(st1, e2);
    GetEntryPrefix(st1.entries, st2.entries, rn.value, Utf8Tag);
    n, d := rn.value, rd.value;
  }

  lemma {:induction false} RecordsEncoded<D>(st: PoolState, vs: seq<LocalVariable<D>>, render: D -> string)
    returns (names: seq<uint16>, descriptors: seq<uint16>)
    requires ValidPool(st) && EncodeRecords(st, vs, render).1.Ok?
    ensures |names| == |vs| && |descriptors| == |vs|
    ensures var res := EncodeRecords(st, vs, render);
      res.1.value == RecordsBytes(vs, names, descriptors) && RecordsAt(res.0.entries, vs, names, descriptors, render)
    decreases vs
  {
    if vs == [] {
      names, descriptors := [], [];
    } else {
      var st1 := EncodeRecord(st, vs[0], render).0;
      var n, d := RecordEncoded(st, vs[0], render);
      EncodeRecordValid(st, vs[0], render);
      var ns, ds := RecordsEncoded(st1, vs[1..], render);
      EncodeRecordsValid(st1, vs[1..], render);
      var final := EncodeRecords(st1, vs[1..], render).0;
      RecordAtGrows(st1.entries, final.entries, vs[0], n, d, render);
      names, descriptors := [n] + ns, [d] + ds;
      RecordsAtCons(final.entries, vs[0], n, d, vs[1..], ns, ds, render);
      RecordsBytesCons(vs[0], n, d, vs[1..], ns, ds);
      ConsSplit(vs);
    }
  }

  lemma RecordsAtCons<D>(entries: seq<Entry>, v: LocalVariable<D>, n: uint16, d: uint16,
                         vs: seq<LocalVariable<D>>, ns: seq<uint16>, ds: seq<uint16>, render: D -> string)
    requires |ns| == |vs| && |ds| == |vs|
    requires RecordAt(entries, v, n, d, render) && RecordsAt(entries, vs, ns, ds, render)
    ensures RecordsAt(entries, [v] + vs, [n] + ns, [d] + ds, render)
  {
    forall i | 0 <= i < |vs| + 1
      ensures RecordAt(entries, ([v] + vs)[i], ([n] + ns)[i], ([d] + ds)[i], render)
    {
      if i > 0 {
        assert ([v] + vs)[i] == vs[i - 1] && ([n] + ns)[i] == ns[i - 1] && ([d] + ds)[i] == ds[i - 1];
      }
    }
  }

  lemma RecordsBytesCons<D>(v: LocalVariable<D>, n: uint16, d: uint16,
                            vs: seq<LocalVariable<D>>, ns: seq<uint16>, ds: seq<uint16>)
    requires |ns| == |vs| && |ds| == |vs|
    ensures RecordsBytes([v] + vs, [n] + ns, [d] + ds) == RecordBytes(v, n, d) + RecordsBytes(vs, ns, ds)
  {
    assert ([v] + vs)[1..] == vs && ([n] + ns)[1..] == ns && ([d] + ds)[1..] == ds;
  }

  lemma ConsSplit<T>(s: seq<T>)
    requires s != []
    ensures [s[0]] + s[1..] == s
  {
  }

  /** Record `i` of a saved table: start_pc, length, the indices `Find` returned for its
      name and then its descriptor, and the slot index, each a big-endian u16. */
  lemma EncodedFields<D>(st: PoolState, vs: seq<LocalVariable<D>>, render: D -> string) returns (names: seq<uint16>, descriptors: seq<uint16>)
    requires ValidPool(st) && EncodeTable(st, vs, render).1.Ok?
    ensures |names| == |vs| && |descriptors| == |vs|
    ensures var (st', w) := EncodeTable(st, vs, render);
      forall i :: 0 <= i < |vs| ==>
        && w.value[2 + 10 * i..12 + 10 * i] ==
             EncodeU16(vs[i].startPc) + EncodeU16(vs[i].length) + EncodeU16(names[i])
             + EncodeU16(descriptors[i]) + EncodeU16(vs[i].index)
        && RecordAt(st'.entries, vs[i], names[i], descriptors[i], render)
  {
    names, descriptors := RecordsEncoded(st, vs, render);
    var body := RecordsBytes(vs, names, descriptors);
    var w := EncodeTable(st, vs, render).1.value;
    assert w == EncodeU16(|vs|) + body;
    forall i | 0 <= i < |vs|
      ensures w[2 + 10 * i..12 + 10 * i] == RecordBytes(vs[i], names[i], descriptors[i])
    {
      RecordsBytesAt(vs, names, descriptors, i);
      assert w[2 + 10 * i..12 + 10 * i] == body[10 * i..10 * i + 10];
    }
  }

  /** The name is looked up before the descriptor: for a record whose name and descriptor
      string are both new and distinct, the name gets the next free slot and the
      descriptor the one after. */
  lemma NameFoundBeforeDescriptor<D>(st: PoolState, v: LocalVariable<D>, render: D -> string)
    requires EncodeRecord(st, v, render).1.Ok?
    requires Utf8(v.name.value) !in st.indexOf && Utf8(render(v.descriptor.value)) !in st.indexOf
    requires v.name.value != render(v.descriptor.value)
    ensures var w := EncodeRecord(st, v, render).1.value;
      DecodeU16(w[4], w[5]) == |st.entries| + 1 && DecodeU16(w[6], w[7]) == |st.entries| + 2
  {
    var e1, e2 := Utf8(v.name.value), Utf8(render(v.descriptor.value));
    var (st1, n) := Append(st, e1);
    assert |st1.entries| == |st.entries| + 1 && e2 !in st1.indexOf;
    var (st2, d) := Append(st1, e2);
    assert EncodeRecord(st, v, render).1.value == RecordBytes(v, n.value, d.value);
    RecordBytesFields(v, n.value, d.value);
  }

  /** `Parse(Save(table))`: with the pool the writer left (or any pool that starts with
      it), reading the saved bytes gives back every record and consumes exactly them,
      provided each descriptor reads back from its string. */
  lemma TableRoundTrip<D>(st: PoolState, vs: seq<LocalVariable<D>>, entries: seq<Entry>, rest: seq<uint8>,
                          render: D -> string, parse: string -> Result<D>)
    requires ValidPool(st) && EncodeTable(st, vs, render).1.Ok?
    requires Covers(entries, EncodeTable(st, vs, render).0)
    requires DescriptorsRoundTrip(vs, render, parse)
    ensures DecodeTable(entries, EncodeTable(st, vs, render).1.value + rest, parse) == Ok((vs, rest))
  {
    var names, descriptors := RecordsEncoded(st, vs, render);
    var final := EncodeRecords(st, vs, render);
    assert EncodeTable(st, vs, render) == Prefixed(EncodeU16(|vs|), final);
    RecordsAtGrow(final.0.entries, entries, vs, names, descriptors, render);
    TableLayoutRoundTrip(entries, vs, names, descriptors, rest, render, parse);
  }

  lemma RecordsAtGrow<D>(written: seq<Entry>, entries: seq<Entry>, vs: seq<LocalVariable<D>>,
                         names: seq<uint16>, descriptors: seq<uint16>, render: D -> string)
    requires |names| == |vs| && |descriptors| == |vs|
    requires RecordsAt(written, vs, names, descriptors, render)
    requires |written| <= |entries| && entries[..|written|] == written
    ensures RecordsAt(entries, vs, names, descriptors, render)
  {
    forall i | 0 <= i < |vs|
      ensures RecordAt(entries, vs[i], names[i], descriptors[i], render)
    {
      RecordAtGrows(written, entries, vs[i], names[i], descriptors[i], render);
    }
  }

  /** A table reads back from its count and its records' layout. */
  lemma TableLayoutRoundTrip<D>(entries: seq<Entry>, vs: seq<LocalVariable<D>>, names: seq<uint16>,
                                descriptors: seq<uint16>, rest: seq<uint8>,
                                render: D -> string, parse: string -> Result<D>)
    requires |vs| <= 0xFFFF && |names| == |vs| && |descriptors| == |vs|
    requires RecordsAt(entries, vs, names, descriptors, render) && DescriptorsRoundTrip(vs, render, parse)
    ensures DecodeTable(entries, EncodeU16(|vs|) + RecordsBytes(vs, names, descriptors) + rest, parse) == Ok((vs, rest))
  {
    var body := RecordsBytes(vs, names, descriptors);
    RecordsLayoutRoundTrip(entries, vs, names, descriptors, rest, render, parse);
    assert EncodeU16(|vs|) + body + rest == EncodeU16(|vs|) + (body + rest);
    NextU16Prefix(|vs|, body + rest);
  }

  // ---------------------------------------------------------------- Save and Parse

  /** The body of the `foreach` of `Save`. */
  method WriteRecord<D>(pool: ConstantPool, v: LocalVariable<D>, render: D -> string) returns (r: Result<seq<uint8>>)
    requires pool.Valid()
    modifies pool
    ensures (pool.State(), r) == EncodeRecord(old(pool.State()), v, render)
    ensures pool.Valid()
  {
    if v.name.None? {
      return Err(NullReference);
    }
    FindPlainAgrees(pool.State(), Utf8(v.name.value));
    var nameIndex := pool.Find(Utf8(v.name.value));
    if nameIndex.Err? {
      return Err(nameIndex.error);
    }
    if v.descriptor.None? {
      return Err(NullReference);
    }
    FindPlainAgrees(pool.State(), Utf8(render(v.descriptor.value)));
    var descriptorIndex := pool.Find(Utf8(render(v.descriptor.value)));
    if descriptorIndex.Err? {
      return Err(descriptorIndex.error);
    }
    return Ok(EncodeU16(v.startPc) + EncodeU16(v.length) + EncodeU16(nameIndex.value)
              + EncodeU16(descriptorIndex.value) + EncodeU16(v.index));
  }

  /** `LocalVariableTableAttribute.Save`. */
  method Save<D>(pool: ConstantPool, vs: seq<LocalVariable<D>>, render: D -> string) returns (r: Result<seq<uint8>>)
    requires pool.Valid()
    modifies pool
    ensures (pool.State(), r) == EncodeTable(old(pool.State()), vs, render)
    ensures pool.Valid()
  {
    if |vs| > 0xFFFF {
      return Err(ArgumentOutOfRange);
    }
    var out := EncodeU16(|vs|);
    var i := 0;
    assert vs[0..] == vs;
    while i < |vs|
      invariant i <= |vs| && pool.Valid()
      invariant EncodeTable(old(pool.State()), vs, render) == Prefixed(out, EncodeRecords(pool.State(), vs[i..], render))
    {
      assert vs[i..][0] == vs[i] && vs[i..][1..] == vs[i + 1..];
      var w := WriteRecord(pool, vs[i], render);
      if w.Err? {
        return w;
      }
      PrefixedTwice(out, w.value, EncodeRecords(pool.State(), vs[i + 1..], render));
      out := out + w.value;
      i := i + 1;
    }
    assert out + [] == out;
    return Ok(out);
  }

  /** The object initializer in the loop of `Parse`, reading its fields one after the other. */
  method ReadRecord<D>(pool: ConstantPool, input: seq<uint8>, parse: string -> Result<D>)
    returns (r: Result<(LocalVariable<D>, seq<uint8>)>)
    ensures r == DecodeRecord(pool.entries, input, parse)
  {
    NextU16Within(input, 0);
    var startPc :- NextU16(input);
    NextU16Within(input, 2);
    var length :- NextU16(startPc.1);
    NextU16Within(input, 4);
    var nameIndex :- NextU16(length.1);
    var name :- pool.GetEntry(nameIndex.0, Utf8Tag);
    NextU16Within(input, 6);
    var descriptorIndex :- NextU16(nameIndex.1);
    var descriptor :- pool.GetEntry(descriptorIndex.0, Utf8Tag);
    var d :- parse(descriptor.text);
    NextU16Within(input, 8);
    var index :- NextU16(descriptorIndex.1);
    return Ok((LocalVariable(startPc.0, length.0, Some(name.text), Some(d), index.0), index.1));
  }

  /** One turn of the loop of `Parse`. */
  lemma DecodeRecordsStep<D>(entries: seq<Entry>, input: seq<uint8>, count: nat, parse: string -> Result<D>)
    requires count > 0
    ensures var v := DecodeRecord(entries, input, parse);
      && (v.Err? ==> DecodeRecords(entries, input, count, parse) == Err(v.error))
      && (v.Ok? ==> DecodeRecords(entries, input, count, parse)
                      == Prepend([v.value.0], DecodeRecords(entries, v.value.1, count - 1, parse)))
  {
  }

  /** One turn of the loop of `Parse`, stated against the records still to read. */
  method ReadNextRecord<D>(pool: ConstantPool, input: seq<uint8>, count: nat, parse: string -> Result<D>)
    returns (r: Result<(LocalVariable<D>, seq<uint8>)>)
    requires count > 0
    ensures r.Err? ==> DecodeRecords(pool.entries, input, count, parse) == Err(r.error)
    ensures r.Ok? ==> DecodeRecords(pool.entries, input, count, parse)
                        == Prepend([r.value.0], DecodeRecords(pool.entries, r.value.1, count - 1, parse))
  {
    r := ReadRecord(pool, input, parse);
    DecodeRecordsStep(pool.entries, input, count, parse);
  }

  /** The invariant of the loop of `Parse` after one more record. */
  lemma PrependStep<T>(total: Result<(seq<T>, seq<uint8>)>, front: seq<T>, x: T,
                       before: Result<(seq<T>, seq<uint8>)>, after: Result<(seq<T>, seq<uint8>)>)
    requires total == Prepend(front, before) && before == Prepend([x], after)
    ensures total == Prepend(front + [x], after)
  {
    PrependTwice(front, [x], after);
  }

  /** The loop of `LocalVariableTableAttributeFactory.Parse`: `count` records, in order. */
  method ReadRecords<D>(pool: ConstantPool, input: seq<uint8>, count: nat, parse: string -> Result<D>)
    returns (r: Result<(seq<LocalVariable<D>>, seq<uint8>)>)
    ensures r == DecodeRecords(pool.entries, input, count, parse)
  {
    var table: seq<LocalVariable<D>> := [];
    var rest := input;
    var left := count;
    ghost var entries := pool.entries;
    ghost var total := DecodeRecords(entries, input, count, parse);
    ghost var remaining := total;
    PrependNothing(total);
    while left > 0
      invariant pool.entries == entries
      invariant remaining == DecodeRecords(entries, rest, left, parse)
      invariant total == Prepend(table, remaining)
    {
      var v := ReadNextRecord(pool, rest, left, parse);
      if v.Err? {
        return Err(v.error);
      }
      ghost var after := DecodeRecords(entries, v.value.1, left - 1, parse);
      PrependStep(total, table, v.value.0, remaining, after);
      table := table + [v.value.0];
      rest := v.value.1;
      left := left - 1;
      remaining := after;
    }
    assert table + [] == table;
    return Ok((table, rest));
  }

  /** `LocalVariableTableAttributeFactory.Parse`: the u16 count, then the records. */
  method Parse<D>(pool: ConstantPool, input: seq<uint8>, parse: string -> Result<D>)
    returns (r: Result<(seq<LocalVariable<D>>, seq<uint8>)>)
    ensures r == DecodeTable(pool.entries, input, parse)
  {
    var size :- NextU16(input);
    r := ReadRecords(pool, size.1, size.0, parse);
  }
}
