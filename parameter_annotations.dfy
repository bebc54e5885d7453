/**
  The `RuntimeInvisibleParameterAnnotations` attribute (section 4.7.19 of the
  JVMS): a one-byte parameter count, then per parameter a u16 annotation count
  followed by that many annotations.

  `AnnotationNode` is not part of this model: an annotation is a value of the
  type parameter `A`, written through `write` (its `Write`, which may extend the
  constant pool and may fail) and read through `read` (its `Parse`, which may
  fail and consumes what it reads).
*/
module ParameterAnnotationsAttributes {
  import opened Wrappers
  import opened Bytes
  import opened ConstantPools

  /** `ParameterAnnotations`: the annotations of one parameter, in order. */
  datatype ParameterAnnotations<A> = ParameterAnnotations(annotations: seq<A>)

  /** Every parameter has at most 65535 annotations, the most a u16 count can say. */
  predicate CountsFit<A(!new)>(ps: seq<ParameterAnnotations<A>>) {
    forall i :: 0 <= i < |ps| ==> |ps[i].annotations| <= 0xFFFF
  }

  lemma CountsFitCons<A(!new)>(ps: seq<ParameterAnnotations<A>>)
    requires ps != []
    ensures CountsFit(ps) <==> |ps[0].annotations| <= 0xFFFF && CountsFit(ps[1..])
  {
    if |ps[0].annotations| <= 0xFFFF && CountsFit(ps[1..]) {
      forall i | 0 <= i < |ps|
        ensures |ps[i].annotations| <= 0xFFFF
      {
        if i > 0 {
          assert ps[i] == ps[1..][i - 1];
        }
      }
    }
  }

  // ---------------------------------------------------------------- Save

  /** `AnnotationNode.Write(stream, writerState)`: the bytes of one annotation, written
      against the pool, which it may extend (its type and element names are found there)
      and which may make it fail. */
  type Writer<!A> = (PoolState, A) -> (PoolState, Result<seq<uint8>>)

  /** A writer that never fails. */
  ghost predicate Infallible<A(!new)>(write: Writer<A>) {
    forall st: PoolState, a: A :: write(st, a).1.Ok?
  }

  /** A writer that keeps a valid pool valid and only appends to it, as `Find` does. */
  ghost predicate KeepsPool<A(!new)>(write: Writer<A>) {
    forall st: PoolState, a: A :: ValidPool(st) ==> ValidPool(write(st, a).0) && Extends(st, write(st, a).0)
  }

  /** `write` fails with `e` on `a` against some pool. */
  ghost predicate CanFailWith<A(!new)>(write: Writer<A>, a: A, e: Error) {
    exists st: PoolState :: write(st, a).1 == Err(e)
  }

  /** The inner `foreach` of `Save`: each annotation is written against the pool the one
      before it left, stopping at the first failure. */
  function EncodeAnnotations<A(!new)>(st: PoolState, anns: seq<A>, write: Writer<A>): (res: (PoolState, Result<seq<uint8>>))
    ensures res.1.Err? ==> exists i :: 0 <= i < |anns| && CanFailWith(write, anns[i], res.1.error)
    ensures Infallible(write) ==> res.1.Ok?
    decreases anns
  {
    if anns == [] then (st, Ok([]))
    else
      var (st1, w) := write(st, anns[0]);
      if w.Err? then
        assert CanFailWith(write, anns[0], w.error);
        (st1, w)
      else
        var tail := EncodeAnnotations(st1, anns[1..], write);
        assert tail.1.Err? ==> exists i :: 0 <= i < |anns[1..]| && CanFailWith(write, anns[1..][i], tail.1.error);
        assert forall i :: 0 <= i < |anns[1..]| ==> anns[1..][i] == anns[i + 1];
        Prefixed(w.value, tail)
  }

  /** Writing two runs of annotations is writing the first, then the second against the
      pool the first left; a failure in the first run ends it. */
  lemma {:induction false} EncodeAnnotationsAppend<A(!new)>(st: PoolState, xs: seq<A>, ys: seq<A>, write: Writer<A>)
    ensures EncodeAnnotations(st, xs + ys, write) ==
      (var r := EncodeAnnotations(st, xs, write);
       if r.1.Err? then r else Prefixed(r.1.value, EncodeAnnotations(r.0, ys, write)))
    decreases xs
  {
    if xs == [] {
      assert xs + ys == ys;
      PrefixedNothing(EncodeAnnotations(st, ys, write));
    } else {
      assert (xs + ys)[0] == xs[0] && (xs + ys)[1..] == xs[1..] + ys;
      var (st1, w) := write(st, xs[0]);
      if w.Ok? {
        EncodeAnnotationsAppend(st1, xs[1..], ys, write);
        var r := EncodeAnnotations(st1, xs[1..], write);
        if r.1.Ok? {
          PrefixedTwice(w.value, r.1.value, EncodeAnnotations(r.0, ys, write));
        }
      }
    }
  }

  /** The bytes of one parameter: its u16 annotation count, then the annotations. More
      than 65535 annotations are rejected before any annotation touches the pool. */
  function EncodeParameter<A(!new)>(st: PoolState, p: ParameterAnnotations<A>, write: Writer<A>): (res: (PoolState, Result<seq<uint8>>))
    ensures |p.annotations| > 0xFFFF ==> res == (st, Err(ArgumentOutOfRange))
    ensures res.1.Ok? <==> |p.annotations| <= 0xFFFF && EncodeAnnotations(st, p.annotations, write).1.Ok?
    ensures res.1.Ok? ==> |res.1.value| >= 2 && res.1.value[..2] == EncodeU16(|p.annotations|)
                          && res.1.value[2..] == EncodeAnnotations(st, p.annotations, write).1.value
    ensures |p.annotations| <= 0xFFFF ==> res.0 == EncodeAnnotations(st, p.annotations, write).0
  {
    if |p.annotations| > 0xFFFF then (st, Err(ArgumentOutOfRange))
    else Prefixed(EncodeU16(|p.annotations|), EncodeAnnotations(st, p.annotations, write))
  }

  /** The outer `foreach` of `Save`: the parameters in list order, each against the pool
      the one before it left, stopping at the first one that fails. */
  function EncodeParameters<A(!new)>(st: PoolState, ps: seq<ParameterAnnotations<A>>, write: Writer<A>): (res: (PoolState, Result<seq<uint8>>))
    ensures res.1.Ok? ==> CountsFit(ps)
    ensures Infallible(write) ==> (res.1.Ok? <==> CountsFit(ps))
    decreases ps
  {
    if ps == [] then (st, Ok([]))
    else
      CountsFitCons(ps);
      var (st1, w) := EncodeParameter(st, ps[0], write);
      if w.Err? then (st1, w)
      else Prefixed(w.value, EncodeParameters(st1, ps[1..], write))
  }

  /** `Save`: more than 255 parameters are rejected before anything is written; otherwise
      the count byte, then the parameters. It succeeds only when every count fits, and
      with a writer that cannot fail it succeeds exactly then. */
  function EncodeAttribute<A(!new)>(st: PoolState, ps: seq<ParameterAnnotations<A>>, write: Writer<A>): (res: (PoolState, Result<seq<uint8>>))
    ensures |ps| > 0xFF ==> res == (st, Err(ArgumentOutOfRange))
    ensures res.1.Ok? ==> |ps| <= 0xFF && CountsFit(ps) && |res.1.value| >= 1 && res.1.value[0] == |ps|
    ensures Infallible(write) ==> (res.1.Ok? <==> |ps| <= 0xFF && CountsFit(ps))
  {
    if |ps| > 0xFF then (st, Err(ArgumentOutOfRange))
    else Prefixed([|ps| as uint8], EncodeParameters(st, ps, write))
  }

  /** Without parameters the attribute is the single byte 0 and the pool is untouched. */
  lemma NoParameters<A(!new)>(st: PoolState, write: Writer<A>)
    ensures EncodeAttribute(st, [], write) == (st, Ok([0]))
  {
    assert [0 as uint8] + [] == [0];
  }

  /** Parameters are written in list order: `xs + ys` writes `xs`, then `ys` against the
      pool `xs` left, and the first failure wins. */
  lemma {:induction false} EncodeParametersAppend<A(!new)>(st: PoolState, xs: seq<ParameterAnnotations<A>>,
                                                     ys: seq<ParameterAnnotations<A>>, write: Writer<A>)
    ensures EncodeParameters(st, xs + ys, write) ==
      (var r := EncodeParameters(st, xs, write);
       if r.1.Err? then r else Prefixed(r.1.value, EncodeParameters(r.0, ys, write)))
    decreases xs
  {
    if xs == [] {
      assert xs + ys == ys;
      PrefixedNothing(EncodeParameters(st, ys, write));
    } else {
      assert (xs + ys)[0] == xs[0] && (xs + ys)[1..] == xs[1..] + ys;
      var (st1, w) := EncodeParameter(st, xs[0], write);
      if w.Ok? {
        EncodeParametersAppend(st1, xs[1..], ys, write);
        var r := EncodeParameters(st1, xs[1..], write);
        if r.1.Ok? {
          PrefixedTwice(w.value, r.1.value, EncodeParameters(r.0, ys, write));
        }
      }
    }
  }

  /** Some annotation of some parameter of `ps` fails with `e` against some pool. */
  ghost predicate SomeWriteFails<A(!new)>(ps: seq<ParameterAnnotations<A>>, write: Writer<A>, e: Error) {
    exists i, j :: 0 <= i < |ps| && 0 <= j < |ps[i].annotations| && CanFailWith(write, ps[i].annotations[j], e)
  }

  lemma {:induction false} EncodeParametersErrors<A(!new)>(st: PoolState, ps: seq<ParameterAnnotations<A>>, write: Writer<A>)
    ensures var r := EncodeParameters(st, ps, write).1;
      r.Err? ==> (r.error == ArgumentOutOfRange && !CountsFit(ps)) || SomeWriteFails(ps, write, r.error)
    decreases ps
  {
    if ps != [] {
      CountsFitCons(ps);
      var (st1, w) := EncodeParameter(st, ps[0], write);
      var r := EncodeParameters(st, ps, write).1;
      if w.Err? {
        if |ps[0].annotations| <= 0xFFFF {
          var i :| 0 <= i < |ps[0].annotations| && CanFailWith(write, ps[0].annotations[i], w.error);
          assert SomeWriteFails(ps, write, w.error) by {
            assert 0 <= 0 < |ps| && 0 <= i < |ps[0].annotations|;
          }
        }
      } else if r.Err? {
        EncodeParametersErrors(st1, ps[1..], write);
        if SomeWriteFails(ps[1..], write, r.error) {
          var i, j :| 0 <= i < |ps[1..]| && 0 <= j < |ps[1..][i].annotations|
                     && CanFailWith(write, ps[1..][i].annotations[j], r.error);
          assert ps[1..][i] == ps[i + 1];
          assert SomeWriteFails(ps, write, r.error) by {
            assert 0 <= i + 1 < |ps| && 0 <= j < |ps[i + 1].annotations|;
          }
        }
      }
    }
  }

  /** Save fails only with `ArgumentOutOfRange`, when there are more than 255 parameters
      or a parameter has more than 65535 annotations, or with a failure of the annotation
      writer on one of the annotations. */
  lemma SaveErrors<A(!new)>(st: PoolState, ps: seq<ParameterAnnotations<A>>, write: Writer<A>)
    ensures var r := EncodeAttribute(st, ps, write).1;
      r.Err? ==> (r.error == ArgumentOutOfRange && (|ps| > 0xFF || !CountsFit(ps))) || SomeWriteFails(ps, write, r.error)
  {
    EncodeParametersErrors(st, ps, write);
  }

  lemma {:induction false} EncodeParametersValid<A(!new)>(st: PoolState, ps: seq<ParameterAnnotations<A>>, write: Writer<A>)
    requires ValidPool(st) && KeepsPool(write)
    ensures ValidPool(EncodeParameters(st, ps, write).0) && Extends(st, EncodeParameters(st, ps, write).0)
    decreases ps
  {
    if ps == [] {
      ExtendsItself(st);
    } else {
      EncodeAnnotationsValid(st, ps[0].annotations, write);
      var (st1, w) := EncodeParameter(st, ps[0], write);
      if |ps[0].annotations| > 0xFFFF {
        ExtendsItself(st);
      } else if w.Ok? {
        EncodeParametersValid(st1, ps[1..], write);
        ExtendsTransitive(st, st1, EncodeParameters(st1, ps[1..], write).0);
      }
    }
  }

  lemma {:induction false} EncodeAnnotationsValid<A(!new)>(st: PoolState, anns: seq<A>, write: Writer<A>)
    requires ValidPool(st) && KeepsPool(write)
    ensures ValidPool(EncodeAnnotations(st, anns, write).0) && Extends(st, EncodeAnnotations(st, anns, write).0)
    decreases anns
  {
    if anns == [] {
      ExtendsItself(st);
    } else {
      var (st1, w) := write(st, anns[0]);
      if w.Ok? {
        EncodeAnnotationsValid(st1, anns[1..], write);
        ExtendsTransitive(st, st1, EncodeAnnotations(st1, anns[1..], write).0);
      }
    }
  }

  /** With an annotation writer that keeps the pool valid and only appends to it, so does
      Save, whether it succeeds or not. */
  lemma EncodeAttributeValid<A(!new)>(st: PoolState, ps: seq<ParameterAnnotations<A>>, write: Writer<A>)
    requires ValidPool(st) && KeepsPool(write)
    ensures ValidPool(EncodeAttribute(st, ps, write).0) && Extends(st, EncodeAttribute(st, ps, write).0)
  {
    if |ps| > 0xFF {
      ExtendsItself(st);
    } else {
      EncodeParametersValid(st, ps, write);
    }
  }

  // ---------------------------------------------------------------- Parse

  /** The inner loop of `Parse`: `count` annotations, each read by `AnnotationNode.Parse`. */
  function DecodeAnnotations<A(!new)>(input: seq<uint8>, count: nat, read: seq<uint8> -> Result<(A, seq<uint8>)>)
    : (r: Result<(seq<A>, seq<uint8>)>)
    ensures r.Ok? ==> |r.value.0| == count
    decreases count
  {
    if count == 0 then Ok(([], input))
    else
      var a :- read(input);
      Prepend([a.0], DecodeAnnotations(a.1, count - 1, read))
  }

  /** One turn of the outer loop of `Parse`: the u16 count, then that many annotations. */
  function DecodeParameter<A(!new)>(input: seq<uint8>, read: seq<uint8> -> Result<(A, seq<uint8>)>)
    : (r: Result<(ParameterAnnotations<A>, seq<uint8>)>)
    ensures |input| < 2 ==> r == Err(EndOfStream)
    ensures r.Ok? ==> |r.value.0.annotations| == DecodeU16(input[0], input[1])
  {
    var count :- NextU16(input);
    var anns :- DecodeAnnotations(count.1, count.0, read);
    Ok((ParameterAnnotations(anns.0), anns.1))
  }

  function DecodeParameters<A(!new)>(input: seq<uint8>, count: nat, read: seq<uint8> -> Result<(A, seq<uint8>)>)
    : (r: Result<(seq<ParameterAnnotations<A>>, seq<uint8>)>)
    ensures r.Ok? ==> |r.value.0| == count
    decreases count
  {
    if count == 0 then Ok(([], input))
    else
      var p :- DecodeParameter(input, read);
      Prepend([p.0], DecodeParameters(p.1, count - 1, read))
  }

  /** `RuntimeInvisibleParameterAnnotationsAttributeFactory.Parse`: the count is read
      with `(byte) ReadByte()`, so on an empty stream it is 255, and the first u16 read
      then fails. */
  function DecodeAttribute<A(!new)>(input: seq<uint8>, read: seq<uint8> -> Result<(A, seq<uint8>)>)
    : (r: Result<(seq<ParameterAnnotations<A>>, seq<uint8>)>)
    ensures |input| >= 1 && r.Ok? ==> |r.value.0| == input[0]
  {
    var (b, rest) := NextRawByte(input);
    DecodeParameters(rest, ToByte(b), read)
  }

  /** An empty attribute body does not read as zero parameters: it reads as 255 of them,
      and the first annotation count is read past the end. */
  lemma EmptyInputFails<A(!new)>(read: seq<uint8> -> Result<(A, seq<uint8>)>)
    ensures DecodeAttribute([], read) == Err(EndOfStream)
  {
    assert NextRawByte([]) == (-1, []);
    assert ToByte(-1) == 255;
  }

  // ---------------------------------------------------------------- Round trip

  /** `read` gives back `a` from whatever `write` wrote for it against any pool, and consumes exactly that. */
  ghost predicate ReadsBack<A(!new)>(a: A, write: Writer<A>, read: seq<uint8> -> Result<(A, seq<uint8>)>) {
    forall st: PoolState, rest: seq<uint8> ::
      write(st, a).1.Ok? ==> read(write(st, a).1.value + rest) == Ok((a, rest))
  }

  ghost predicate AllReadBack<A(!new)>(anns: seq<A>, write: Writer<A>, read: seq<uint8> -> Result<(A, seq<uint8>)>) {
    forall i :: 0 <= i < |anns| ==> ReadsBack(anns[i], write, read)
  }

  ghost predicate ParametersReadBack<A(!new)>(ps: seq<ParameterAnnotations<A>>, write: Writer<A>,
                                        read: seq<uint8> -> Result<(A, seq<uint8>)>) {
    forall i :: 0 <= i < |ps| ==> AllReadBack(ps[i].annotations, write, read)
  }

  lemma {:induction false} AnnotationsRoundTrip<A(!new)>(st: PoolState, anns: seq<A>, rest: seq<uint8>, write: Writer<A>,
                                                   read: seq<uint8> -> Result<(A, seq<uint8>)>)
    requires EncodeAnnotations(st, anns, write).1.Ok? && AllReadBack(anns, write, read)
    ensures DecodeAnnotations(EncodeAnnotations(st, anns, write).1.value + rest, |anns|, read) == Ok((anns, rest))
    decreases anns
  {
    if anns == [] {
      assert EncodeAnnotations(st, anns, write).1.value + rest == rest;
    } else {
      var (st1, w) := write(st, anns[0]);
      var tail := EncodeAnnotations(st1, anns[1..], write).1.value;
      assert EncodeAnnotations(st, anns, write).1.value + rest == w.value + (tail + rest);
      assert ReadsBack(anns[0], write, read);
      assert read(w.value + (tail + rest)) == Ok((anns[0], tail + rest));
      assert AllReadBack(anns[1..], write, read) by {
        forall i | 0 <= i < |anns| - 1
          ensures ReadsBack(anns[1..][i], write, read)
        {
          assert anns[1..][i] == anns[i + 1];
        }
      }
      AnnotationsRoundTrip(st1, anns[1..], rest, write, read);
      assert DecodeAnnotations(EncodeAnnotations(st, anns, write).1.value + rest, |anns|, read)
          == Prepend([anns[0]], DecodeAnnotations(tail + rest, |anns[1..]|, read));
      assert [anns[0]] + anns[1..] == anns;
    }
  }

  lemma ParameterRoundTrip<A(!new)>(st: PoolState, p: ParameterAnnotations<A>, rest: seq<uint8>, write: Writer<A>,
                              read: seq<uint8> -> Result<(A, seq<uint8>)>)
    requires EncodeParameter(st, p, write).1.Ok? && AllReadBack(p.annotations, write, read)
    ensures DecodeParameter(EncodeParameter(st, p, write).1.value + rest, read) == Ok((p, rest))
  {
    var body := EncodeAnnotations(st, p.annotations, write).1.value;
    assert EncodeParameter(st, p, write).1.value + rest == EncodeU16(|p.annotations|) + (body + rest);
    NextU16Prefix(|p.annotations|, body + rest);
    AnnotationsRoundTrip(st, p.annotations, rest, write, read);
  }

  lemma {:induction false} ParametersRoundTrip<A(!new)>(st: PoolState, ps: seq<ParameterAnnotations<A>>, rest: seq<uint8>,
                                                  write: Writer<A>, read: seq<uint8> -> Result<(A, seq<uint8>)>)
    requires EncodeParameters(st, ps, write).1.Ok? && ParametersReadBack(ps, write, read)
    ensures DecodeParameters(EncodeParameters(st, ps, write).1.value + rest, |ps|, read) == Ok((ps, rest))
    decreases ps
  {
    if ps == [] {
      assert EncodeParameters(st, ps, write).1.value + rest == rest;
    } else {
      var (st1, w) := EncodeParameter(st, ps[0], write);
      var head := w.value;
      var tail := EncodeParameters(st1, ps[1..], write).1.value;
      assert EncodeParameters(st, ps, write).1.value + rest == head + (tail + rest);
      assert AllReadBack(ps[0].annotations, write, read);
      ParameterRoundTrip(st, ps[0], tail + rest, write, read);
      assert ParametersReadBack(ps[1..], write, read) by {
        forall i | 0 <= i < |ps| - 1
          ensures AllReadBack(ps[1..][i].annotations, write, read)
        {
          assert ps[1..][i] == ps[i + 1];
        }
      }
      ParametersRoundTrip(st1, ps[1..], rest, write, read);
      assert DecodeParameters(EncodeParameters(st, ps, write).1.value + rest, |ps|, read)
          == Prepend([ps[0]], DecodeParameters(tail + rest, |ps[1..]|, read));
      assert [ps[0]] + ps[1..] == ps;
    }
  }

  /** `Parse(Save(attribute))`: every parameter comes back with its annotations, in order,
      and exactly the saved bytes are consumed, provided each annotation reads back. */
  lemma AttributeRoundTrip<A(!new)>(st: PoolState, ps: seq<ParameterAnnotations<A>>, rest: seq<uint8>, write: Writer<A>,
                              read: seq<uint8> -> Result<(A, seq<uint8>)>)
    requires EncodeAttribute(st, ps, write).1.Ok? && ParametersReadBack(ps, write, read)
    ensures DecodeAttribute(EncodeAttribute(st, ps, write).1.value + rest, read) == Ok((ps, rest))
  {
    var body := EncodeParameters(st, ps, write).1.value;
    var input := [|ps| as uint8] + (body + rest);
    assert EncodeAttribute(st, ps, write).1.value + rest == input;
    assert input[1..] == body + rest;
    assert NextRawByte(input) == (|ps|, body + rest);
    assert ToByte(|ps|) == |ps|;
    ParametersRoundTrip(st, ps, rest, write, read);
    assert DecodeAttribute(input, read) == DecodeParameters(body + rest, |ps|, read);
  }

  /** The counts survive the round trip: as many parameters, each with as many annotations. */
  lemma CountsRoundTrip<A(!new)>(st: PoolState, ps: seq<ParameterAnnotations<A>>, write: Writer<A>,
                           read: seq<uint8> -> Result<(A, seq<uint8>)>)
    requires EncodeAttribute(st, ps, write).1.Ok? && ParametersReadBack(ps, write, read)
    ensures var r := DecodeAttribute(EncodeAttribute(st, ps, write).1.value, read);
      && r.Ok? && |r.value.0| == |ps|
      && forall i :: 0 <= i < |ps| ==> |r.value.0[i].annotations| == |ps[i].annotations|
  {
    var w := EncodeAttribute(st, ps, write).1.value;
    assert w + [] == w;
    AttributeRoundTrip(st, ps, [], write, read);
  }

  // ---------------------------------------------------------------- The attribute

  class RuntimeInvisibleParameterAnnotationsAttribute<A(!new)> {
    var parameters: seq<ParameterAnnotations<A>>

    constructor ()
      ensures parameters == []
    {
      parameters := [];
    }

    /** `Save(writerState, scope)`, its two `foreach` loops writing into one stream; the
        annotations are written through `writerState`'s pool. */
    method Save(pool: ConstantPool, write: Writer<A>) returns (r: Result<seq<uint8>>)
      modifies pool
      ensures (pool.State(), r) == EncodeAttribute(old(pool.State()), parameters, write)
      ensures old(pool.Valid()) && KeepsPool(write) ==> pool.Valid()
    {
      ghost var st0 := pool.State();
      if pool.Valid() && KeepsPool(write) {
        EncodeAttributeValid(st0, parameters, write);
      }
      if |parameters| > 0xFF {
        return Err(ArgumentOutOfRange);
      }
      var out := [|parameters| as uint8];
      var i := 0;
      assert parameters[0..] == parameters;
      while i < |parameters|
        invariant i <= |parameters|
        invariant EncodeAttribute(st0, parameters, write) == Prefixed(out, EncodeParameters(pool.State(), parameters[i..], write))
      {
        var p := parameters[i];
        assert parameters[i..][0] == p && parameters[i..][1..] == parameters[i + 1..];
        if |p.annotations| > 0xFFFF {
          return Err(ArgumentOutOfRange);
        }
        var w := WriteAnnotations(pool, p.annotations, write);
        if w.Err? {
          return w;
        }
        var bytes := EncodeU16(|p.annotations|) + w.value;
        PrefixedTwice(out, bytes, EncodeParameters(pool.State(), parameters[i + 1..], write));
        out := out + bytes;
        i := i + 1;
      }
      assert out + [] == out;
      return Ok(out);
    }
  }

  /** The inner `foreach` of `Save`: each `annotation.Write` leaves the pool it extended. */
  method WriteAnnotations<A(!new)>(pool: ConstantPool, anns: seq<A>, write: Writer<A>) returns (r: Result<seq<uint8>>)
    modifies pool
    ensures (pool.State(), r) == EncodeAnnotations(old(pool.State()), anns, write)
  {
    var out: seq<uint8> := [];
    var j := 0;
    assert anns[0..] == anns;
    PrefixedNothing(EncodeAnnotations(pool.State(), anns, write));
    while j < |anns|
      invariant j <= |anns|
      invariant EncodeAnnotations(old(pool.State()), anns, write) == Prefixed(out, EncodeAnnotations(pool.State(), anns[j..], write))
    {
      assert anns[j..][0] == anns[j] && anns[j..][1..] == anns[j + 1..];
      var written := write(pool.State(), anns[j]);
      pool.entries, pool.indexOf := written.0.entries, written.0.indexOf;
      if written.1.Err? {
        return written.1;
      }
      PrefixedTwice(out, written.1.value, EncodeAnnotations(written.0, anns[j + 1..], write));
      out := out + written.1.value;
      j := j + 1;
    }
    assert out + [] == out;
    return Ok(out);
  }

  /** The inner loop of `Parse`, appending each annotation `AnnotationNode.Parse` returns. */
  method ReadAnnotations<A(!new)>(input: seq<uint8>, count: nat, read: seq<uint8> -> Result<(A, seq<uint8>)>)
    returns (r: Result<(seq<A>, seq<uint8>)>)
    ensures r == DecodeAnnotations(input, count, read)
  {
    var anns: seq<A> := [];
    var rest := input;
    var j: nat := 0;
    ghost var total := DecodeAnnotations(input, count, read);
    PrependNothing(total);
    while j < count
      invariant j <= count
      invariant total == Prepend(anns, DecodeAnnotations(rest, count - j, read))
    {
      var a := read(rest);
      if a.Err? {
        return Err(a.error);
      }
      PrependTwice(anns, [a.value.0], DecodeAnnotations(a.value.1, count - j - 1, read));
      anns := anns + [a.value.0];
      rest := a.value.1;
      j := j + 1;
    }
    assert anns + [] == anns;
    return Ok((anns, rest));
  }

  /** `RuntimeInvisibleParameterAnnotationsAttributeFactory.Parse`: a new attribute whose
      parameters are appended one by one; a failure anywhere yields no attribute. */
  method Parse<A(!new)>(input: seq<uint8>, read: seq<uint8> -> Result<(A, seq<uint8>)>)
    returns (r: Result<(RuntimeInvisibleParameterAnnotationsAttribute<A>, seq<uint8>)>)
    ensures r.Ok? <==> DecodeAttribute(input, read).Ok?
    ensures r.Err? ==> r.error == DecodeAttribute(input, read).error
    ensures r.Ok? ==> fresh(r.value.0) && (r.value.0.parameters, r.value.1) == DecodeAttribute(input, read).value
  {
    var attribute := new RuntimeInvisibleParameterAnnotationsAttribute();
    var b, rest := NextRawByte(input).0, NextRawByte(input).1;
    var count: nat := ToByte(b);
    var i: nat := 0;
    ghost var total := DecodeParameters(rest, count, read);
    PrependNothing(total);
    while i < count
      invariant i <= count && fresh(attribute)
      invariant total == Prepend(attribute.parameters, DecodeParameters(rest, count - i, read))
    {
      var annotationsCount := NextU16(rest);
      if annotationsCount.Err? {
        return Err(annotationsCount.error);
      }
      var anns := ReadAnnotations(annotationsCount.value.1, annotationsCount.value.0, read);
      if anns.Err? {
        return Err(anns.error);
      }
      var p := ParameterAnnotations(anns.value.0);
      PrependTwice(attribute.parameters, [p], DecodeParameters(anns.value.1, count - i - 1, read));
      attribute.parameters := attribute.parameters + [p];
      rest := anns.value.1;
      i := i + 1;
    }
    assert attribute.parameters + [] == attribute.parameters;
    return Ok((attribute, rest));
  }
}
