/**
  Big-endian byte helpers. A stream is modelled as a byte sequence plus a
  cursor: every reader takes the data and a position and returns the value
  read together with the position after it.
*/
module Bytes {
  import opened Wrappers

  type uint8 = x: int | 0 <= x < 0x100
  type uint16 = x: int | 0 <= x < 0x1_0000

  /** Big-endian encoding of an unsigned 16-bit value. */
  function EncodeU16(x: uint16): (r: seq<uint8>)
    ensures |r| == 2 && (r[0] as int) * 0x100 + r[1] as int == x
  {
    [x / 0x100, x % 0x100]
  }

  /** Big-endian decoding of two bytes. */
  function DecodeU16(hi: uint8, lo: uint8): (x: uint16)
    ensures EncodeU16(x) == [hi, lo]
  {
    (hi as int) * 0x100 + lo as int
  }

  lemma DecodeEncodeU16(x: uint16)
    ensures DecodeU16(EncodeU16(x)[0], EncodeU16(x)[1]) == x
  {
  }

  /** The C# unchecked `(byte)` cast: the low eight bits of `x`. */
  function ToByte(x: int): uint8 {
    x % 0x100
  }

  /** `w` occurs in `data` at position `pos`. */
  predicate At(data: seq<uint8>, pos: nat, w: seq<uint8>) {
    pos + |w| <= |data| && data[pos..pos + |w|] == w
  }

  /** `ReadByteFully`: one byte; reading past the end is an error. */
  function ReadByteFully(data: seq<uint8>, pos: nat): Result<(uint8, nat)> {
    if pos < |data| then Ok((data[pos], pos + 1)) else Err(EndOfStream)
  }

  /** `Stream.ReadByte`: one byte as an int, or -1 at the end of the stream. */
  function ReadByte(data: seq<uint8>, pos: nat): (int, nat) {
    if pos < |data| then (data[pos], pos + 1) else (-1, pos)
  }

  /** `BigEndian.ReadUInt16`: two bytes, most significant first. */
  function ReadU16(data: seq<uint8>, pos: nat): Result<(uint16, nat)> {
    if pos + 2 <= |data| then Ok((DecodeU16(data[pos], data[pos + 1]), pos + 2)) else Err(EndOfStream)
  }

  lemma ReadU16At(data: seq<uint8>, pos: nat, x: uint16)
    requires At(data, pos, EncodeU16(x))
    ensures ReadU16(data, pos) == Ok((x, pos + 2))
  {
    assert data[pos] == data[pos..pos + 2][0];
    assert data[pos + 1] == data[pos..pos + 2][1];
  }

  /** Splitting an occurrence: `a + b` at `pos` is `a` at `pos` and `b` after it. */
  lemma AtConcat(data: seq<uint8>, pos: nat, a: seq<uint8>, b: seq<uint8>)
    requires At(data, pos, a + b)
    ensures At(data, pos, a) && At(data, pos + |a|, b)
  {
    assert data[pos..pos + |a|] == (a + b)[..|a|];
    assert data[pos + |a|..pos + |a| + |b|] == (a + b)[|a|..];
  }

  /** `ReadByteFully` over the bytes not yet read: the byte and the rest. */
  function NextByte(input: seq<uint8>): Result<(uint8, seq<uint8>)> {
    if |input| >= 1 then Ok((input[0], input[1..])) else Err(EndOfStream)
  }

  /** `BigEndian.ReadUInt16` over the bytes not yet read. */
  function NextU16(input: seq<uint8>): Result<(uint16, seq<uint8>)> {
    if |input| >= 2 then Ok((DecodeU16(input[0], input[1]), input[2..])) else Err(EndOfStream)
  }

  lemma NextBytePrefix(b: uint8, rest: seq<uint8>)
    ensures NextByte([b] + rest) == Ok((b, rest))
  {
    assert ([b] + rest)[1..] == rest;
  }

  lemma NextU16Prefix(x: uint16, rest: seq<uint8>)
    ensures NextU16(EncodeU16(x) + rest) == Ok((x, rest))
  {
    assert (EncodeU16(x) + rest)[2..] == rest;
  }

  /** `Stream.ReadByte` over the bytes not yet read: -1 at the end, where nothing is consumed. */
  function NextRawByte(input: seq<uint8>): (r: (int, seq<uint8>))
    ensures -1 <= r.0 < 0x100
  {
    if |input| >= 1 then (input[0] as int, input[1..]) else (-1, input)
  }

  /** The two views of the stream agree: reading at `pos` of `data` is reading `data[pos..]`. */
  lemma NextByteAtPosition(data: seq<uint8>, pos: nat)
    requires pos <= |data|
    ensures NextByte(data[pos..]).Ok? <==> ReadByteFully(data, pos).Ok?
    ensures ReadByteFully(data, pos).Ok? ==>
      var (b, next) := ReadByteFully(data, pos).value; NextByte(data[pos..]) == Ok((b, data[next..]))
    ensures NextRawByte(data[pos..]) == (ReadByte(data, pos).0, data[ReadByte(data, pos).1..])
  {
    if pos < |data| {
      assert data[pos..][1..] == data[pos + 1..];
    }
  }

  lemma NextU16AtPosition(data: seq<uint8>, pos: nat)
    requires pos <= |data|
    ensures NextU16(data[pos..]).Ok? <==> ReadU16(data, pos).Ok?
    ensures ReadU16(data, pos).Ok? ==>
      var (x, next) := ReadU16(data, pos).value; NextU16(data[pos..]) == Ok((x, data[next..]))
  {
    if pos + 2 <= |data| {
      assert data[pos..][2..] == data[pos + 2..];
    }
  }

  /** The u16 at offset `k` of `input`, read once the `k` bytes before it are consumed. */
  lemma NextU16Within(input: seq<uint8>, k: nat)
    requires k <= |input|
    ensures NextU16(input[k..]).Ok? <==> k + 2 <= |input|
    ensures k + 2 <= |input| ==> NextU16(input[k..]) == Ok((DecodeU16(input[k], input[k + 1]), input[k + 2..]))
    ensures k + 2 <= |input| ==> input[k..][2..] == input[k + 2..]
  {
    if k + 2 <= |input| {
      assert input[k..][2..] == input[k + 2..];
    }
  }

  /** Prepends `front` to the list a successful read produced. */
  function Prepend<T>(front: seq<T>, r: Result<(seq<T>, seq<uint8>)>): Result<(seq<T>, seq<uint8>)> {
    if r.Ok? then Ok((front + r.value.0, r.value.1)) else r
  }

  lemma PrependNothing<T>(r: Result<(seq<T>, seq<uint8>)>)
    ensures Prepend([], r) == r
  {
    if r.Ok? {
      assert [] + r.value.0 == r.value.0;
    }
  }

  lemma PrependTwice<T>(a: seq<T>, b: seq<T>, r: Result<(seq<T>, seq<uint8>)>)
    ensures Prepend(a, Prepend(b, r)) == Prepend(a + b, r)
  {
    if r.Ok? {
      assert a + (b + r.value.0) == (a + b) + r.value.0;
    }
  }
}
