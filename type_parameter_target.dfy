/**
  The target of a type annotation on a type parameter (`type_parameter_target`,
  section 4.7.20.1 of the JVMS): one byte, the index of the type parameter.
*/
module TypeParameterTargets {
  import opened Bytes
  import opened Wrappers

  /** The kinds of `target_info` of section 4.7.20.1 of the JVMS. */
  datatype TargetTypeKind =
    | TypeParameter | Supertype | TypeParameterBound | Empty | FormalParameter
    | Throws | LocalVariable | Catch | Offset | TypeArgument

  /** The size in bytes of each kind of `target_info` (section 4.7.20.1 of the JVMS);
      a local-variable target has a table of its own length. */
  function TargetInfoSize(k: TargetTypeKind): Option<nat> {
    match k
    case TypeParameter => Some(1)
    case Supertype => Some(2)
    case TypeParameterBound => Some(2)
    case Empty => Some(0)
    case FormalParameter => Some(1)
    case Throws => Some(2)
    case LocalVariable => None
    case Catch => Some(2)
    case Offset => Some(2)
    case TypeArgument => Some(3)
  }

  /** `Write`: the index, as one byte. */
  function WriteTarget(index: uint8): (w: seq<uint8>)
    ensures |w| == 1 && w[0] == index
  {
    [index]
  }

  /** `Read`: one byte from the stream; at the end of the stream the -1 of `ReadByte` becomes 255 through the byte cast. */
  function ReadTarget(input: seq<uint8>): (r: (uint8, seq<uint8>))
    ensures |input| >= 1 ==> r == (input[0], input[1..])
    ensures |input| == 0 ==> r == (255, input)
  {
    var (b, rest) := NextRawByte(input);
    (ToByte(b), rest)
  }

  /** Reading what `Write` wrote gives back the index and consumes exactly its byte. */
  lemma TargetRoundTrip(index: uint8, rest: seq<uint8>)
    ensures ReadTarget(WriteTarget(index) + rest) == (index, rest)
  {
    assert (WriteTarget(index) + rest)[1..] == rest;
  }

  class TypeParameterTarget {
    var typeParameterIndex: uint8

    constructor (index: uint8)
      ensures typeParameterIndex == index
    {
      typeParameterIndex := index;
    }

    /** `TargetTypeKind`: whatever the index, this target is a type-parameter target,
        whose `target_info` is exactly the one byte `Write` emits. */
    function Kind(): (k: TargetTypeKind)
      ensures TargetInfoSize(k) == Some(|WriteTarget(typeParameterIndex)|)
      ensures k == TypeParameter
    {
      TypeParameter
    }

    method Write() returns (w: seq<uint8>)
      ensures w == WriteTarget(typeParameterIndex)
    {
      w := [typeParameterIndex];
    }

    method Read(input: seq<uint8>) returns (rest: seq<uint8>)
      modifies this
      ensures (typeParameterIndex, rest) == ReadTarget(input)
    {
      var b: int;
      b, rest := NextRawByte(input).0, NextRawByte(input).1;
      typeParameterIndex := ToByte(b);
    }
  }
}
