/** A class name in internal form (`java/lang/Object`), as `ClassName` holds it. */
module ClassNames {
  import opened Wrappers

  datatype ClassName = ClassName(name: string)

  /** The constructor: a null name is rejected. */
  function NewClassName(name: Option<string>): (r: Result<ClassName>)
    ensures r.Ok? <==> name.Some?
    ensures r.Ok? ==> r.value.name == name.value
    ensures r.Err? ==> r.error == ArgumentNull
  {
    match name
    case None => Err(ArgumentNull)
    case Some(n) => Ok(ClassName(n))
  }

  /** The internal form with every slash replaced by a dot. */
  function Dotted(s: string): (r: string)
    ensures |r| == |s|
    ensures forall i :: 0 <= i < |s| ==> r[i] == (if s[i] == '/' then '.' else s[i])
  {
    if s == [] then [] else [if s[0] == '/' then '.' else s[0]] + Dotted(s[1..])
  }

  /** `ToString`: the binary name, with every package separator written as a dot. */
  function ToString(c: ClassName): (r: string)
    ensures |r| == |c.name|
    ensures forall i :: 0 <= i < |r| ==> r[i] == (if c.name[i] == '/' then '.' else c.name[i])
  {
    Dotted(c.name)
  }

  lemma ToStringHasNoSlash(c: ClassName)
    ensures '/' !in ToString(c)
  {
  }

  /** `ToString` changes nothing in a name without a slash. */
  lemma ToStringWithoutSlash(c: ClassName)
    requires '/' !in c.name
    ensures ToString(c) == c.name
  {
  }

  /** `Equals(object)`: false for null, otherwise a comparison of the names. */
  function Equals(c: ClassName, other: Option<ClassName>): (r: bool)
    ensures r <==> other == Some(c)
  {
    other.Some? && c.name == other.value.name
  }

  /** `GetHashCode`: the hash of the name; the string hash itself is a parameter. */
  function HashCode(c: ClassName, stringHash: string -> int): int {
    stringHash(c.name)
  }

  lemma EqualNamesHaveEqualHashes(a: ClassName, b: ClassName, stringHash: string -> int)
    requires Equals(a, Some(b))
    ensures HashCode(a, stringHash) == HashCode(b, stringHash)
  {
  }
}
