/** The URI scheme (src/scheme.rs): which kind of container an asset URI
    names. Its text form is the snake_case variant name, shared by
    `Display`, `as_ref` and `from_str`. */
module Schemes {
  import opened Wrappers

  datatype Scheme = Asset | Instance | Render | Plate

  /** The variants in declaration order, as `Scheme::iter()` yields them. */
  const AllSchemes: seq<Scheme> := [Asset, Instance, Render, Plate]

  /** The position of a variant in declaration order. */
  function Index(s: Scheme): (i: nat)
    ensures i < |AllSchemes| && AllSchemes[i] == s
  {
    match s
    case Asset => 0
    case Instance => 1
    case Render => 2
    case Plate => 3
  }

  /** Every variant is listed exactly once. */
  lemma AllSchemesComplete(s: Scheme)
    ensures s in AllSchemes
    ensures forall i, j :: 0 <= i < j < |AllSchemes| ==> AllSchemes[i] != AllSchemes[j]
  {
    assert AllSchemes[Index(s)] == s;
  }

  /** A non-empty word of lower-case ASCII letters. */
  predicate IsLowerWord(n: string) {
    n != [] && forall i :: 0 <= i < |n| ==> 'a' <= n[i] <= 'z'
  }

  /** `Display`, `as_ref` and `Into<&'static str>`: the snake_case name. */
  function Name(s: Scheme): (n: string)
    ensures IsLowerWord(n)
  {
    match s
    case Asset => "asset"
    case Instance => "instance"
    case Render => "render"
    case Plate => "plate"
  }

  /** `FromStr` (strum's `EnumString`): the variant whose name is exactly
      `n`, or nothing. */
  function FromStr(n: string): (r: Option<Scheme>)
    ensures r.Some? ==> Name(r.value) == n
    ensures r.None? ==> forall s :: Name(s) != n
  {
    if n == "asset" then Some(Asset)
    else if n == "instance" then Some(Instance)
    else if n == "render" then Some(Render)
    else if n == "plate" then Some(Plate)
    else None
  }

  /** `from_str` inverts the name, and distinct variants have distinct names. */
  lemma FromStrInvertsName(s: Scheme, t: Scheme)
    ensures FromStr(Name(s)) == Some(s)
    ensures Name(s) == Name(t) ==> s == t
  {
  }

  /** No name is a prefix of another, so at most one name can begin a text. */
  lemma NamesPrefixFree(s: Scheme, t: Scheme)
    ensures Name(s) <= Name(t) ==> s == t
  {
    if Name(s) <= Name(t) {
      assert Name(s)[0] == Name(t)[0];
    }
  }

  /** The strings the source's tests expect, in iteration order. */
  lemma NamesExample()
    ensures |AllSchemes| == 4
    ensures Name(AllSchemes[0]) == "asset" && Name(AllSchemes[1]) == "instance"
    ensures Name(AllSchemes[2]) == "render" && Name(AllSchemes[3]) == "plate"
    ensures forall i :: 0 <= i < |AllSchemes| ==> FromStr(Name(AllSchemes[i])).Some?
  {
    forall i | 0 <= i < |AllSchemes|
      ensures FromStr(Name(AllSchemes[i])).Some?
    {
      FromStrInvertsName(AllSchemes[i], AllSchemes[i]);
    }
  }
}
