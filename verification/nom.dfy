/** The small part of the nom parser-combinator library the URI grammar is
    built from, specialised to `&str` input and nom's default error type
    `(input, ErrorKind)`. Every parser is a pure function from the input to
    an `IResult`. */
module Nom {
  import opened Wrappers

  /** The error kinds reported by the nom parsers the grammar uses. */
  datatype ErrorKind = Alpha | AlphaNumeric | Verify | Tag | NoneOf | Eof

  /** nom's `IResult<&str, T>`: a success carries the unconsumed rest of the
      input and the parsed value; a recoverable error (`nom::Err::Error`)
      carries the input at which the failing parser stood and its kind. */
  datatype IResult<+T> = Ok(rest: string, value: T) | Err(rest: string, kind: ErrorKind)

  /** `r` is what is left of `s` once some prefix of it has been consumed. */
  predicate SuffixOf(r: string, s: string) {
    |r| <= |s| && s[|s| - |r|..] == r
  }

  lemma SuffixOfAppend(p: string, r: string)
    ensures SuffixOf(r, p + r)
  {
    assert (p + r)[|p|..] == r;
  }

  lemma ConcatAssoc(a: string, b: string, c: string)
    ensures a + b + c == a + (b + c)
  {
  }

  /** The first part of a concatenation is its prefix of that length. */
  lemma TakeOfConcat(a: string, b: string)
    ensures (a + b)[..|a|] == a
  {
  }

  /** Two parsers run one after the other consume a prefix of the input:
      the text of both results followed by what the second left over. */
  lemma ConsumedTwice(s: string, v1: string, i1: string, v2: string, i2: string)
    requires v1 + i1 == s && v2 + i2 == i1
    ensures |v1| + |v2| <= |s| && s[..|v1| + |v2|] == v1 + v2
    ensures s[..|v1| + |v2|] + i2 == s && SuffixOf(i2, s)
  {
    assert s == v1 + v2 + i2;
    assert s[..|v1| + |v2|] == v1 + v2;
    SuffixOfAppend(v1 + v2, i2);
  }

  /** A non-empty sequence is its head followed by its tail. */
  lemma HeadThenTail<T>(s: seq<T>)
    requires s != []
    ensures [s[0]] + s[1..] == s
  {
  }

  lemma ConcatAssoc4(a: string, b: string, c: string, d: string)
    ensures a + b + c + d == a + (b + (c + d))
  {
  }

  lemma ConcatAssoc6(a: string, b: string, c: string, d: string, e: string, f: string)
    ensures a + b + c + d + e + f == a + (b + (c + (d + (e + f))))
  {
  }

  lemma SuffixOfTransitive(a: string, b: string, c: string)
    requires SuffixOf(a, b) && SuffixOf(b, c)
    ensures SuffixOf(a, c)
  {
    assert c[|c| - |b|..][|b| - |a|..] == c[|c| - |a|..];
  }

  /** `tag(t)` of nom::bytes::complete: recognise the literal `t` at the
      start of `s`. */
  function MatchTag(t: string, s: string): (r: IResult<string>)
    ensures r.Ok? <==> t <= s
    ensures r.Ok? ==> r.value == t && t + r.rest == s
    ensures r.Err? ==> r == Err(s, Tag)
    ensures SuffixOf(r.rest, s)
  {
    if t <= s then
      assert s == t + s[|t|..];
      Ok(s[|t|..], t)
    else Err(s, Tag)
  }

  /** `none_of(cs)` of nom::character::complete: one char that is not in `cs`. */
  function MatchNoneOf(cs: string, s: string): (r: IResult<char>)
    ensures r.Ok? <==> s != [] && s[0] !in cs
    ensures r.Ok? ==> r.value == s[0] && [r.value] + r.rest == s
    ensures r.Err? ==> r == Err(s, ErrorKind.NoneOf)
  {
    if s != [] && s[0] !in cs then
      assert s == [s[0]] + s[1..];
      Ok(s[1..], s[0])
    else Err(s, ErrorKind.NoneOf)
  }

  /** `terminated(p, tag(t))`, given the outcome `r` of `p`: on success the
      literal `t` must follow, and is consumed; a missing `t` is an error at
      the text `p` left over, with no retry of `p`. */
  function Terminated<T>(r: IResult<T>, t: string): (r': IResult<T>)
    ensures r.Err? ==> r' == r
    ensures r'.Ok? <==> r.Ok? && t <= r.rest
    ensures r'.Ok? ==> r'.value == r.value && t + r'.rest == r.rest
    ensures r.Ok? && r'.Err? ==> r' == Err(r.rest, Tag)
    ensures SuffixOf(r'.rest, r.rest)
  {
    match r
    case Err(_, _) => r
    case Ok(i, v) =>
      match MatchTag(t, i)
      case Err(e, k) => Err(e, k)
      case Ok(i2, _) => Ok(i2, v)
  }

  /** `opt(p)`, given the input `s` and the outcome `r` of `p` on it: a
      recoverable error becomes `None` and consumes nothing. */
  function Opt<T>(r: IResult<T>, s: string): (r': IResult<Option<T>>)
    ensures r'.Ok?
    ensures r.Ok? ==> r' == Ok(r.rest, Some(r.value))
    ensures r.Err? ==> r' == Ok(s, None)
  {
    match r
    case Ok(i, v) => Ok(i, Some(v))
    case Err(_, _) => Ok(s, None)
  }

  /** `all_consuming(p)`, given the outcome `r` of `p`: a success that left
      input over is an `Eof` error at that input. */
  function AllConsuming<T>(r: IResult<T>): (r': IResult<T>)
    ensures r'.Ok? <==> r.Ok? && r.rest == []
    ensures r'.rest == r.rest
    ensures r.Ok? && r.rest != [] ==> r'.kind == Eof
    ensures r.Err? ==> r' == r
  {
    if r.Ok? && r.rest != [] then Err(r.rest, Eof) else r
  }
}
