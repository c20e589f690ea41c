/** What `parse_uri` guarantees as a whole: every grammar-valid asset model
    survives rendering and parsing, a parsed version is never a number, and
    the query flags follow the last pair of each key. */
module UriProperties {
  import opened Wrappers
  import opened Nom
  import opened Utils
  import opened Resource
  import opened Levels
  import opened Errors
  import opened Query
  import Schemes
  import Versions
  import opened SchemeParser
  import opened LevelParser
  import opened ContainerName
  import opened Department
  import opened Subcontext
  import opened SnapshotType
  import opened Hashkey
  import opened AssetModels
  import opened Uri

  lemma LeafRoundTrip(c: string, n: string, t: string)
    requires IsName(c) && IsName(n) && Delimits(Body, t)
    ensures ParseLeaf(c + "/" + (n + t)) == Ok(t, (c, n))
  {
    assert ParseSubcontext(c + "/" + (n + t)) == Ok(n + t, c) by {
      SubcontextConcat(c, n + t);
    }
    assert ParseSnapshotType(n + t) == Ok(t, n) by {
      SnapshotTypeConcat(n, t);
    }
  }

  lemma TrunkRoundTrip(d: string, c: string, n: string, t: string)
    requires IsName(d) && IsName(c) && IsName(n) && Delimits(Body, t)
    ensures ParseTrunk(d + "/" + (c + "/" + (n + t))) == Ok(t, (d, c, n))
  {
    var i1 := c + "/" + (n + t);
    assert ParseDepartment(d + "/" + i1) == Ok(i1, d) by {
      DepartmentConcat(d, i1);
    }
    assert ParseLeaf(i1) == Ok(t, (c, n)) by {
      LeafRoundTrip(c, n, t);
    }
  }

  lemma FoldersRoundTrip(a: string, d: string, c: string, n: string, t: string)
    requires IsName(a) && IsName(d) && IsName(c) && IsName(n) && Delimits(Body, t)
    ensures ParseFolders(a + "/" + (d + "/" + (c + "/" + (n + t)))) == Ok(t, (a, d, c, n))
  {
    var i1 := d + "/" + (c + "/" + (n + t));
    assert ParseName(a + "/" + i1) == Ok(i1, a) by {
      NameSlashConcat(a, i1);
    }
    assert ParseTrunk(i1) == Ok(t, (d, c, n)) by {
      TrunkRoundTrip(d, c, n, t);
    }
  }

  /** A valid path followed by a char that cannot continue the snapshot
      type parses back to itself. */
  lemma PathRoundTrip(p: Path, t: string)
    requires ValidPath(p) && Delimits(Body, t)
    ensures ParsePath(PathThen(p, t)) == Ok(t, p)
  {
    var i1 := p.name + "/" + (p.department + "/" + (p.subcontext + "/" + (p.snapshotType + t)));
    var o := ToOwned(p.level);
    assert ParseLevel(ToString(o) + "/" + i1) == Ok(i1, p.level) by {
      LevelRoundTrip(o, i1);
      ToOwnedBijective(p.level, p.level, o);
    }
    assert ParseFolders(i1) == Ok(t, (p.name, p.department, p.subcontext, p.snapshotType)) by {
      FoldersRoundTrip(p.name, p.department, p.subcontext, p.snapshotType, t);
    }
  }

  /** Optional query and key values that their parsers can produce. */
  predicate ValidTail(q: Option<seq<QueryPair>>, k: Option<string>) {
    (q.Some? ==> q.value != [] && AllValid(q.value)) && (k.Some? ==> IsResource(k.value))
  }

  /** The key text is empty or starts with `#`. */
  lemma KeyTextStarts(k: Option<string>)
    ensures OptKeyText(k) == [] || OptKeyText(k)[0] == '#'
    ensures Delimits(Body, OptKeyText(k)) && !("?" <= OptKeyText(k))
  {
    assert ByteOf('#') == 0x23;
  }

  lemma QueryPartRoundTrip(q: Option<seq<QueryPair>>, u: string)
    requires q.Some? ==> q.value != [] && AllValid(q.value)
    requires u == [] || u[0] == '#'
    ensures Opt(ParseQuery(OptQueryText(q) + u), OptQueryText(q) + u) == Ok(u, q)
  {
    assert ByteOf('#') == 0x23;
    if q.Some? {
      var ps := q.value;
      assert ps == [ps[0]] + ps[1..];
      assert ValidPair(ps[0]) && AllValid(ps[1..]);
      AndNeedsAmpersand(u);
      QueryRoundTrip(ps[0], ps[1..], u);
    } else {
      assert OptQueryText(q) + u == u;
    }
  }

  lemma KeyPartRoundTrip(k: Option<string>)
    requires k.Some? ==> IsResource(k.value)
    ensures Opt(ParseHashtag(OptKeyText(k)), OptKeyText(k)) == Ok([], k)
  {
    if k.Some? {
      assert "#" + k.value + "" == OptKeyText(k);
      HashtagConcat(k.value, "");
    }
  }

  /** The query and key a tail renders are read back, and nothing is left. */
  lemma TailRoundTrip(q: Option<seq<QueryPair>>, k: Option<string>)
    requires ValidTail(q, k)
    ensures ParseTail(OptQueryText(q) + OptKeyText(k)) == Ok([], (q, k))
  {
    KeyTextStarts(k);
    QueryPartRoundTrip(q, OptKeyText(k));
    KeyPartRoundTrip(k);
  }

  /** The tail text cannot continue the snapshot type. */
  lemma TailDelimits(q: Option<seq<QueryPair>>, k: Option<string>)
    ensures Delimits(Body, OptQueryText(q) + OptKeyText(k))
  {
    KeyTextStarts(k);
    if q.Some? && q.value != [] {
      assert (OptQueryText(q) + OptKeyText(k))[0] == '?';
      assert ByteOf('?') == 0x3F;
    }
  }

  /** A segment tuple that its parsers can produce. */
  predicate ValidSegments(g: Segments) {
    ValidPath(g.path) && ValidTail(g.query, g.key)
  }

  /** Segments rendered in their canonical text parse back to themselves. */
  lemma SegmentsRoundTrip(g: Segments)
    requires ValidSegments(g)
    ensures ParseSegments(SegmentsText(g)) == Ok([], g)
  {
    var t := OptQueryText(g.query) + OptKeyText(g.key);
    var i1 := PathThen(g.path, t);
    assert ParseScheme(Schemes.Name(g.scheme) + "://" + i1) == Ok(i1, g.scheme) by {
      SchemeRoundTrip(g.scheme, i1);
    }
    assert ParsePath(i1) == Ok(t, g.path) by {
      TailDelimits(g.query, g.key);
      PathRoundTrip(g.path, t);
    }
    assert ParseTail(t) == Ok([], (g.query, g.key)) by {
      TailRoundTrip(g.query, g.key);
    }
  }

  /** An asset model whose parts are grammar-valid, with a keyword version
      or none: what a URI can describe. */
  predicate ValidModel(m: AssetModel) {
    ValidLevel(m.level) && IsName(m.name) && IsName(m.department)
    && IsName(m.subcontext) && IsName(m.snapshotType)
    && (m.version.Some? ==> !m.version.value.Number?)
    && (m.key.Some? ==> IsResource(m.key.value))
  }

  /** The query pairs a model is written with: its version, then
      `create=true` when the flag is set. */
  function CanonicalPairs(m: AssetModel): seq<QueryPair>
    requires m.version.Some? ==> !m.version.value.Number?
  {
    (if m.version.Some? then [QueryPair("version", Versions.KeywordText(m.version.value))] else [])
    + (if m.createMissing then [QueryPair("create", "true")] else [])
  }

  /** The segments of a model's canonical URI. */
  function SegmentsOf(m: AssetModel): Segments
    requires m.version.Some? ==> !m.version.value.Number?
  {
    var ps := CanonicalPairs(m);
    Segments(m.containerType,
             Path(Borrow(m.level), m.name, m.department, m.subcontext, m.snapshotType),
             if ps == [] then None else Some(ps),
             m.key)
  }

  /** The canonical URI of a model. */
  function Render(m: AssetModel): string
    requires m.version.Some? ==> !m.version.value.Number?
  {
    SegmentsText(SegmentsOf(m))
  }

  lemma KeywordsAreResources()
    ensures IsResource("version") && IsResource("create") && IsResource("true")
    ensures IsResource("current") && IsResource("latest")
  {
  }

  lemma CanonicalPairsValid(m: AssetModel)
    requires m.version.Some? ==> !m.version.value.Number?
    ensures AllValid(CanonicalPairs(m))
  {
    KeywordsAreResources();
  }

  /** Reading the canonical pairs gives back the model's version and flag. */
  lemma CanonicalPairsRead(m: AssetModel)
    requires m.version.Some? ==> !m.version.value.Number?
    ensures ReadPairs(CanonicalPairs(m), QueryFlags(None, false)) == Success(QueryFlags(m.version, m.createMissing))
  {
    var ps := CanonicalPairs(m);
    if m.version.Some? {
      Versions.KeywordRoundTrip(m.version.value);
      assert ps[0] == QueryPair("version", Versions.KeywordText(m.version.value));
      assert !BadVersion(ps[0]);
      var f1 := QueryFlags(m.version, false);
      assert ReadPairs(ps, QueryFlags(None, false)) == ReadPairs(ps[1..], f1);
      if m.createMissing {
        assert ps[1..] == [QueryPair("create", "true")];
        assert ps[1..][1..] == [];
        assert ReadPairs(ps[1..], f1) == ReadPairs([], QueryFlags(m.version, true));
      } else {
        assert ps[1..] == [];
      }
    } else if m.createMissing {
      assert ps[1..] == [];
    }
  }

  /** Round trip: every valid model, written as its canonical URI, is
      parsed back to itself. */
  lemma UriRoundTrip(m: AssetModel)
    requires ValidModel(m)
    ensures ParseUri(Render(m)) == Success(m)
  {
    var g := SegmentsOf(m);
    CanonicalPairsValid(m);
    ToOwnedBijective(Borrow(m.level), Borrow(m.level), m.level);
    assert ValidSegments(g);
    SegmentsRoundTrip(g);
    CanonicalPairsRead(m);
  }

  /** Reading pairs whose values are all resources never yields a version
      number: a resource starts with a letter, and only the two keywords
      among such words are versions. */
  lemma {:induction false} ReadPairsKeywordsOnly(ps: seq<QueryPair>, flags: QueryFlags)
    requires AllValid(ps) && (flags.version.Some? ==> !flags.version.value.Number?)
    ensures ReadPairs(ps, flags).Success? && ReadPairs(ps, flags).value.version.Some? ==>
      !ReadPairs(ps, flags).value.version.value.Number?
    decreases |ps|
  {
    if ps != [] {
      var p := ps[0];
      assert ValidPair(p) && AllValid(ps[1..]);
      if p.key == "version" {
        Versions.WordVersion(p.value);
      }
      if !BadVersion(p) {
        var next := QueryFlags(
          if p.key == "version" then Some(Versions.FromStr(p.value).value) else flags.version,
          if p.key == "create" then CreateFlag(p.value) else flags.create);
        ReadPairsKeywordsOnly(ps[1..], next);
      }
    }
  }

  /** A version number is never reachable through a URI: query values are
      resources, which start with a letter. */
  lemma UriVersionNeverNumber(input: string)
    ensures ParseUri(input).Success? && ParseUri(input).value.version.Some? ==>
      !ParseUri(input).value.version.value.Number?
  {
    var g := ParseSegments(input);
    if g.Ok? {
      var pairs := if g.value.query.Some? then g.value.query.value else [];
      ReadPairsKeywordsOnly(pairs, QueryFlags(None, false));
    }
  }

  /** Every model `parse_uri` returns is one a URI can describe: its parts
      are grammar-valid and its version is a keyword or none. */
  lemma UriParsedModelValid(input: string)
    ensures ParseUri(input).Success? ==> ValidModel(ParseUri(input).value)
  {
    if ParseUri(input).Success? {
      var m := ParseUri(input).value;
      UriVersionNeverNumber(input);
      ToOwnedBijective(Borrow(m.level), Borrow(m.level), m.level);
    }
  }

  /** On a successful parse the last `version` pair gives the version and the
      last `create` pair the flag, which is set only by the value `true`; a
      failure after the segments parsed is the error of the first bad
      `version` value. */
  lemma UriQueryFlags(input: string)
    ensures var ps := QueryPairsOf(input);
      ParseUri(input).Success? ==>
        ParseUri(input).value.version ==
          (var v := LastValue(ps, "version");
           if v.Some? && Versions.FromStr(v.value).Success? then Some(Versions.FromStr(v.value).value) else None)
        && ParseUri(input).value.createMissing == (LastValue(ps, "create") == Some("true"))
    ensures var ps := QueryPairsOf(input);
      ParseSegments(input).Ok? && ParseUri(input).Failure? ==>
        exists i :: 0 <= i < |ps| && BadVersion(ps[i]) && (forall j :: 0 <= j < i ==> !BadVersion(ps[j]))
          && ParseUri(input).error == StrToIntError(ps[i].value)
  {
    ReadPairsSpec(QueryPairsOf(input), QueryFlags(None, false));
  }
  /** Once the scheme and path have parsed, the segments succeed or fail
      exactly as the tail does. */
  lemma SegmentsAfterPath(u: string, i1: string, k: Schemes.Scheme, t: string, p: Path)
    requires ParseScheme(u) == Ok(i1, k) && ParsePath(i1) == Ok(t, p)
    ensures ParseTail(t).Err? ==> ParseSegments(u) == Err(ParseTail(t).rest, ParseTail(t).kind)
    ensures ParseTail(t).Ok? ==>
      ParseSegments(u) == Ok(ParseTail(t).rest, Segments(k, p, ParseTail(t).value.0, ParseTail(t).value.1))
  {
  }

  /** Text after the path that is neither a query nor a key is left over,
      and `all_consuming` reports it with `Eof`. */
  lemma TailLeftOver(t: string)
    requires t != [] && ParseQuery(t).Err? && ParseHashtag(t).Err?
    ensures ParseTail(t) == Err(t, Eof)
  {
  }

  /** Once the scheme and level have parsed, a failure in the name segment
      is the failure of the whole segment tuple. */
  lemma SegmentsNameError(u: string, i1: string, k: Schemes.Scheme, t: string, l: Level)
    requires ParseScheme(u) == Ok(i1, k) && ParseLevel(i1) == Ok(t, l) && ParseName(t).Err?
    ensures ParseSegments(u) == Err(ParseName(t).rest, ParseName(t).kind)
  {
  }

  /** A segment failure is classified against the whole input. */
  lemma UriSegmentsError(input: string)
    requires ParseSegments(input).Err?
    ensures ParseUri(input) == Failure(Classify(input, ParseSegments(input).rest, ParseSegments(input).kind))
  {
  }

  /** An input that does not start with a known scheme and `://` is reported
      as the nom error of the scheme parser. */
  lemma UriSchemeError(u: string, e: string)
    requires ParseScheme(u) == Err(e, Tag)
    ensures ParseUri(u) == Failure(UriParsingError(e, Tag))
  {
    assert ParseSegments(u) == Err(e, Tag);
    UriOtherError(u, e, Tag);
  }

  /** The three ways a segment failure is reported, one lemma each. */
  lemma UriOtherError(input: string, e: string, kind: ErrorKind)
    requires ParseSegments(input) == Err(e, kind) && kind != Alpha && kind != Verify
    ensures ParseUri(input) == Failure(UriParsingError(e, kind))
  {
    UriSegmentsError(input);
  }

  lemma UriAlphaError(input: string, e: string)
    requires ParseSegments(input) == Err(e, Alpha) && e != []
    ensures |e| <= |input|
    ensures ParseUri(input) == Failure(UriNonAlphaParsingError([e[0]], input[..|input| - |e| + 1]))
  {
    UriSegmentsError(input);
  }

  lemma UriVerifyError(input: string, e: string)
    requires ParseSegments(input) == Err(e, Verify) && e != []
    ensures |e| <= |input|
    ensures ParseUri(input) == Failure(UriUnexpectedUnderscoreParsingError(input[..|input| - |e|], e))
  {
    UriSegmentsError(input);
  }

  /** A name that does not start with a letter is reported as a
      non-alphabetic char: that char, and the input up to and including it. */
  lemma UriNameNotLetter(u: string, i1: string, k: Schemes.Scheme, t: string, l: Level)
    requires ParseScheme(u) == Ok(i1, k) && ParseLevel(i1) == Ok(t, l)
    requires t != [] && !IsAsciiAlpha(t[0])
    ensures |t| <= |u|
    ensures ParseUri(u) == Failure(UriNonAlphaParsingError([t[0]], u[..|u| - |t| + 1]))
  {
    SegmentsNameError(u, i1, k, t, l);
    UriAlphaError(u, t);
  }

  /** A name whose body ends in `_` is reported as an unexpected underscore:
      the input is split where the name's check failed. */
  lemma UriNameUnderscore(u: string, i1: string, k: Schemes.Scheme, t: string, l: Level, e: string)
    requires ParseScheme(u) == Ok(i1, k) && ParseLevel(i1) == Ok(t, l) && ParseName(t) == Err(e, Verify)
    ensures |e| <= |u|
    ensures ParseUri(u) == Failure(UriUnexpectedUnderscoreParsingError(u[..|u| - |e|], e))
  {
    SegmentsNameError(u, i1, k, t, l);
    UriVerifyError(u, e);
  }

  /** Text after a valid path that is neither a query nor a key is reported
      as the nom error `Eof` at that text. */
  lemma UriTailLeftOver(u: string, i1: string, k: Schemes.Scheme, t: string, p: Path)
    requires ParseScheme(u) == Ok(i1, k) && ParsePath(i1) == Ok(t, p)
    requires t != [] && ParseQuery(t).Err? && ParseHashtag(t).Err?
    ensures ParseUri(u) == Failure(UriParsingError(t, Eof))
  {
    TailLeftOver(t);
    SegmentsAfterPath(u, i1, k, t, p);
    UriOtherError(u, t, Eof);
  }
}
