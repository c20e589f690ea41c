/** The entry point of the grammar (src/parse/uri.rs): `parse_uri` runs the
    segment parsers in their fixed order over the whole input, sorts the
    first failure into one of three errors, and reads `version` and
    `create` out of the query pairs. */
module Uri {
  import opened Wrappers
  import opened Nom
  import opened Utils
  import opened Resource
  import opened Levels
  import opened Errors
  import opened Query
  import Schemes
  import Versions
  import opened SchemeParser
  import opened LevelParser
  import opened ContainerName
  import opened Department
  import opened Subcontext
  import opened SnapshotType
  import opened Hashkey
  import opened AssetModels

  /** The path segments between `://` and the optional query. */
  datatype Path = Path(level: Level, name: string, department: string, subcontext: string, snapshotType: string)

  /** The tuple `parse_uri` destructures, before post-processing. */
  datatype Segments = Segments(scheme: Schemes.Scheme, path: Path, query: Option<seq<QueryPair>>, key: Option<string>)

  /** A path whose parts are grammar-valid for their parsers. */
  predicate ValidPath(p: Path) {
    ValidLevel(ToOwned(p.level)) && IsName(p.name) && IsName(p.department)
    && IsName(p.subcontext) && IsName(p.snapshotType)
  }

  /** The text of a path followed by `t`: level, name, department and
      subcontext each closed by `/`, then the snapshot type. */
  function PathThen(p: Path, t: string): string {
    ToString(ToOwned(p.level)) + "/" + (p.name + "/" + (p.department + "/" + (p.subcontext + "/" + (p.snapshotType + t))))
  }

  function OptQueryText(q: Option<seq<QueryPair>>): string {
    if q.Some? && q.value != [] then QueryText(q.value) else ""
  }

  function OptKeyText(k: Option<string>): string {
    if k.Some? then "#" + k.value else ""
  }

  /** The canonical text of a segment tuple:
      `scheme://level/name/department/subcontext/snapshot_type[?query][#key]`. */
  function SegmentsText(g: Segments): string {
    Schemes.Name(g.scheme) + "://" + PathThen(g.path, OptQueryText(g.query) + OptKeyText(g.key))
  }

  /** The subcontext and its `/`, then the snapshot type. */
  function ParseLeaf(s: string): (r: IResult<(string, string)>)
    ensures SuffixOf(r.rest, s)
    ensures r.Ok? ==> r.value.0 + "/" + (r.value.1 + r.rest) == s && Delimits(Body, r.rest)
    ensures r.Ok? ==> IsName(r.value.0) && IsName(r.value.1)
  {
    match ParseSubcontext(s)
    case Err(e, k) => Err(e, k)
    case Ok(i1, c) =>
      match ParseSnapshotType(i1)
      case Err(e, k) => SuffixOfTransitive(e, i1, s); Err(e, k)
      case Ok(i2, t) =>
        SuffixOfTransitive(i2, i1, s);
        ConcatAssoc(c, "/", t + i2);
        Ok(i2, (c, t))
  }

  /** The department and its `/`, then the leaf. */
  function ParseTrunk(s: string): (r: IResult<(string, string, string)>)
    ensures SuffixOf(r.rest, s)
    ensures r.Ok? ==> r.value.0 + "/" + (r.value.1 + "/" + (r.value.2 + r.rest)) == s
    ensures r.Ok? ==> Delimits(Body, r.rest)
    ensures r.Ok? ==> IsName(r.value.0) && IsName(r.value.1) && IsName(r.value.2)
  {
    match ParseDepartment(s)
    case Err(e, k) => Err(e, k)
    case Ok(i1, d) =>
      match ParseLeaf(i1)
      case Err(e, k) => SuffixOfTransitive(e, i1, s); Err(e, k)
      case Ok(i2, ct) =>
        SuffixOfTransitive(i2, i1, s);
        Ok(i2, (d, ct.0, ct.1))
  }

  /** The name and its `/`, then the trunk. */
  function ParseFolders(s: string): (r: IResult<(string, string, string, string)>)
    ensures SuffixOf(r.rest, s)
    ensures r.Ok? ==> r.value.0 + "/" + (r.value.1 + "/" + (r.value.2 + "/" + (r.value.3 + r.rest))) == s
    ensures r.Ok? ==> Delimits(Body, r.rest)
    ensures r.Ok? ==> IsName(r.value.0) && IsName(r.value.1) && IsName(r.value.2) && IsName(r.value.3)
  {
    match ParseName(s)
    case Err(e, k) => Err(e, k)
    case Ok(i1, n) =>
      match ParseTrunk(i1)
      case Err(e, k) => SuffixOfTransitive(e, i1, s); Err(e, k)
      case Ok(i2, dct) =>
        SuffixOfTransitive(i2, i1, s);
        Ok(i2, (n, dct.0, dct.1, dct.2))
  }

  /** `parse_level`, then the folders: the path of the asset. */
  function ParsePath(s: string): (r: IResult<Path>)
    ensures SuffixOf(r.rest, s)
    ensures r.Ok? ==> PathThen(r.value, r.rest) == s && Delimits(Body, r.rest)
    ensures r.Ok? ==> ValidPath(r.value)
  {
    match ParseLevel(s)
    case Err(e, k) => Err(e, k)
    case Ok(i1, l) =>
      match ParseFolders(i1)
      case Err(e, k) => SuffixOfTransitive(e, i1, s); Err(e, k)
      case Ok(i2, f) =>
        SuffixOfTransitive(i2, i1, s);
        PathStep(s, l, i1, f, i2);
        Ok(i2, Path(l, f.0, f.1, f.2, f.3))
  }

  /** The level with its `/`, then the four names, spell a valid path. */
  lemma PathStep(s: string, l: Level, i1: string, f: (string, string, string, string), i2: string)
    requires ToString(ToOwned(l)) + "/" + i1 == s && ValidLevel(ToOwned(l))
    requires f.0 + "/" + (f.1 + "/" + (f.2 + "/" + (f.3 + i2))) == i1
    requires IsName(f.0) && IsName(f.1) && IsName(f.2) && IsName(f.3)
    ensures PathThen(Path(l, f.0, f.1, f.2, f.3), i2) == s
    ensures ValidPath(Path(l, f.0, f.1, f.2, f.3))
  {
  }

  /** `opt(parse_query)`, `opt(parse_hashtag)` and the `all_consuming`
      check: a query or key that does not parse is skipped and left as
      unconsumed input. */
  function ParseTail(s: string): (r: IResult<(Option<seq<QueryPair>>, Option<string>)>)
    ensures SuffixOf(r.rest, s)
    ensures r.Ok? ==> r.rest == [] && OptQueryText(r.value.0) + OptKeyText(r.value.1) == s
    ensures r.Ok? && r.value.0.Some? ==> r.value.0.value != [] && AllValid(r.value.0.value)
    ensures r.Ok? && r.value.1.Some? ==> IsResource(r.value.1.value)
    ensures r.Err? ==> r.kind == Eof
  {
    var q := Opt(ParseQuery(s), s);
    var h := Opt(ParseHashtag(q.rest), q.rest);
    TailSteps(s, q, h);
    AllConsuming(Ok(h.rest, (q.value, h.value)))
  }

  /** The optional query, then the optional key: what they read spells the
      input up to what is left. */
  lemma TailSteps(s: string, q: IResult<Option<seq<QueryPair>>>, h: IResult<Option<string>>)
    requires q == Opt(ParseQuery(s), s) && h == Opt(ParseHashtag(q.rest), q.rest)
    ensures SuffixOf(h.rest, s)
    ensures h.rest == [] ==> OptQueryText(q.value) + OptKeyText(h.value) == s
    ensures q.value.Some? ==> q.value.value != [] && AllValid(q.value.value)
    ensures h.value.Some? ==> IsResource(h.value.value)
  {
    QueryStep(s, q);
    KeyStep(q.rest, h);
    TailJoin(s, q.value, q.rest, h.value, h.rest);
  }

  lemma TailJoin(s: string, qv: Option<seq<QueryPair>>, qr: string, hv: Option<string>, hr: string)
    requires OptQueryText(qv) + qr == s && OptKeyText(hv) + hr == qr
    ensures SuffixOf(hr, s)
    ensures hr == [] ==> OptQueryText(qv) + OptKeyText(hv) == s
  {
    SuffixOfAppend(OptQueryText(qv), qr);
    SuffixOfAppend(OptKeyText(hv), hr);
    SuffixOfTransitive(hr, qr, s);
    if hr == [] {
      TailTextSteps(qv, hv, s, qr);
    }
  }

  lemma QueryStep(s: string, q: IResult<Option<seq<QueryPair>>>)
    requires q == Opt(ParseQuery(s), s)
    ensures OptQueryText(q.value) + q.rest == s
    ensures q.value.Some? ==> q.value.value != [] && AllValid(q.value.value)
  {
  }

  lemma KeyStep(s: string, h: IResult<Option<string>>)
    requires h == Opt(ParseHashtag(s), s)
    ensures OptKeyText(h.value) + h.rest == s
    ensures h.value.Some? ==> IsResource(h.value.value)
  {
    match ParseHashtag(s)
    case Err(_, _) =>
    case Ok(i, v) => KeyText(v, i, s);
  }

  lemma KeyText(v: string, i: string, s: string)
    requires "#" + v + i == s
    ensures OptKeyText(Some(v)) + i == s
  {
    ConcatAssoc("#", v, i);
  }

  /** `tuple((parse_scheme, …, opt(parse_query), opt(parse_hashtag)))`
      under `all_consuming`: the segments in their fixed order, covering the
      whole input. */
  function ParseSegments(s: string): (r: IResult<Segments>)
    ensures SuffixOf(r.rest, s)
    ensures r.Ok? ==> r.rest == [] && SegmentsText(r.value) == s
    ensures r.Ok? ==> ValidPath(r.value.path)
    ensures r.Ok? && r.value.query.Some? ==> r.value.query.value != [] && AllValid(r.value.query.value)
    ensures r.Ok? && r.value.key.Some? ==> IsResource(r.value.key.value)
  {
    match ParseScheme(s)
    case Err(e, k) => Err(e, k)
    case Ok(i1, sc) =>
      match ParsePath(i1)
      case Err(e, k) => SuffixOfTransitive(e, i1, s); Err(e, k)
      case Ok(i2, p) =>
        SuffixOfTransitive(i2, i1, s);
        match ParseTail(i2)
        case Err(e, k) => SuffixOfTransitive(e, i2, s); Err(e, k)
        case Ok(i3, qk) =>
          SuffixOfTransitive(i3, i2, s);
          Ok(i3, Segments(sc, p, qk.0, qk.1))
  }

  lemma TailTextSteps(q: Option<seq<QueryPair>>, k: Option<string>, i2: string, i3: string)
    requires OptQueryText(q) + i3 == i2 && OptKeyText(k) + [] == i3
    ensures OptQueryText(q) + OptKeyText(k) == i2
  {
  }

  /** The error `parse_uri` reports for the nom error `(rest, kind)` on
      `input`:
      - `Alpha` with text left: the offending char, and the input up to and
        including it;
      - `Verify` with text left: the input before the error, and the rest;
      - anything else: the nom error itself. */
  function Classify(input: string, rest: string, kind: ErrorKind): (e: AmuriError)
    requires SuffixOf(rest, input)
    ensures kind == Alpha && rest != [] ==>
      e.UriNonAlphaParsingError? && e.problem == [rest[0]] && e.location + rest[1..] == input
      && |e.location| > 0 && e.location[|e.location| - 1] == rest[0]
    ensures kind == Verify && rest != [] ==>
      e.UriUnexpectedUnderscoreParsingError? && e.remaining == rest && e.processed + e.remaining == input
    ensures (kind != Alpha && kind != Verify) || rest == [] ==> e == UriParsingError(rest, kind)
  {
    if kind == Alpha && rest != [] then
      var n := |input| - |rest|;
      assert input[n] == rest[0];
      assert input[..n + 1] + rest[1..] == input;
      UriNonAlphaParsingError([rest[0]], input[..n + 1])
    else if kind == Verify && rest != [] then
      assert input[..|input| - |rest|] + rest == input;
      UriUnexpectedUnderscoreParsingError(input[..|input| - |rest|], rest)
    else
      UriParsingError(rest, kind)
  }

  /** No position is lost: the error determines where parsing stopped. */
  lemma ClassifyKeepsPosition(input: string, r1: string, k1: ErrorKind, r2: string, k2: ErrorKind)
    requires SuffixOf(r1, input) && SuffixOf(r2, input)
    requires Classify(input, r1, k1) == Classify(input, r2, k2)
    ensures r1 == r2
  {
    var e := Classify(input, r1, k1);
    if e.UriNonAlphaParsingError? {
      assert |r1| == |input| - |e.location| + 1 == |r2|;
    }
  }

  /** `bool::from_str`: exactly `true` or `false`. */
  function ParseBool(s: string): (r: Option<bool>)
    ensures r.Some? <==> s == "true" || s == "false"
    ensures r.Some? ==> r.value == (s == "true")
  {
    if s == "true" then Some(true) else if s == "false" then Some(false) else None
  }

  /** `value.parse::<bool>().unwrap_or(false)`: lenient, never an error. */
  function CreateFlag(value: string): (b: bool)
    ensures b <==> value == "true"
  {
    var p := ParseBool(value);
    if p.Some? then p.value else false
  }

  /** What the query pairs contribute to the model. */
  datatype QueryFlags = QueryFlags(version: Option<Versions.Version>, create: bool)

  /** A `version` pair whose value is not a version. */
  predicate BadVersion(p: QueryPair) {
    p.key == "version" && Versions.FromStr(p.value).Failure?
  }

  /** The loop over the query pairs, in order, from the flags read so far: a
      `version` pair replaces the version, and a bad value aborts with its
      error; a `create` pair replaces the flag. */
  function ReadPairs(ps: seq<QueryPair>, flags: QueryFlags): (r: Result<QueryFlags, AmuriError>)
    ensures r.Failure? ==> r.error.StrToIntError?
    decreases |ps|
  {
    if ps == [] then Success(flags)
    else
      var p := ps[0];
      if BadVersion(p) then Failure(Versions.FromStr(p.value).error)
      else
        var version := if p.key == "version" then Some(Versions.FromStr(p.value).value) else flags.version;
        var create := if p.key == "create" then CreateFlag(p.value) else flags.create;
        ReadPairs(ps[1..], QueryFlags(version, create))
  }

  /** The value of the last pair with this key, if any. */
  function LastValue(ps: seq<QueryPair>, key: string): (v: Option<string>)
    decreases |ps|
  {
    if ps == [] then None
    else if ps[|ps| - 1].key == key then Some(ps[|ps| - 1].value)
    else LastValue(ps[..|ps| - 1], key)
  }

  /** The last pair with a key is the last among the later pairs, or else
      the first pair itself. */
  lemma {:induction false} LastValueCons(ps: seq<QueryPair>, key: string)
    requires ps != []
    ensures LastValue(ps, key) ==
      if LastValue(ps[1..], key).Some? then LastValue(ps[1..], key)
      else if ps[0].key == key then Some(ps[0].value) else None
    decreases |ps|
  {
    if |ps| > 1 && ps[|ps| - 1].key != key {
      var init := ps[..|ps| - 1];
      assert init[1..] == ps[1..][..|ps[1..]| - 1];
      assert init[0] == ps[0];
      LastValueCons(init, key);
    } else if |ps| == 1 {
      assert ps[1..] == [];
    }
  }

  /** The value a `LastValue` returns belongs to a pair with that key. */
  lemma {:induction false} LastValueFound(ps: seq<QueryPair>, key: string)
    ensures LastValue(ps, key).Some? ==>
      exists i :: 0 <= i < |ps| && ps[i].key == key && ps[i].value == LastValue(ps, key).value
    decreases |ps|
  {
    if ps != [] && ps[|ps| - 1].key != key {
      var init := ps[..|ps| - 1];
      LastValueFound(init, key);
      if LastValue(init, key).Some? {
        var i :| 0 <= i < |init| && init[i].key == key && init[i].value == LastValue(init, key).value;
        assert ps[i] == init[i];
      }
    }
  }

  /** Query post-processing, against an independent statement of it:
      - it fails exactly when some `version` pair is bad, with the error of
        the first bad one;
      - otherwise the last `version` pair gives the version and the last
        `create` pair the flag, each kept from `flags` when no pair has that
        key. */
  lemma {:induction false} ReadPairsSpec(ps: seq<QueryPair>, flags: QueryFlags)
    ensures ReadPairs(ps, flags).Failure? <==> exists i :: 0 <= i < |ps| && BadVersion(ps[i])
    ensures ReadPairs(ps, flags).Failure? ==>
      exists i :: 0 <= i < |ps| && BadVersion(ps[i]) && (forall j :: 0 <= j < i ==> !BadVersion(ps[j]))
        && ReadPairs(ps, flags).error == StrToIntError(ps[i].value)
    ensures ReadPairs(ps, flags).Success? ==>
      ReadPairs(ps, flags).value.version ==
        (var v := LastValue(ps, "version");
         if v.Some? && Versions.FromStr(v.value).Success? then Some(Versions.FromStr(v.value).value) else flags.version)
    ensures ReadPairs(ps, flags).Success? ==>
      ReadPairs(ps, flags).value.create ==
        (var c := LastValue(ps, "create"); if c.Some? then c.value == "true" else flags.create)
    decreases |ps|
  {
    if ps != [] {
      var p := ps[0];
      if BadVersion(p) {
        assert BadVersion(ps[0]);
      } else {
        var next := QueryFlags(
          if p.key == "version" then Some(Versions.FromStr(p.value).value) else flags.version,
          if p.key == "create" then CreateFlag(p.value) else flags.create);
        assert ReadPairs(ps, flags) == ReadPairs(ps[1..], next);
        ReadPairsSpec(ps[1..], next);
        LastValueCons(ps, "version");
        LastValueCons(ps, "create");
        if exists i :: 0 <= i < |ps| && BadVersion(ps[i]) {
          var i :| 0 <= i < |ps| && BadVersion(ps[i]);
          assert i > 0 && BadVersion(ps[1..][i - 1]);
        }
        if ReadPairs(ps, flags).Failure? {
          var i :| 0 <= i < |ps[1..]| && BadVersion(ps[1..][i]) && (forall j :: 0 <= j < i ==> !BadVersion(ps[1..][j]))
            && ReadPairs(ps[1..], next).error == StrToIntError(ps[1..][i].value);
          assert ps[i + 1] == ps[1..][i];
          forall j | 0 <= j < i + 1
            ensures !BadVersion(ps[j])
          {
            if j > 0 { assert ps[j] == ps[1..][j - 1]; }
          }
        }
        if ReadPairs(ps, flags).Success? {
          LastValueFound(ps[1..], "version");
        }
      }
    }
  }

  /** The pairs of the query `parse_uri` read, if any. */
  function QueryPairsOf(input: string): seq<QueryPair> {
    var g := ParseSegments(input);
    if g.Ok? && g.value.query.Some? then g.value.query.value else []
  }

  /** The path segments of a model, with its level borrowed back. */
  function PathOf(m: AssetModel): Path {
    Path(Borrow(m.level), m.name, m.department, m.subcontext, m.snapshotType)
  }

  /** `parse_uri`. A success is the model whose scheme, path and key, with
      the query that was read, spell out the whole input; its path parts are
      grammar-valid, and its version and flag are what the query pairs
      give. */
  function ParseUri(input: string): (r: Result<AssetModel, AmuriError>)
    ensures r.Success? ==> ParseSegments(input).Ok?
    ensures ParseSegments(input).Err? ==> r.Failure? && !r.error.StrToIntError?
    ensures r.Failure? && r.error.StrToIntError? ==> ParseSegments(input).Ok?
    ensures r.Success? ==>
      SegmentsText(Segments(r.value.containerType, PathOf(r.value), ParseSegments(input).value.query, r.value.key)) == input
    ensures r.Success? ==> ValidPath(PathOf(r.value)) && (r.value.key.Some? ==> IsResource(r.value.key.value))
    ensures r.Success? ==>
      ReadPairs(QueryPairsOf(input), QueryFlags(None, false)) == Success(QueryFlags(r.value.version, r.value.createMissing))
  {
    match ParseSegments(input)
    case Err(e, k) => Failure(Classify(input, e, k))
    case Ok(_, g) =>
      var pairs := if g.query.Some? then g.query.value else [];
      match ReadPairs(pairs, QueryFlags(None, false))
      case Failure(err) => Failure(err)
      case Success(flags) =>
        var m := AssetModel(g.scheme, ToOwned(g.path.level), g.path.name, g.path.department,
                            g.path.subcontext, g.path.snapshotType, flags.version, g.key, flags.create);
        assert PathOf(m) == g.path by {
          ToOwnedBijective(g.path.level, g.path.level, m.level);
        }
        Success(m)
  }
}
