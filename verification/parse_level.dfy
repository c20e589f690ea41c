/** The simplified levelspec parser (src/parse/level.rs): `show`,
    `show.seq` or `show.seq.shot`, where the show is a resource, a
    two-part sequence is a resource, and the sequence and shot of a
    three-part level are level items, which may start with a digit. */
module LevelParser {
  import opened Wrappers
  import opened Nom
  import opened Utils
  import opened Resource
  import opened Levels
  import opened Errors

  /** A level item: a letter or digit, then body chars, not ending in `_`. */
  predicate IsLevelItem(x: string) {
    |x| > 0 && IsAsciiAlphanumeric(x[0]) && AllInClass(Body, x) && x[|x| - 1] != '_'
  }

  /** Every resource is also a level item. */
  lemma ResourceIsLevelItem(x: string)
    requires IsResource(x)
    ensures IsLevelItem(x)
  {
  }

  /** `parse_level_item`: `alphanumeric1`, then a body run; a non-empty body
      run whose last char is `_` fails `none_of("_")` (see `LastCharTest`),
      which reports its error at the one-char slice holding that `_`. */
  function ParseLevelItem(s: string): (r: IResult<string>)
    ensures r.Ok? ==> SuffixOf(r.rest, s) && r.value + r.rest == s
    ensures r == Err(s, AlphaNumeric) <==> s == [] || !IsAsciiAlphanumeric(s[0])
    ensures r.Err? ==> r.kind == AlphaNumeric || r.kind == ErrorKind.NoneOf
  {
    match Alphanumeric1(s)
    case Err(e, k) => Err(e, k)
    case Ok(i, r1) =>
      match ValidBody0(i)
      case Err(e, k) => Err(e, k)
      case Ok(i2, r2) =>
        ConsumedTwice(s, r1, i, r2, i2);
        NoTrailingUnderscore(r2, i2, s[..|r1| + |r2|])
  }

  /** The tail test of `parse_level_item`: a non-empty body run `r2` must
      pass `none_of("_")` on its last char before `item` is returned with
      `rest`; an empty run is not tested. */
  function NoTrailingUnderscore(r2: string, rest: string, item: string): (r: IResult<string>)
    ensures r.Ok? <==> r2 == [] || r2[|r2| - 1] != '_'
    ensures r.Ok? ==> r == Ok(rest, item)
    ensures r.Err? ==> r == Err("_", ErrorKind.NoneOf)
  {
    if r2 == [] then Ok(rest, item)
    else
      match MatchNoneOf("_", [r2[|r2| - 1]])
      case Err(e, k) => Err(e, k)
      case Ok(_, _) => Ok(rest, item)
  }

  /** The tail test of `parse_level_item` is `none_of("_")` applied to the
      one-char slice holding the body run's last char. */
  lemma LastCharTest(ch: char)
    ensures MatchNoneOf("_", [ch]).Err? <==> ch == '_'
    ensures MatchNoneOf("_", [ch]).Err? ==> MatchNoneOf("_", [ch]) == Err([ch], ErrorKind.NoneOf)
  {
  }

  /** The two scans of `parse_level_item` on input that starts with a letter
      or digit, as one scan of body chars. */
  lemma LevelItemScans(s: string)
    requires s != [] && IsAsciiAlphanumeric(s[0])
    ensures 1 <= RunLength(LetterOrDigit, s) <= RunLength(Body, s)
    ensures Alphanumeric1(s) == Ok(s[RunLength(LetterOrDigit, s)..], s[..RunLength(LetterOrDigit, s)])
    ensures ValidBody0(s[RunLength(LetterOrDigit, s)..])
      == Ok(s[RunLength(Body, s)..], s[RunLength(LetterOrDigit, s)..RunLength(Body, s)])
    ensures s[RunLength(LetterOrDigit, s) - 1] != '_'
  {
    LeadThenBody(LetterOrDigit, s);
    LevelItemLead(s);
  }

  /** The leading scan takes at least one char, and its last one is a letter
      or digit. */
  lemma LevelItemLead(s: string)
    requires s != [] && IsAsciiAlphanumeric(s[0])
    ensures var a := RunLength(LetterOrDigit, s);
      && 1 <= a <= |s|
      && Alphanumeric1(s) == Ok(s[a..], s[..a])
      && s[a - 1] != '_'
  {
    var a := RunLength(LetterOrDigit, s);
    assert a >= 1;
    assert s[..a][a - 1] == s[a - 1];
  }

  lemma BodyRunNonEmpty(s: string)
    requires s != [] && IsAsciiAlphanumeric(s[0])
    ensures RunLength(Body, s) >= 1
  {
  }

  /** `parse_level_item` once its two scans are known and the body run ends
      in `_`: the `none_of("_")` test fails on that last char. */
  lemma ScansThenUnderscore(s: string, r1: string, i: string, r2: string, i2: string)
    requires Alphanumeric1(s) == Ok(i, r1)
    requires ValidBody0(i) == Ok(i2, r2)
    requires r2 != [] && r2[|r2| - 1] == '_'
    ensures ParseLevelItem(s) == Err("_", ErrorKind.NoneOf)
  {
    assert MatchNoneOf("_", [r2[|r2| - 1]]) == Err("_", ErrorKind.NoneOf);
  }

  /** `parse_level_item` once its two scans are known and the body run adds
      nothing: the leading run is the item. */
  lemma ScansThenEmpty(s: string, r1: string, i: string)
    requires Alphanumeric1(s) == Ok(i, r1)
    requires ValidBody0(i) == Ok(i, [])
    ensures ParseLevelItem(s) == Ok(i, r1)
  {
    TakeOfConcat(r1, i);
  }

  /** `parse_level_item` once its two scans are known and the body run ends
      in a char other than `_`: both runs are taken. */
  lemma ScansThenTail(s: string, r1: string, i: string, r2: string, i2: string)
    requires Alphanumeric1(s) == Ok(i, r1)
    requires ValidBody0(i) == Ok(i2, r2)
    requires r2 != [] && r2[|r2| - 1] != '_'
    ensures ParseLevelItem(s) == Ok(i2, r1 + r2)
  {
    ConsumedTwice(s, r1, i, r2, i2);
  }

  /** The two scans of `parse_level_item` on a run that ends in `_`: the
      body scan reaches past the leading letters and digits, which cannot
      end in `_`, and ends on that `_`. */
  lemma UnderscoreScans(s: string)
    requires s != [] && IsAsciiAlphanumeric(s[0]) && s[RunLength(Body, s) - 1] == '_'
    ensures Alphanumeric1(s).Ok?
    ensures ValidBody0(Alphanumeric1(s).rest).value != []
    ensures LastOf(ValidBody0(Alphanumeric1(s).rest).value) == '_'
  {
    LevelItemScans(s);
    SliceParts(s, RunLength(LetterOrDigit, s), RunLength(Body, s));
  }

  /** The two scans of `parse_level_item` on a run that does not end in
      `_`: together they read the whole run. */
  lemma WholeScans(s: string)
    requires s != [] && IsAsciiAlphanumeric(s[0]) && s[RunLength(Body, s) - 1] != '_'
    ensures Alphanumeric1(s).Ok?
    ensures ValidBody0(Alphanumeric1(s).rest).rest == s[RunLength(Body, s)..]
    ensures Alphanumeric1(s).value + ValidBody0(Alphanumeric1(s).rest).value == s[..RunLength(Body, s)]
    ensures ValidBody0(Alphanumeric1(s).rest).value != [] ==> LastOf(ValidBody0(Alphanumeric1(s).rest).value) != '_'
  {
    LevelItemScans(s);
    SliceParts(s, RunLength(LetterOrDigit, s), RunLength(Body, s));
  }

  function LastOf(x: string): char
    requires x != []
  {
    x[|x| - 1]
  }

  /** The runs `s[..a]` and `s[a..n]` make up `s[..n]`, and a non-empty
      second run ends on `s[n - 1]`. */
  lemma SliceParts(s: string, a: nat, n: nat)
    requires a <= n <= |s|
    ensures s[..a] + s[a..n] == s[..n]
    ensures a < n ==> s[a..n] != [] && LastOf(s[a..n]) == s[n - 1]
  {
  }

  /** A body run that ends in `_` fails `none_of("_")`. */
  lemma LevelItemUnderscore(s: string)
    requires s != [] && IsAsciiAlphanumeric(s[0]) && s[RunLength(Body, s) - 1] == '_'
    ensures ParseLevelItem(s) == Err("_", ErrorKind.NoneOf)
  {
    UnderscoreScans(s);
    var p := Alphanumeric1(s);
    var q := ValidBody0(p.rest);
    assert q.value[|q.value| - 1] == LastOf(q.value);
    ScansThenUnderscore(s, p.value, p.rest, q.value, q.rest);
  }

  /** Otherwise the whole body run is the item. */
  lemma LevelItemWhole(s: string)
    requires s != [] && IsAsciiAlphanumeric(s[0]) && s[RunLength(Body, s) - 1] != '_'
    ensures ParseLevelItem(s) == Ok(s[RunLength(Body, s)..], s[..RunLength(Body, s)])
  {
    WholeScans(s);
    var p := Alphanumeric1(s);
    var q := ValidBody0(p.rest);
    if q.value == [] {
      ScansThenEmpty(s, p.value, p.rest);
    } else {
      assert q.value[|q.value| - 1] == LastOf(q.value);
      ScansThenTail(s, p.value, p.rest, q.value, q.rest);
    }
  }

  /** One-scan description of `parse_level_item`. */
  lemma LevelItemSpec(s: string)
    ensures ParseLevelItem(s) ==
      var n := RunLength(Body, s);
      if s == [] || !IsAsciiAlphanumeric(s[0]) then Err(s, AlphaNumeric)
      else if s[n - 1] == '_' then Err("_", ErrorKind.NoneOf)
      else Ok(s[n..], s[..n])
  {
    if s != [] && IsAsciiAlphanumeric(s[0]) {
      BodyRunNonEmpty(s);
      if s[RunLength(Body, s) - 1] == '_' {
        LevelItemUnderscore(s);
      } else {
        LevelItemWhole(s);
      }
    }
  }

  /** What `parse_level_item` promises: a success is a whole level item
      followed by a char that cannot continue it, and a `NoneOf` failure
      stands at a `_`. */
  lemma LevelItemSound(s: string)
    ensures var r := ParseLevelItem(s);
      && (r.Ok? ==> IsLevelItem(r.value) && Delimits(Body, r.rest))
      && (r.Err? && r.kind == ErrorKind.NoneOf ==> r.rest == "_")
  {
    if s != [] && IsAsciiAlphanumeric(s[0]) {
      BodyRunNonEmpty(s);
      var n := RunLength(Body, s);
      if s[n - 1] == '_' {
        LevelItemUnderscore(s);
      } else {
        LevelItemWhole(s);
        assert s[..n][0] == s[0] && s[..n][n - 1] == s[n - 1];
      }
    }
  }

  /** A level item followed by a char that cannot continue it parses as
      exactly that item. */
  lemma LevelItemConcat(x: string, t: string)
    requires IsLevelItem(x) && Delimits(Body, t)
    ensures ParseLevelItem(x + t) == Ok(t, x)
  {
    var s := x + t;
    RunLengthConcat(Body, x, t);
    assert s[..|x|] == x && s[|x|..] == t;
    assert s[|x| - 1] == x[|x| - 1];
    LevelItemSpec(s);
  }

  /** A run of body chars led by a letter or digit and ending in `_` fails
      with `NoneOf` at `"_"`, wherever the run ends in the input. */
  lemma LevelItemTrailingUnderscore(x: string, t: string)
    requires |x| > 0 && IsAsciiAlphanumeric(x[0]) && AllInClass(Body, x) && x[|x| - 1] == '_'
    requires Delimits(Body, t)
    ensures ParseLevelItem(x + t) == Err("_", ErrorKind.NoneOf)
  {
    var s := x + t;
    RunLengthConcat(Body, x, t);
    assert s[|x| - 1] == x[|x| - 1];
    LevelItemSpec(s);
  }

  /** `parse_show`: a resource, as a `Show`. */
  function ParseShow(s: string): (r: IResult<Level>)
    ensures SuffixOf(r.rest, s)
    ensures r.Ok? ==> r.value.Show? && IsResource(r.value.show) && r.value.show + r.rest == s
    ensures r.Ok? ==> Delimits(Body, r.rest) && ToString(ToOwned(r.value)) + r.rest == s
    ensures r.Err? <==> ParseResource(s).Err?
    ensures r.Err? ==> r.rest == ParseResource(s).rest && r.kind == ParseResource(s).kind
  {
    match ParseResource(s)
    case Err(e, k) => Err(e, k)
    case Ok(i, r) => Ok(i, Level.Show(r))
  }

  /** `parse_seq` (`parse_sequence` is the same parser under its full name):
      two resources separated by `.`. */
  function ParseSeq(s: string): (r: IResult<Level>)
    ensures SuffixOf(r.rest, s)
    ensures r.Ok? ==> r.value.Sequence? && IsResource(r.value.show) && IsResource(r.value.sequence)
    ensures r.Ok? ==> r.value.show + "." + r.value.sequence + r.rest == s && Delimits(Body, r.rest)
    ensures ParseResource(s).Err? ==> r.Err? && r.rest == ParseResource(s).rest && r.kind == ParseResource(s).kind
  {
    match ParseResource(s)
    case Err(e, k) => Err(e, k)
    case Ok(i1, a) =>
      match MatchTag(".", i1)
      case Err(e, k) => SuffixOfTransitive(e, i1, s); Err(e, k)
      case Ok(i2, _) =>
        SuffixOfTransitive(i2, i1, s);
        match ParseResource(i2)
        case Err(e, k) => SuffixOfTransitive(e, i2, s); Err(e, k)
        case Ok(i3, b) =>
          SuffixOfTransitive(i3, i2, s);
          ConcatAssoc4(a, ".", b, i3);
          Ok(i3, Level.Sequence(a, b))
  }

  /** `parse_shot`: a resource, `.`, a level item, `.`, a level item. */
  function ParseShot(s: string): (r: IResult<Level>)
    ensures r.Ok? ==> SuffixOf(r.rest, s)
    ensures r.Ok? ==> r.value.Shot? && IsResource(r.value.show)
    ensures r.Ok? ==> IsLevelItem(r.value.sequence) && IsLevelItem(r.value.shot)
    ensures r.Ok? ==> r.value.show + "." + r.value.sequence + "." + r.value.shot + r.rest == s
    ensures r.Ok? ==> Delimits(Body, r.rest)
    ensures ParseResource(s).Err? ==> r.Err? && r.rest == ParseResource(s).rest && r.kind == ParseResource(s).kind
  {
    match ParseResource(s)
    case Err(e, k) => Err(e, k)
    case Ok(i1, a) =>
      match MatchTag(".", i1)
      case Err(e, k) => Err(e, k)
      case Ok(i2, _) =>
        match ParseLevelItem(i2)
        case Err(e, k) => Err(e, k)
        case Ok(i3, b) =>
          match MatchTag(".", i3)
          case Err(e, k) => Err(e, k)
          case Ok(i4, _) =>
            match ParseLevelItem(i4)
            case Err(e, k) => Err(e, k)
            case Ok(i5, c) =>
              LevelItemSound(i2);
              LevelItemSound(i4);
              ShotText(s, a, b, c, i1, i2, i3, i4, i5);
              Ok(i5, Level.Shot(a, b, c))
  }

  lemma ShotText(s: string, a: string, b: string, c: string,
                 i1: string, i2: string, i3: string, i4: string, i5: string)
    requires a + i1 == s && "." + i2 == i1 && b + i3 == i2 && "." + i4 == i3 && c + i5 == i4
    ensures a + "." + b + "." + c + i5 == s && SuffixOf(i5, s)
  {
    ConcatAssoc6(a, ".", b, ".", c, i5);
    SuffixOfAppend(a + "." + b + "." + c, i5);
  }

  /** The alternation `alt((parse_shot, parse_seq, parse_show))`, without
      the closing `/`: the first alternative that succeeds wins. When all
      three fail they fail with one and the same error, that of
      `parse_resource` on the input, so the error reported does not depend
      on how `alt` picks among its alternatives' errors. */
  function ParseLevelNoslash(s: string): (r: IResult<Level>)
    ensures r.Err? <==> ParseResource(s).Err?
    ensures r.Err? ==> ParseShot(s) == r && ParseSeq(s) == r && ParseShow(s) == r
    ensures r.Err? ==> r.rest == ParseResource(s).rest && r.kind == ParseResource(s).kind
    ensures r.Ok? ==> SuffixOf(r.rest, s) && Delimits(Body, r.rest)
    ensures r.Ok? ==> ToString(ToOwned(r.value)) + r.rest == s
    ensures r.Ok? ==> ValidLevel(ToOwned(r.value))
    ensures ParseShot(s).Ok? ==> r == ParseShot(s)
    ensures ParseShot(s).Err? && ParseSeq(s).Ok? ==> r == ParseSeq(s)
    ensures ParseShot(s).Err? && ParseSeq(s).Err? ==> r == ParseShow(s)
  {
    var shot := ParseShot(s);
    if shot.Ok? then
      LevelText(shot.value, shot.rest, s);
      assert ValidLevel(ToOwned(shot.value)) by { ShotValid(shot.value); }
      shot
    else
      var sq := ParseSeq(s);
      if sq.Ok? then
        LevelText(sq.value, sq.rest, s);
        assert ValidLevel(ToOwned(sq.value)) by { SequenceValid(sq.value); }
        sq
      else
        var sh := ParseShow(s);
        assert sh.Ok? ==> ValidLevel(ToOwned(sh.value)) by {
          if sh.Ok? { ShowValid(sh.value); }
        }
        sh
  }

  lemma ShotValid(l: Level)
    requires l.Shot? && IsResource(l.show) && IsLevelItem(l.sequence) && IsLevelItem(l.shot)
    ensures ValidLevel(ToOwned(l))
  {
  }

  lemma SequenceValid(l: Level)
    requires l.Sequence? && IsResource(l.show) && IsResource(l.sequence)
    ensures ValidLevel(ToOwned(l))
  {
  }

  lemma ShowValid(l: Level)
    requires l.Show? && IsResource(l.show)
    ensures ValidLevel(ToOwned(l))
  {
  }

  /** The text a parsed level covers is its dotted rendering. */
  lemma LevelText(l: Level, rest: string, s: string)
    requires l.Show? ==> l.show + rest == s
    requires l.Sequence? ==> l.show + "." + l.sequence + rest == s
    requires l.Shot? ==> l.show + "." + l.sequence + "." + l.shot + rest == s
    ensures ToString(ToOwned(l)) + rest == s
  {
  }

  /** `parse_level`: the alternation, then `/`. A missing `/` after the
      alternative that succeeded is final: the other alternatives are not
      retried. */
  function ParseLevel(s: string): (r: IResult<Level>)
    ensures r.Ok? <==> ParseLevelNoslash(s).Ok? && "/" <= ParseLevelNoslash(s).rest
    ensures r.Ok? ==> r.value == ParseLevelNoslash(s).value && "/" + r.rest == ParseLevelNoslash(s).rest
    ensures ParseLevelNoslash(s).Ok? && r.Err? ==> r == Err(ParseLevelNoslash(s).rest, Tag)
    ensures ParseLevelNoslash(s).Err? ==> r == ParseLevelNoslash(s)
    ensures SuffixOf(r.rest, s)
    ensures r.Ok? ==> ToString(ToOwned(r.value)) + "/" + r.rest == s
    ensures r.Ok? ==> ValidLevel(ToOwned(r.value))
  {
    var n := ParseLevelNoslash(s);
    var r := Terminated(n, "/");
    if r.Ok? then
      SuffixOfTransitive(r.rest, n.rest, s);
      ConcatAssoc(ToString(ToOwned(r.value)), "/", r.rest);
      r
    else if n.Ok? then
      SuffixOfTransitive(r.rest, n.rest, s);
      r
    else r
  }

  /** `Level::from_str`: the alternation on the whole input, whatever it
      leaves unparsed; any failure is `LevelParsingFailure` carrying the
      input. */
  function LevelFromStr(input: string): (r: Result<Level, AmuriError>)
    ensures r.Failure? <==> ParseResource(input).Err?
    ensures r.Failure? ==> r.error == LevelParsingFailure(input)
    ensures r.Success? ==> exists rest :: ParseLevelNoslash(input) == Ok(rest, r.value)
  {
    match ParseLevelNoslash(input)
    case Err(_, _) => Failure(LevelParsingFailure(input))
    case Ok(_, l) => Success(l)
  }

  /** A level whose parts are grammar-valid for its variant. */
  predicate ValidLevel(o: LevelOwned) {
    match o
    case Show(a) => IsResource(a)
    case Sequence(a, b) => IsResource(a) && IsResource(b)
    case Shot(a, b, c) => IsResource(a) && IsLevelItem(b) && IsLevelItem(c)
  }

  /** What may follow a rendered level: nothing, or a char that neither
      continues a part nor starts a further `.` part. */
  predicate EndsLevel(u: string) {
    u == [] || (!IsBody(u[0]) && u[0] != '.')
  }

  lemma ShowThen(a: string, u: string)
    requires IsResource(a) && EndsLevel(u)
    ensures ParseShot(a + u).Err? && ParseSeq(a + u).Err?
    ensures ParseShow(a + u) == Ok(u, Level.Show(a))
  {
    ResourceConcat(a, u);
  }

  lemma SequenceThen(a: string, b: string, u: string)
    requires IsResource(a) && IsResource(b) && EndsLevel(u)
    ensures ParseShot(a + "." + b + u).Err?
    ensures ParseSeq(a + "." + b + u) == Ok(u, Level.Sequence(a, b))
  {
    ConcatAssoc4(a, ".", b, u);
    ResourceIsLevelItem(b);
    SequenceTextSteps(a, b, u);
  }

  /** Step by step through `a.b` followed by `u`. */
  lemma SequenceTextSteps(a: string, b: string, u: string)
    requires IsResource(a) && IsResource(b) && IsLevelItem(b) && EndsLevel(u)
    ensures ParseShot(a + ("." + (b + u))).Err?
    ensures ParseSeq(a + ("." + (b + u))) == Ok(u, Level.Sequence(a, b))
  {
    var s := a + ("." + (b + u));
    var i1 := "." + (b + u);
    ResourceConcat(a, i1);
    assert ParseResource(s) == Ok(i1, a);
    assert i1[1..] == b + u;
    assert MatchTag(".", i1) == Ok(b + u, ".");
    SeqConcat(a, b, u);
    LevelItemConcat(b, u);
    assert ParseLevelItem(b + u) == Ok(u, b);
    assert MatchTag(".", u).Err?;
  }

  /** Two resources around a `.`, followed by a char that cannot continue
      the second, parse as exactly that sequence. */
  lemma SeqConcat(a: string, b: string, u: string)
    requires IsResource(a) && IsResource(b) && Delimits(Body, u)
    ensures ParseSeq(a + ("." + (b + u))) == Ok(u, Level.Sequence(a, b))
  {
    var s := a + ("." + (b + u));
    var i1 := "." + (b + u);
    ResourceConcat(a, i1);
    assert ParseResource(s) == Ok(i1, a);
    assert i1[1..] == b + u;
    assert MatchTag(".", i1) == Ok(b + u, ".");
    ResourceConcat(b, u);
    assert ParseResource(b + u) == Ok(u, b);
  }

  lemma ShotThen(a: string, b: string, c: string, u: string)
    requires IsResource(a) && IsLevelItem(b) && IsLevelItem(c) && EndsLevel(u)
    ensures ParseShot(a + "." + b + "." + c + u) == Ok(u, Level.Shot(a, b, c))
  {
    ConcatAssoc6(a, ".", b, ".", c, u);
    ShotTextSteps(a, b, c, u);
  }

  /** Step by step through `a.b.c` followed by `u`. */
  lemma ShotTextSteps(a: string, b: string, c: string, u: string)
    requires IsResource(a) && IsLevelItem(b) && IsLevelItem(c) && Delimits(Body, u)
    ensures ParseShot(a + ("." + (b + ("." + (c + u))))) == Ok(u, Level.Shot(a, b, c))
  {
    var s := a + ("." + (b + ("." + (c + u))));
    var i1 := "." + (b + ("." + (c + u)));
    ResourceConcat(a, i1);
    assert ParseResource(s) == Ok(i1, a);
    assert i1[1..] == b + ("." + (c + u));
    assert MatchTag(".", i1) == Ok(b + ("." + (c + u)), ".");
    LevelItemConcat(b, "." + (c + u));
    assert ParseLevelItem(b + ("." + (c + u))) == Ok("." + (c + u), b);
    assert ("." + (c + u))[1..] == c + u;
    assert MatchTag(".", "." + (c + u)) == Ok(c + u, ".");
    LevelItemConcat(c, u);
    assert ParseLevelItem(c + u) == Ok(u, c);
  }

  /** The alternation tries the shot first: a shot is taken whenever one
      reads, even when a `.` follows that no level can hold. */
  lemma ShotFirst(a: string, b: string, c: string, u: string)
    requires IsResource(a) && IsLevelItem(b) && IsLevelItem(c) && Delimits(Body, u)
    ensures ParseLevelNoslash(a + ("." + (b + ("." + (c + u))))) == Ok(u, Level.Shot(a, b, c))
  {
    ShotTextSteps(a, b, c, u);
  }

  /** Then the sequence: when the shot's last item ends in `_`, the shot
      fails and the sequence is taken, leaving the third part unread. */
  lemma SequenceWhenShotRefused(a: string, b: string, x: string, t: string)
    requires IsResource(a) && IsResource(b) && Delimits(Body, t)
    requires |x| > 0 && IsAsciiAlphanumeric(x[0]) && AllInClass(Body, x) && x[|x| - 1] == '_'
    ensures ParseShot(a + ("." + (b + ("." + (x + t))))).Err?
    ensures ParseLevelNoslash(a + ("." + (b + ("." + (x + t))))) == Ok("." + (x + t), Level.Sequence(a, b))
  {
    var u := "." + (x + t);
    var s := a + ("." + (b + u));
    var i1 := "." + (b + u);
    assert ByteOf('.') == 0x2E;
    ResourceConcat(a, i1);
    assert ParseResource(s) == Ok(i1, a);
    assert i1[1..] == b + u;
    assert MatchTag(".", i1) == Ok(b + u, ".");
    ResourceIsLevelItem(b);
    LevelItemConcat(b, u);
    assert ParseLevelItem(b + u) == Ok(u, b);
    assert u[1..] == x + t;
    assert MatchTag(".", u) == Ok(x + t, ".");
    LevelItemTrailingUnderscore(x, t);
    assert ParseShot(s).Err?;
    SeqConcat(a, b, u);
  }

  /** Rendering then parsing without the `/` gives the level back, and
      stops exactly where the level text ends. */
  lemma {:induction false} NoslashRoundTrip(o: LevelOwned, u: string)
    requires ValidLevel(o) && EndsLevel(u)
    ensures ParseLevelNoslash(ToString(o) + u) == Ok(u, Borrow(o))
  {
    match o
    case Show(a) => ShowThen(a, u);
    case Sequence(a, b) => SequenceThen(a, b, u);
    case Shot(a, b, c) => ShotThen(a, b, c, u);
  }

  /** Rendering then parsing with the closing `/` gives the level back and
      leaves exactly what follows the `/`. */
  lemma LevelRoundTrip(o: LevelOwned, t: string)
    requires ValidLevel(o)
    ensures ParseLevel(ToString(o) + "/" + t) == Ok(t, Borrow(o))
  {
    ConcatAssoc(ToString(o), "/", t);
    assert ByteOf('/') == 0x2F;
    NoslashRoundTrip(o, "/" + t);
  }

  /** `Level::from_str` inverts `LevelOwned::to_string` on valid levels. */
  lemma FromStrRoundTrip(o: LevelOwned)
    requires ValidLevel(o)
    ensures LevelFromStr(ToString(o)).Success?
    ensures ToOwned(LevelFromStr(ToString(o)).value) == o
  {
    assert ToString(o) + "" == ToString(o);
    NoslashRoundTrip(o, "");
    ToOwnedBijective(Borrow(o), Borrow(o), o);
  }

  /** `parse_show` cases from the source's tests. */
  lemma ShowExample()
    ensures ParseShow("DEV01") == Ok("", Level.Show("DEV01"))
  {
    assert "DEV01" + "" == "DEV01";
    assert ParseResource("DEV01" + "") == Ok("", "DEV01") by {
      ResourceConcat("DEV01", "");
    }
  }

  lemma ShowUpToPeriodExample()
    ensures ParseShow("DEV01.") == Ok(".", Level.Show("DEV01"))
  {
    assert "DEV01" + "." == "DEV01.";
    assert ByteOf('.') == 0x2E;
    assert ParseResource("DEV01" + ".") == Ok(".", "DEV01") by {
      ResourceConcat("DEV01", ".");
    }
  }

  lemma ShowUnderscoreExample()
    ensures ParseShow("DEV01_") == Err("01_", Verify)
  {
    var x := "DEV01_";
    assert x + "" == x;
    assert RunLength(Letter, x) == 3;
    assert ParseResource(x + "") == Err((x + "")[RunLength(Letter, x)..], Verify) by {
      ResourceTrailingUnderscore(x, "");
    }
    assert x[3..] == "01_";
  }

  /** `parse_seq` cases from the source's tests. */
  lemma SeqExample()
    ensures ParseSeq("dev01.rd") == Ok("", Level.Sequence("dev01", "rd"))
  {
    assert "dev01" + ("." + ("rd" + "")) == "dev01.rd";
    assert ParseSeq("dev01" + ("." + ("rd" + ""))) == Ok("", Level.Sequence("dev01", "rd")) by {
      SeqConcat("dev01", "rd", "");
    }
  }

  lemma SeqUpToPeriodExample()
    ensures ParseSeq("dev01.rd.") == Ok(".", Level.Sequence("dev01", "rd"))
  {
    assert "dev01" + ("." + ("rd" + ".")) == "dev01.rd.";
    assert ByteOf('.') == 0x2E;
    assert ParseSeq("dev01" + ("." + ("rd" + "."))) == Ok(".", Level.Sequence("dev01", "rd")) by {
      SeqConcat("dev01", "rd", ".");
    }
  }

  /** `parse_level_item` cases from the source's tests. */
  lemma LevelItemDigitsExample()
    ensures ParseLevelItem("0001") == Ok("", "0001")
  {
    assert "0001" + "" == "0001";
    assert ParseLevelItem("0001" + "") == Ok("", "0001") by {
      LevelItemConcat("0001", "");
    }
  }

  lemma LevelItemMixedExample()
    ensures ParseLevelItem("a0001") == Ok("", "a0001")
  {
    assert "a0001" + "" == "a0001";
    assert ParseLevelItem("a0001" + "") == Ok("", "a0001") by {
      LevelItemConcat("a0001", "");
    }
  }

  lemma LevelItemSpaceExample()
    ensures ParseLevelItem("a 0001") == Ok(" 0001", "a")
  {
    assert "a" + " 0001" == "a 0001";
    assert ByteOf(' ') == 0x20;
    assert ParseLevelItem("a" + " 0001") == Ok(" 0001", "a") by {
      LevelItemConcat("a", " 0001");
    }
  }

  lemma LevelItemUnderscoreExample()
    ensures ParseLevelItem("0001_") == Err("_", ErrorKind.NoneOf)
  {
    assert "0001_" + "" == "0001_";
    assert ParseLevelItem("0001_" + "") == Err("_", ErrorKind.NoneOf) by {
      LevelItemTrailingUnderscore("0001_", "");
    }
  }

  /** `parse_shot("dev01.rd.0001")` */
  lemma ShotExample()
    ensures ParseShot("dev01.rd.0001") == Ok("", Level.Shot("dev01", "rd", "0001"))
  {
    assert "dev01" + "." + "rd" + "." + "0001" + "" == "dev01.rd.0001";
    assert ParseShot("dev01" + "." + "rd" + "." + "0001" + "") == Ok("", Level.Shot("dev01", "rd", "0001")) by {
      ShotThen("dev01", "rd", "0001", "");
    }
  }

  /** `parse_level` cases from the source's tests. */
  lemma LevelShotExample()
    ensures ParseLevel("dev01.rd.9999/") == Ok("", Level.Shot("dev01", "rd", "9999"))
  {
    var o := LevelOwned.Shot("dev01", "rd", "9999");
    assert ToString(o) + "/" + "" == "dev01.rd.9999/";
    assert ParseLevel(ToString(o) + "/" + "") == Ok("", Borrow(o)) by {
      LevelRoundTrip(o, "");
    }
  }

  lemma LevelSequenceExample()
    ensures ParseLevel("dev01.rd/") == Ok("", Level.Sequence("dev01", "rd"))
  {
    var o := LevelOwned.Sequence("dev01", "rd");
    assert ToString(o) + "/" + "" == "dev01.rd/";
    assert ParseLevel(ToString(o) + "/" + "") == Ok("", Borrow(o)) by {
      LevelRoundTrip(o, "");
    }
  }

  lemma LevelShowExample()
    ensures ParseLevel("dev01/") == Ok("", Level.Show("dev01"))
  {
    var o := LevelOwned.Show("dev01");
    assert ToString(o) + "/" + "" == "dev01/";
    assert ParseLevel(ToString(o) + "/" + "") == Ok("", Borrow(o)) by {
      LevelRoundTrip(o, "");
    }
  }

  /** A level followed by anything but `/` fails with `Tag` right after the
      level text: the alternative that matched is final. */
  lemma LevelMissingSlash(o: LevelOwned, u: string)
    requires ValidLevel(o) && EndsLevel(u) && !("/" <= u)
    ensures ParseLevel(ToString(o) + u) == Err(u, Tag)
  {
    NoslashRoundTrip(o, u);
  }

  /** The show succeeds on `"dev01"`, the `/` is then missing, and the
      sequence alternative is not retried. */
  lemma LevelMissingSlashExample()
    ensures ParseLevel("dev01 .rd/") == Err(" .rd/", Tag)
  {
    var o := LevelOwned.Show("dev01");
    assert ToString(o) + " .rd/" == "dev01 .rd/";
    assert ByteOf(' ') == 0x20;
    assert " .rd/"[0] == ' ';
    assert ParseLevel(ToString(o) + " .rd/") == Err(" .rd/", Tag) by {
      LevelMissingSlash(o, " .rd/");
    }
  }

  /** `Level::from_str` cases from the source's tests. */
  lemma FromStrShotExample()
    ensures LevelFromStr("dev02.rd.9999") == Success(Level.Shot("dev02", "rd", "9999"))
  {
    var o := LevelOwned.Shot("dev02", "rd", "9999");
    assert ToString(o) + "" == "dev02.rd.9999";
    assert ParseLevelNoslash(ToString(o) + "") == Ok("", Borrow(o)) by {
      NoslashRoundTrip(o, "");
    }
  }

  lemma FromStrSequenceExample()
    ensures LevelFromStr("dev02.rd") == Success(Level.Sequence("dev02", "rd"))
  {
    var o := LevelOwned.Sequence("dev02", "rd");
    assert ToString(o) + "" == "dev02.rd";
    assert ParseLevelNoslash(ToString(o) + "") == Ok("", Borrow(o)) by {
      NoslashRoundTrip(o, "");
    }
  }

  lemma FromStrShowExample()
    ensures LevelFromStr("dev02") == Success(Level.Show("dev02"))
  {
    var o := LevelOwned.Show("dev02");
    assert ToString(o) + "" == "dev02";
    assert ParseLevelNoslash(ToString(o) + "") == Ok("", Borrow(o)) by {
      NoslashRoundTrip(o, "");
    }
  }

  lemma FromStrFailureExample()
    ensures LevelFromStr("_dev02.rd.9999") == Failure(LevelParsingFailure("_dev02.rd.9999"))
  {
    var s := "_dev02.rd.9999";
    assert s[0] == '_' && !IsAsciiAlpha(s[0]);
    assert ParseResource(s) == Err(s, Alpha);
  }

  /** The alternation tries the shot first: `dev01.rd.9999.x/` is a shot
      that `/` does not follow. */
  lemma ShotFirstExample()
    ensures ParseLevelNoslash("dev01.rd.9999.x/") == Ok(".x/", Level.Shot("dev01", "rd", "9999"))
    ensures ParseLevel("dev01.rd.9999.x/") == Err(".x/", Tag)
  {
    assert ByteOf('.') == 0x2E;
    assert "dev01" + ("." + ("rd" + ("." + ("9999" + ".x/")))) == "dev01.rd.9999.x/";
    ShotFirst("dev01", "rd", "9999", ".x/");
    assert ".x/"[0] != '/';
  }

  /** Then the sequence: `dev01.rd.9999_/` falls back to `dev01.rd`. */
  lemma SequenceFallbackExample()
    ensures ParseLevelNoslash("dev01.rd.9999_/") == Ok(".9999_/", Level.Sequence("dev01", "rd"))
  {
    assert ByteOf('.') == 0x2E;
    SlashDelimits();
    assert "." + ("9999_" + "/") == ".9999_/";
    assert "dev01" + ("." + ("rd" + ".9999_/")) == "dev01.rd.9999_/";
    SequenceWhenShotRefused("dev01", "rd", "9999_", "/");
  }

  /** `/` cannot continue a run of body chars. */
  lemma SlashDelimits()
    ensures Delimits(Body, "/")
  {
    assert ByteOf('/') == 0x2F;
  }

  /** `/` does not follow that sequence, so `parse_level` reports `Tag`
      where the sequence ends. */
  lemma SequenceFallbackSlashExample()
    ensures ParseLevel("dev01.rd.9999_/") == Err(".9999_/", Tag)
  {
    SequenceFallbackExample();
    assert ".9999_/"[0] != '/';
  }

  /** `Level::from_str` keeps whatever the alternation took and ignores the
      rest: `dev01.rd.9999_` is the sequence `dev01.rd`. */
  lemma FromStrSequenceFallbackExample()
    ensures LevelFromStr("dev01.rd.9999_") == Success(Level.Sequence("dev01", "rd"))
  {
    assert ByteOf('.') == 0x2E;
    assert "dev01" + ("." + ("rd" + ("." + ("9999_" + "")))) == "dev01.rd.9999_";
    SequenceWhenShotRefused("dev01", "rd", "9999_", "");
  }
}
