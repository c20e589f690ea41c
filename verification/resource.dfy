/** The resource rule (src/parse/resource.rs): a letter-led run of body
    characters that must not end in `_`. The same shape, `alpha1` followed by
    a `valid_body0` run whose last char is checked, is repeated in
    src/parse/container_name.rs with other checks; it is defined once here as
    `LetterLedSegment` and specialised per parser. */
module Resource {
  import opened Nom
  import opened Utils

  /** The check a letter-led parser applies to the last char of its body run
      (`s.chars().last().unwrap_or(default)`):
      - `NoUnderscoreChar`: the char is not `_` (default `'a'`), parse_resource;
      - `NoUnderscoreByte`: its truncated byte is not `_` (default `'1'`), parse_name_noslash;
      - `EndsInDigit`: its truncated byte is a digit (default `'1'`), parse_instance_name_. */
  datatype TailCheck = NoUnderscoreChar | NoUnderscoreByte | EndsInDigit

  function Default(c: TailCheck): char {
    if c == NoUnderscoreChar then 'a' else '1'
  }

  predicate Accepts(c: TailCheck, ch: char) {
    match c
    case NoUnderscoreChar => ch != '_'
    case NoUnderscoreByte => !IsUnderscore(ByteOf(ch))
    case EndsInDigit => IsDigit(ByteOf(ch))
  }

  /** The default that stands in for an empty body run passes every check. */
  lemma DefaultAccepted(c: TailCheck)
    ensures Accepts(c, Default(c))
  {
    assert ByteOf('1') == 0x31;
  }

  /** The verify closure applied to the body run `r2`. */
  predicate TailOk(c: TailCheck, r2: string) {
    Accepts(c, LastOr(r2, Default(c)))
  }

  /** A whole token the letter-led parser with check `c` accepts: a letter,
      then body chars, and either no body run after the leading letters or
      one whose last char passes the check. */
  predicate IsSegment(c: TailCheck, x: string) {
    LetterLed(x) && (RunLength(Letter, x) == |x| || Accepts(c, x[|x| - 1]))
  }

  /** `alpha1` then `verify(valid_body0_parser, check)`, returning the input
      slice that covers both runs; a failed check is a `Verify` error at the
      text after the leading letters. */
  function LetterLedSegment(c: TailCheck, s: string): (r: IResult<string>)
    ensures SuffixOf(r.rest, s)
    ensures r.Ok? ==> r.value + r.rest == s
    ensures r == Err(s, Alpha) <==> s == [] || !IsAsciiAlpha(s[0])
    ensures r.Err? ==> r.kind == Alpha || r.kind == Verify
  {
    match Alpha1(s)
    case Err(e, k) => Err(e, k)
    case Ok(i, r1) =>
      match ValidBody0(i)
      case Err(e, k) => Err(e, k)
      case Ok(i2, r2) =>
        if TailOk(c, r2) then
          assert s == r1 + r2 + i2;
          assert s[..|r1| + |r2|] == r1 + r2;
          Ok(i2, s[..|r1| + |r2|])
        else Err(i, Verify)
  }

  /** The two scans of a letter-led parser on input that starts with a
      letter, as one scan of body chars. */
  lemma LetterLedScans(c: TailCheck, s: string)
    requires s != [] && IsAsciiAlpha(s[0])
    ensures var a, n := RunLength(Letter, s), RunLength(Body, s);
      && 1 <= a <= n
      && Alpha1(s) == Ok(s[a..], s[..a])
      && ValidBody0(s[a..]) == Ok(s[n..], s[a..n])
      && (TailOk(c, s[a..n]) <==> a == n || Accepts(c, s[n - 1]))
  {
    LeadThenBody(Letter, s);
    var a := RunLength(Letter, s);
    var n := RunLength(Body, s);
    assert a >= 1;
    var r2 := s[a..n];
    if a < n {
      assert LastOr(r2, Default(c)) == s[n - 1];
    } else {
      assert r2 == [];
      DefaultAccepted(c);
    }
  }

  /** A run of letters only: the empty body run passes by its default. */
  lemma LetterLedAllLetters(c: TailCheck, s: string)
    requires s != [] && IsAsciiAlpha(s[0])
    requires RunLength(Letter, s) == RunLength(Body, s)
    ensures LetterLedSegment(c, s) == Ok(s[RunLength(Body, s)..], s[..RunLength(Body, s)])
  {
    LetterLedScans(c, s);
  }

  /** A body run past the letters whose last char fails the check. */
  lemma LetterLedRejected(c: TailCheck, s: string)
    requires s != [] && IsAsciiAlpha(s[0])
    requires RunLength(Letter, s) < RunLength(Body, s) && !Accepts(c, s[RunLength(Body, s) - 1])
    ensures LetterLedSegment(c, s) == Err(s[RunLength(Letter, s)..], Verify)
  {
    LetterLedScans(c, s);
  }

  /** A body run past the letters whose last char passes the check. */
  lemma LetterLedAccepted(c: TailCheck, s: string)
    requires s != [] && IsAsciiAlpha(s[0])
    requires RunLength(Letter, s) < RunLength(Body, s) && Accepts(c, s[RunLength(Body, s) - 1])
    ensures LetterLedSegment(c, s) == Ok(s[RunLength(Body, s)..], s[..RunLength(Body, s)])
  {
    LetterLedScans(c, s);
  }

  /** One-scan description of a letter-led parser: take the whole leading
      run of body chars; fail with `Alpha` at the input when no letter
      leads, fail with `Verify` after the leading letters when the run goes
      past them and its last char fails the check, and otherwise return the
      run. */
  lemma LetterLedSpec(c: TailCheck, s: string)
    ensures LetterLedSegment(c, s) ==
      var n := RunLength(Body, s);
      var a := RunLength(Letter, s);
      if s == [] || !IsAsciiAlpha(s[0]) then Err(s, Alpha)
      else if a < n && !Accepts(c, s[n - 1]) then Err(s[a..], Verify)
      else Ok(s[n..], s[..n])
  {
    if s != [] && IsAsciiAlpha(s[0]) {
      LeadThenBody(Letter, s);
      var a := RunLength(Letter, s);
      var n := RunLength(Body, s);
      if a < n && !Accepts(c, s[n - 1]) {
        LetterLedRejected(c, s);
      } else if a < n {
        LetterLedAccepted(c, s);
      } else {
        LetterLedAllLetters(c, s);
      }
    }
  }

  /** What a letter-led parser promises: a success is a whole token followed
      by a char that cannot continue it; a `Verify` failure points just past
      the leading letters, at a non-empty body run whose last char fails the
      check. */
  lemma LetterLedSound(c: TailCheck, s: string)
    ensures var r := LetterLedSegment(c, s);
      && (r.Ok? ==> IsSegment(c, r.value) && Delimits(Body, r.rest))
      && (r.Err? && r.kind == Verify ==>
            && r.rest == s[RunLength(Letter, s)..]
            && RunLength(Letter, s) < RunLength(Body, s)
            && !Accepts(c, s[RunLength(Body, s) - 1]))
  {
    LetterLedOkSound(c, s);
    LetterLedVerifySound(c, s);
  }

  lemma LetterLedOkSound(c: TailCheck, s: string)
    ensures var r := LetterLedSegment(c, s);
      r.Ok? ==> IsSegment(c, r.value) && Delimits(Body, r.rest)
  {
    if s != [] && IsAsciiAlpha(s[0]) {
      var a, n := RunLength(Letter, s), RunLength(Body, s);
      LeadWithinBody(Letter, s);
      if a == n {
        LetterLedAllLetters(c, s);
        LetterLedTokenSound(c, s);
      } else if Accepts(c, s[n - 1]) {
        LetterLedAccepted(c, s);
        LetterLedTokenSound(c, s);
      } else {
        LetterLedRejected(c, s);
      }
    }
  }

  lemma LetterLedVerifySound(c: TailCheck, s: string)
    ensures var r := LetterLedSegment(c, s);
      r.Err? && r.kind == Verify ==>
        && r.rest == s[RunLength(Letter, s)..]
        && RunLength(Letter, s) < RunLength(Body, s)
        && !Accepts(c, s[RunLength(Body, s) - 1])
  {
    if s != [] && IsAsciiAlpha(s[0]) {
      var a, n := RunLength(Letter, s), RunLength(Body, s);
      LeadWithinBody(Letter, s);
      if a == n {
        LetterLedAllLetters(c, s);
      } else if Accepts(c, s[n - 1]) {
        LetterLedAccepted(c, s);
      } else {
        LetterLedRejected(c, s);
      }
    }
  }

  lemma LetterLedTokenSound(c: TailCheck, s: string)
    requires s != [] && IsAsciiAlpha(s[0])
    requires RunLength(Letter, s) == RunLength(Body, s) || Accepts(c, s[RunLength(Body, s) - 1])
    ensures IsSegment(c, s[..RunLength(Body, s)]) && Delimits(Body, s[RunLength(Body, s)..])
  {
    LeadThenBody(Letter, s);
    var a := RunLength(Letter, s);
    var n := RunLength(Body, s);
    RunLengthPrefix(Letter, s, n);
    assert s[..n][n - 1] == s[n - 1];
    assert s[..n][0] == s[0];
  }

  /** Maximal munch in reverse: a whole token followed by anything that
      cannot continue a body run parses as exactly that token. */
  lemma LetterLedConcat(c: TailCheck, x: string, t: string)
    requires IsSegment(c, x) && Delimits(Body, t)
    ensures LetterLedSegment(c, x + t) == Ok(t, x)
  {
    var s := x + t;
    RunLengthConcat(Body, x, t);
    assert s[..|x|] == x && s[|x|..] == t;
    if RunLength(Letter, x) < |x| {
      RunLengthStopsInside(Letter, x, t);
    } else {
      assert RunLength(Letter, s) >= |x| by {
        assert s[..|x|] == x;
      }
    }
    assert s[|x| - 1] == x[|x| - 1];
    LetterLedSpec(c, s);
  }

  /** A letter-led body run whose last char fails the check, followed by a
      delimiter, is rejected with `Verify` right after its leading letters:
      it is never silently truncated. */
  lemma LetterLedTailRejected(c: TailCheck, x: string, t: string)
    requires LetterLed(x) && !Accepts(c, x[|x| - 1]) && RunLength(Letter, x) < |x| && Delimits(Body, t)
    ensures LetterLedSegment(c, x + t) == Err((x + t)[RunLength(Letter, x)..], Verify)
  {
    var s := x + t;
    RunLengthConcat(Body, x, t);
    assert s[|x| - 1] == x[|x| - 1];
    RunLengthStopsInside(Letter, x, t);
    LetterLedSpec(c, s);
  }

  /** A complete resource token: a letter, then body chars, not ending in `_`. */
  predicate IsResource(x: string) {
    LetterLed(x) && x[|x| - 1] != '_'
  }

  lemma ResourceIsSegment(x: string)
    ensures IsResource(x) <==> IsSegment(NoUnderscoreChar, x)
  {
    if LetterLed(x) && RunLength(Letter, x) == |x| {
      assert InClass(Letter, x[..|x|][|x| - 1]);
    }
  }

  /** `parse_resource` */
  function ParseResource(s: string): (r: IResult<string>)
    ensures SuffixOf(r.rest, s)
    ensures r.Ok? ==> r.value + r.rest == s && IsResource(r.value) && Delimits(Body, r.rest)
    ensures r == Err(s, Alpha) <==> s == [] || !IsAsciiAlpha(s[0])
    ensures r.Err? ==> r.kind == Alpha || r.kind == Verify
    ensures r.Err? && r.kind == Verify ==> r.rest == s[RunLength(Letter, s)..] && r.rest != []
  {
    var r := LetterLedSegment(NoUnderscoreChar, s);
    LetterLedSound(NoUnderscoreChar, s);
    if r.Ok? then ResourceIsSegment(r.value); r else r
  }

  /** A resource followed by a non-body char (or nothing) parses as exactly
      that resource. */
  lemma ResourceConcat(x: string, t: string)
    requires IsResource(x) && Delimits(Body, t)
    ensures ParseResource(x + t) == Ok(t, x)
  {
    ResourceIsSegment(x);
    LetterLedConcat(NoUnderscoreChar, x, t);
  }

  /** A letter-led body run ending in `_` fails with `Verify` after its
      leading letters. */
  lemma ResourceTrailingUnderscore(x: string, t: string)
    requires LetterLed(x) && x[|x| - 1] == '_' && Delimits(Body, t)
    ensures ParseResource(x + t) == Err((x + t)[RunLength(Letter, x)..], Verify)
  {
    assert RunLength(Letter, x) < |x| by {
      assert !InClass(Letter, x[|x| - 1]);
    }
    LetterLedTailRejected(NoUnderscoreChar, x, t);
  }

  /** `parse_resource("a123b")` takes the whole input. */
  lemma ResourceExample()
    ensures ParseResource("a123b") == Ok("", "a123b")
  {
    ResourceConcat("a123b", "");
    assert "a123b" + "" == "a123b";
  }

  /** `parse_resource("a123_")` fails with `Verify` at `"123_"`. */
  lemma ResourceUnderscoreExample()
    ensures ParseResource("a123_") == Err("123_", Verify)
  {
    var s := "a123_";
    assert RunLength(Letter, s) == 1;
    assert s + "" == s;
    assert ParseResource(s) == Err(s[1..], Verify) by {
      ResourceTrailingUnderscore(s, "");
    }
    assert s[1..] == "123_";
  }
}
