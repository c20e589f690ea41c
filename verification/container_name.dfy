/** Name segments (src/parse/container_name.rs): the asset-name and
    instance-name variants and the plain name, each a letter-led body run
    with its own check on the last char, and each optionally followed by the
    `/` that closes the segment. */
module ContainerName {
  import opened Nom
  import opened Utils
  import opened Resource

  /** A name token: a letter, then body chars, the last one's byte not `_`. */
  predicate IsName(x: string) {
    LetterLed(x) && !IsUnderscore(ByteOf(x[|x| - 1]))
  }

  lemma NameIsSegment(x: string)
    ensures IsName(x) <==> IsSegment(NoUnderscoreByte, x)
  {
    if LetterLed(x) && RunLength(Letter, x) == |x| {
      assert InClass(Letter, x[..|x|][|x| - 1]);
    }
  }

  /** Every name is a resource; on ASCII text the two rules coincide. */
  lemma NameIsResource(x: string)
    ensures IsName(x) ==> IsResource(x)
    ensures AllAscii(x) ==> (IsName(x) <==> IsResource(x))
  {
    if x != [] {
      assert ByteOf('_') == 0x5F;
    }
  }

  /** `parse_name_noslash`: `alpha1`, then a body run whose last char's
      truncated byte is not `_`. */
  function ParseNameNoslash(s: string): (r: IResult<string>)
    ensures SuffixOf(r.rest, s)
    ensures r.Ok? ==> r.value + r.rest == s && IsName(r.value) && Delimits(Body, r.rest)
    ensures r == Err(s, Alpha) <==> s == [] || !IsAsciiAlpha(s[0])
    ensures r.Err? ==> r.kind == Alpha || r.kind == Verify
    ensures r.Err? && r.kind == Verify ==> r.rest == s[RunLength(Letter, s)..] && r.rest != []
  {
    var r := LetterLedSegment(NoUnderscoreByte, s);
    LetterLedSound(NoUnderscoreByte, s);
    if r.Ok? then NameIsSegment(r.value); r else r
  }

  /** `parse_name`: a name closed by `/`, which is consumed. */
  function ParseName(s: string): (r: IResult<string>)
    ensures SuffixOf(r.rest, s)
    ensures r.Ok? <==> ParseNameNoslash(s).Ok? && "/" <= ParseNameNoslash(s).rest
    ensures r.Ok? ==> r.value + "/" + r.rest == s && IsName(r.value)
    ensures r == Err(s, Alpha) <==> s == [] || !IsAsciiAlpha(s[0])
    ensures r.Err? ==> r.kind == Alpha || r.kind == Verify || r.kind == Tag
    ensures r.Err? && r.kind == Verify ==> r.rest == s[RunLength(Letter, s)..] && r.rest != []
    ensures r.Err? && r.kind == Tag ==> r.rest == ParseNameNoslash(s).rest
  {
    var n := ParseNameNoslash(s);
    var r := Terminated(n, "/");
    if n.Err? then
      assert r == n;
      r
    else
      assert s != [] && IsAsciiAlpha(s[0]);
      if r.Ok? then
        SuffixOfTransitive(r.rest, n.rest, s);
        ConcatAssoc(r.value, "/", r.rest);
        r
      else
        assert r == Err(n.rest, Tag);
        r
  }

  /** A name followed by a non-body char (or nothing) parses as exactly that name. */
  lemma NameConcat(x: string, t: string)
    requires IsName(x) && Delimits(Body, t)
    ensures ParseNameNoslash(x + t) == Ok(t, x)
  {
    NameIsSegment(x);
    LetterLedConcat(NoUnderscoreByte, x, t);
  }

  /** A name and its `/` are consumed, leaving exactly what follows. */
  lemma NameSlashConcat(x: string, t: string)
    requires IsName(x)
    ensures ParseName(x + "/" + t) == Ok(t, x)
  {
    ConcatAssoc(x, "/", t);
    NameConcat(x, "/" + t);
  }

  /** A letter-led body run whose last byte is `_` fails with `Verify`
      right after its leading letters. */
  lemma NameTrailingUnderscore(x: string, t: string)
    requires LetterLed(x) && IsUnderscore(ByteOf(x[|x| - 1])) && Delimits(Body, t)
    ensures ParseNameNoslash(x + t) == Err((x + t)[RunLength(Letter, x)..], Verify)
  {
    assert RunLength(Letter, x) < |x| by {
      assert !InClass(Letter, x[|x| - 1]);
    }
    LetterLedTailRejected(NoUnderscoreByte, x, t);
  }

  /** On ASCII input `parse_name_noslash` and `parse_resource` give the same
      result, success or error. */
  lemma NameNoslashIsResourceOnAscii(s: string)
    requires AllAscii(s)
    ensures ParseNameNoslash(s) == ParseResource(s)
  {
    if s != [] && IsAsciiAlpha(s[0]) {
      LeadThenBody(Letter, s);
      var a := RunLength(Letter, s);
      var n := RunLength(Body, s);
      if a < n {
        assert IsAscii(s[n - 1]);
        AsciiTailChecksAgree(s[n - 1]);
        if Accepts(NoUnderscoreChar, s[n - 1]) {
          LetterLedAccepted(NoUnderscoreByte, s);
          LetterLedAccepted(NoUnderscoreChar, s);
        } else {
          LetterLedRejected(NoUnderscoreByte, s);
          LetterLedRejected(NoUnderscoreChar, s);
        }
      } else {
        LetterLedAllLetters(NoUnderscoreByte, s);
        LetterLedAllLetters(NoUnderscoreChar, s);
      }
    }
  }

  lemma AsciiTailChecksAgree(ch: char)
    requires IsAscii(ch)
    ensures Accepts(NoUnderscoreByte, ch) <==> Accepts(NoUnderscoreChar, ch)
  {
    assert ByteOf('_') == 0x5F;
  }

  /** Off ASCII they differ: U+015F truncates to the byte of `_`, so the
      resource rule accepts `"a\U{15F}"` while the name rule rejects it. */
  lemma NameNoslashDiffersOffAscii()
    ensures ParseResource("a\U{15F}") == Ok("", "a\U{15F}")
    ensures ParseNameNoslash("a\U{15F}") == Err("\U{15F}", Verify)
  {
    var x := "a\U{15F}";
    assert ByteOf(x[1]) == 0x5F;
    assert LetterLed(x);
    assert x + "" == x;
    ResourceConcat(x, "");
    NameTrailingUnderscore(x, "");
    assert RunLength(Letter, x) == 1;
    assert x[1..] == "\U{15F}";
  }

  /** `parse_name` cases from the source's tests. */
  lemma NameExample()
    ensures ParseName("fred/") == Ok("", "fred")
  {
    NameSlashConcat("fred", "");
    FredSlash();
  }

  lemma FredSlash()
    ensures "fred" + "/" + "" == "fred/"
  {
    assert "fred" + "/" == "fred/";
  }

  lemma NameUnderscoreExample()
    ensures ParseName("fred1_/") == Err("1_/", Verify)
  {
    var x := "fred1_";
    assert x + "/" == "fred1_/";
    assert RunLength(Letter, x) == 4;
    assert ParseNameNoslash(x + "/") == Err((x + "/")[RunLength(Letter, x)..], Verify) by {
      NameTrailingUnderscore(x, "/");
    }
    assert "fred1_/"[4..] == "1_/";
  }

  lemma NameLeadingExamples()
    ensures ParseName("1fred1/") == Err("1fred1/", Alpha)
    ensures ParseName("_fred1/") == Err("_fred1/", Alpha)
  {
  }

  /** An asset name: a resource whose last char's byte is not a digit. */
  predicate IsAssetName(x: string) {
    IsResource(x) && !IsDigit(ByteOf(x[|x| - 1]))
  }

  /** `parse_asset_name_`: `parse_resource` verified not to end in a digit;
      a failed check is a `Verify` error at the whole input. */
  function ParseAssetNameUnterminated(s: string): (r: IResult<string>)
    ensures SuffixOf(r.rest, s)
    ensures r.Ok? ==> r.value + r.rest == s && IsAssetName(r.value) && Delimits(Body, r.rest)
    ensures ParseResource(s).Err? ==> r == ParseResource(s)
    ensures ParseResource(s).Ok? ==>
              (r.Err? <==> IsDigit(ByteOf(ParseResource(s).value[|ParseResource(s).value| - 1])))
    ensures ParseResource(s).Ok? && r.Err? ==> r == Err(s, Verify)
  {
    match ParseResource(s)
    case Err(e, k) => Err(e, k)
    case Ok(i, v) =>
      if !IsDigit(ByteOf(LastOr(v, '1'))) then Ok(i, v) else Err(s, Verify)
  }

  /** `parse_asset_name`: an asset name closed by `/`. */
  function ParseAssetName(s: string): (r: IResult<string>)
    ensures SuffixOf(r.rest, s)
    ensures r.Ok? ==> r.value + "/" + r.rest == s && IsAssetName(r.value)
    ensures ParseAssetNameUnterminated(s).Err? ==> r == ParseAssetNameUnterminated(s)
    ensures r.Ok? <==> ParseAssetNameUnterminated(s).Ok? && "/" <= ParseAssetNameUnterminated(s).rest
    ensures r.Err? && ParseAssetNameUnterminated(s).Ok? ==> r == Err(ParseAssetNameUnterminated(s).rest, Tag)
  {
    var n := ParseAssetNameUnterminated(s);
    var r := Terminated(n, "/");
    SuffixOfTransitive(r.rest, n.rest, s);
    if r.Ok? then
      ConcatAssoc(r.value, "/", r.rest);
      r
    else r
  }

  /** An asset name and its `/` are consumed, leaving exactly what follows. */
  lemma AssetNameSlashConcat(x: string, t: string)
    requires IsAssetName(x)
    ensures ParseAssetName(x + "/" + t) == Ok(t, x)
  {
    ConcatAssoc(x, "/", t);
    ResourceConcat(x, "/" + t);
  }

  /** A resource ending in a digit is rejected as an asset name, with the
      whole input as the remainder. */
  lemma AssetNameDigitRejected(x: string, t: string)
    requires IsResource(x) && IsDigit(ByteOf(x[|x| - 1]))
    ensures ParseAssetName(x + "/" + t) == Err(x + "/" + t, Verify)
  {
    ConcatAssoc(x, "/", t);
    ResourceConcat(x, "/" + t);
  }

  lemma AssetNameExample()
    ensures ParseAssetName("fred/") == Ok("", "fred")
  {
    assert "fred" + "/" + "" == "fred/";
    assert ParseAssetName("fred" + "/" + "") == Ok("", "fred") by {
      AssetNameSlashConcat("fred", "");
    }
  }

  lemma AssetNameDigitExample()
    ensures ParseAssetName("fred1/") == Err("fred1/", Verify)
  {
    assert "fred1" + "/" + "" == "fred1/";
    assert ParseAssetName("fred1" + "/" + "") == Err("fred1" + "/" + "", Verify) by {
      AssetNameDigitRejected("fred1", "");
    }
  }

  lemma AssetNameUnderscoreExample()
    ensures ParseAssetName("fred_/") == Err("_/", Verify)
  {
    var x := "fred_";
    assert x + "/" == "fred_/";
    assert RunLength(Letter, x) == 4;
    assert ParseResource(x + "/") == Err((x + "/")[RunLength(Letter, x)..], Verify) by {
      ResourceTrailingUnderscore(x, "/");
    }
    assert "fred_/"[4..] == "_/";
  }

  lemma AssetNameLeadingExample()
    ensures ParseAssetName("_fred/") == Err("_fred/", Alpha)
  {
  }

  /** An instance name: a letter-led body run that is all letters or whose
      last char's byte is a digit. */
  predicate IsInstanceName(x: string) {
    IsSegment(EndsInDigit, x)
  }

  /** `parse_instance_name_`: `alpha1`, then a body run whose last char's
      byte is a digit; an empty body run passes, as its default is `'1'`. */
  function ParseInstanceNameUnterminated(s: string): (r: IResult<string>)
    ensures SuffixOf(r.rest, s)
    ensures r.Ok? ==> r.value + r.rest == s && IsInstanceName(r.value) && Delimits(Body, r.rest)
    ensures r == Err(s, Alpha) <==> s == [] || !IsAsciiAlpha(s[0])
    ensures r.Err? ==> r.kind == Alpha || r.kind == Verify
    ensures r.Err? && r.kind == Verify ==> r.rest == s[RunLength(Letter, s)..] && r.rest != []
  {
    LetterLedSound(EndsInDigit, s);
    LetterLedSegment(EndsInDigit, s)
  }

  /** `parse_instance_name`: an instance name closed by `/`. */
  function ParseInstanceName(s: string): (r: IResult<string>)
    ensures SuffixOf(r.rest, s)
    ensures r.Ok? ==> r.value + "/" + r.rest == s && IsInstanceName(r.value)
    ensures ParseInstanceNameUnterminated(s).Err? ==> r == ParseInstanceNameUnterminated(s)
    ensures r.Ok? <==> ParseInstanceNameUnterminated(s).Ok? && "/" <= ParseInstanceNameUnterminated(s).rest
    ensures r.Err? && ParseInstanceNameUnterminated(s).Ok? ==> r == Err(ParseInstanceNameUnterminated(s).rest, Tag)
  {
    var n := ParseInstanceNameUnterminated(s);
    var r := Terminated(n, "/");
    if n.Err? then r
    else if r.Ok? then
      SuffixOfTransitive(r.rest, n.rest, s);
      ConcatAssoc(r.value, "/", r.rest);
      r
    else
      assert r == Err(n.rest, Tag);
      r
  }

  /** An instance name and its `/` are consumed, leaving exactly what follows. */
  lemma InstanceNameSlashConcat(x: string, t: string)
    requires IsInstanceName(x)
    ensures ParseInstanceName(x + "/" + t) == Ok(t, x)
  {
    ConcatAssoc(x, "/", t);
    LetterLedConcat(EndsInDigit, x, "/" + t);
  }

  lemma InstanceNameExample()
    ensures ParseInstanceName("fred1/") == Ok("", "fred1")
  {
    assert "fred1" + "/" + "" == "fred1/";
    assert RunLength(Letter, "fred1") == 4;
    assert ParseInstanceName("fred1" + "/" + "") == Ok("", "fred1") by {
      InstanceNameSlashConcat("fred1", "");
    }
  }

  lemma InstanceNameLettersExample()
    ensures ParseInstanceName("fred/") == Ok("", "fred")
  {
    assert "fred" + "/" + "" == "fred/";
    assert RunLength(Letter, "fred") == 4;
    assert ParseInstanceName("fred" + "/" + "") == Ok("", "fred") by {
      InstanceNameSlashConcat("fred", "");
    }
  }

  lemma InstanceNameUnderscoreExample()
    ensures ParseInstanceName("fred_/") == Err("_/", Verify)
  {
    var x := "fred_";
    assert x + "/" == "fred_/";
    assert RunLength(Letter, x) == 4;
    assert ParseInstanceNameUnterminated(x + "/") == Err((x + "/")[RunLength(Letter, x)..], Verify) by {
      LetterLedTailRejected(EndsInDigit, x, "/");
    }
    assert "fred_/"[4..] == "_/";
  }

  /** An instance name must start with a letter. */
  lemma InstanceNameNotLetter(s: string)
    requires s == [] || !IsAsciiAlpha(s[0])
    ensures ParseInstanceName(s) == Err(s, Alpha)
  {
    assert ParseInstanceNameUnterminated(s) == Err(s, Alpha);
  }

  lemma InstanceNameDigitExample()
    ensures ParseInstanceName("1fred1/") == Err("1fred1/", Alpha)
  {
    assert "1fred1/"[0] == '1';
    InstanceNameNotLetter("1fred1/");
  }

  lemma InstanceNameUnderscoreLeadExample()
    ensures ParseInstanceName("_fred1/") == Err("_fred1/", Alpha)
  {
    assert "_fred1/"[0] == '_';
    InstanceNameNotLetter("_fred1/");
  }

  /** As written, any name of letters only is an instance name: its body run
      is empty, and the default `'1'` that stands in for the missing last
      char is a digit. */
  lemma InstanceNameAcceptsLetters(x: string, t: string)
    requires |x| > 0 && AllInClass(Letter, x)
    ensures ParseInstanceName(x + "/" + t) == Ok(t, x)
    ensures !IsDigit(ByteOf(x[|x| - 1]))
  {
    forall i | 0 <= i < |x|
      ensures InClass(Body, x[i])
    {
      ClassInclusion(x[i]);
    }
    RunLengthUnique(Letter, x, |x|);
    InstanceNameSlashConcat(x, t);
  }

  /** An instance name that ends in a digit, as the rule for instance names
      demands: a letter-led body run whose last char's byte is a digit. */
  predicate IsDigitEndedName(x: string) {
    LetterLed(x) && IsDigit(ByteOf(x[|x| - 1]))
  }

  /** `parse_instance_name_` as intended: the name it takes must end in a
      digit. A name that passes the original check without ending in a digit
      is made of letters only (its body run was empty), and is refused with
      the `Verify` error at the text after its letters, which is where a
      default that is not a digit (`'a'` in place of `'1'`) would refuse it. */
  function ParseDigitEndedNameUnterminated(s: string): (r: IResult<string>)
    ensures SuffixOf(r.rest, s)
    ensures r.Ok? ==> r.value + r.rest == s && IsDigitEndedName(r.value) && Delimits(Body, r.rest)
    ensures r == Err(s, Alpha) <==> s == [] || !IsAsciiAlpha(s[0])
    ensures r.Err? ==> r.kind == Alpha || r.kind == Verify
  {
    match ParseInstanceNameUnterminated(s)
    case Err(e, k) => Err(e, k)
    case Ok(i, x) => if IsDigit(ByteOf(x[|x| - 1])) then Ok(i, x) else Err(i, Verify)
  }

  /** The corrected parser's `Verify` error sits, like the original's, at the
      text after the leading letters. */
  lemma DigitEndedNameVerifyAt(s: string)
    ensures var r := ParseDigitEndedNameUnterminated(s);
      r.Err? && r.kind == Verify ==> r.rest == s[RunLength(Letter, s)..]
  {
    var n := ParseInstanceNameUnterminated(s);
    if n.Ok? && !IsDigit(ByteOf(n.value[|n.value| - 1])) {
      var x, i := n.value, n.rest;
      assert RunLength(Letter, x) == |x|;
      assert AllInClass(Letter, x) by {
        assert x[..RunLength(Letter, x)] == x;
      }
      assert Delimits(Letter, i) by {
        if i != [] {
          ClassInclusion(i[0]);
        }
      }
      RunLengthConcat(Letter, x, i);
      assert s[|x|..] == i;
    }
  }

  /** The corrected `parse_instance_name`: a digit-ended name closed by `/`. */
  function ParseDigitEndedName(s: string): (r: IResult<string>)
    ensures SuffixOf(r.rest, s)
    ensures r.Ok? ==> r.value + "/" + r.rest == s && IsDigitEndedName(r.value)
    ensures ParseDigitEndedNameUnterminated(s).Err? ==> r == ParseDigitEndedNameUnterminated(s)
    ensures r.Ok? <==> ParseDigitEndedNameUnterminated(s).Ok? && "/" <= ParseDigitEndedNameUnterminated(s).rest
    ensures r.Err? && ParseDigitEndedNameUnterminated(s).Ok? ==> r == Err(ParseDigitEndedNameUnterminated(s).rest, Tag)
  {
    var n := ParseDigitEndedNameUnterminated(s);
    var r := Terminated(n, "/");
    if n.Err? then r
    else if r.Ok? then
      SuffixOfTransitive(r.rest, n.rest, s);
      ConcatAssoc(r.value, "/", r.rest);
      r
    else
      r
  }

  /** A digit-ended name and its `/` are consumed, leaving exactly what follows. */
  lemma DigitEndedNameSlashConcat(x: string, t: string)
    requires IsDigitEndedName(x)
    ensures ParseDigitEndedName(x + "/" + t) == Ok(t, x)
  {
    var u := "/" + t;
    DigitEndedUnterminatedConcat(x, u);
    assert Terminated(Ok(u, x), "/") == Ok(t, x);
    ConcatAssoc(x, "/", t);
  }

  lemma DigitEndedUnterminatedConcat(x: string, u: string)
    requires IsDigitEndedName(x) && "/" <= u
    ensures ParseDigitEndedNameUnterminated(x + u) == Ok(u, x)
  {
    assert IsInstanceName(x);
    assert ByteOf(u[0]) == 0x2F;
    LetterLedConcat(EndsInDigit, x, u);
  }

  /** The corrected parser refuses every name of letters only. */
  lemma DigitEndedNameRefusesLetters(x: string, t: string)
    requires |x| > 0 && AllInClass(Letter, x)
    ensures ParseDigitEndedName(x + "/" + t) == Err("/" + t, Verify)
  {
    InstanceNameAcceptsLetters(x, t);
    ConcatAssoc(x, "/", t);
    LetterLedConcat(EndsInDigit, x, "/" + t);
  }

  /** The corrected parser differs from `parse_instance_name` only on names
      of letters only: it fails wherever the original fails (with the same
      error when the name itself is malformed), succeeds with the same
      result wherever it succeeds, and any input on which the two disagree
      starts with a name of letters only. */
  lemma DigitEndedNameRefines(s: string)
    ensures ParseInstanceName(s).Err? ==> ParseDigitEndedName(s).Err?
    ensures ParseInstanceNameUnterminated(s).Err? ==> ParseDigitEndedName(s) == ParseInstanceName(s)
    ensures ParseDigitEndedName(s).Ok? ==> ParseInstanceName(s) == ParseDigitEndedName(s)
    ensures ParseInstanceName(s).Ok? && ParseDigitEndedName(s).Err? ==>
      AllInClass(Letter, ParseInstanceName(s).value)
    ensures ParseDigitEndedName(s) != ParseInstanceName(s) ==>
      ParseInstanceNameUnterminated(s).Ok? && AllInClass(Letter, ParseInstanceNameUnterminated(s).value)
  {
    var u := ParseInstanceNameUnterminated(s);
    var d := ParseDigitEndedNameUnterminated(s);
    if u.Err? || IsDigit(ByteOf(u.value[|u.value| - 1])) {
      assert d == u;
    } else {
      var x := u.value;
      assert d.Err?;
      assert ParseDigitEndedName(s) == d;
      assert RunLength(Letter, x) == |x|;
      assert x[..RunLength(Letter, x)] == x;
      assert ParseInstanceName(s).Ok? ==> ParseInstanceName(s).value == x;
    }
  }

  lemma Fred1Slash()
    ensures "fred1" + "/" + "" == "fred1/"
    ensures IsDigitEndedName("fred1")
  {
    assert ByteOf('1') == 0x31;
  }

  lemma FredLetters()
    ensures |"fred"| > 0 && AllInClass(Letter, "fred")
    ensures "/" + "" == "/"
  {
  }

  lemma DigitEndedNameExample()
    ensures ParseDigitEndedName("fred1/") == Ok("", "fred1")
  {
    Fred1Slash();
    DigitEndedNameSlashConcat("fred1", "");
  }

  lemma DigitEndedNameLettersExample()
    ensures ParseDigitEndedName("fred/") == Err("/", Verify)
  {
    FredLetters();
    FredSlash();
    DigitEndedNameRefusesLetters("fred", "");
  }
}
