/** The scheme prefix of a URI (src/parse/scheme.rs): one of the four scheme
    names, immediately followed by `://`. */
module SchemeParser {
  import opened Wrappers
  import opened Nom
  import opened Schemes

  /** `alt((tag("asset"), tag("instance"), tag("render"), tag("plate")))`:
      the first tag that matches wins (a tag matches exactly when its text
      is a prefix of the input). Since no name is a prefix of another,
      at most one can match; when none does, every alternative fails with
      `Tag` at the input. */
  function SchemeToken(s: string): (r: IResult<string>)
    ensures forall k :: Name(k) <= s ==> r == Ok(s[|Name(k)|..], Name(k))
    ensures (forall k :: !(Name(k) <= s)) ==> r == Err(s, Tag)
    ensures r.Ok? ==> FromStr(r.value).Some? && r.value + r.rest == s
  {
    var r := if "asset" <= s then MatchTag("asset", s)
      else if "instance" <= s then MatchTag("instance", s)
      else if "render" <= s then MatchTag("render", s)
      else MatchTag("plate", s);
    forall k | Name(k) <= s
      ensures r == Ok(s[|Name(k)|..], Name(k))
    {
      assert s[0] == Name(k)[0];
    }
    if r.Ok? then FromStrInvertsName(FromStr(r.value).value, Asset); r else r
  }

  /** `scheme_parser`: a scheme name, then `://`, which is consumed. */
  function SchemeParse(s: string): (r: IResult<string>)
    ensures SuffixOf(r.rest, s)
    ensures r.Ok? ==> FromStr(r.value).Some? && r.value + "://" + r.rest == s
    ensures r.Err? ==> r.kind == Tag
  {
    var t := SchemeToken(s);
    var r := Terminated(t, "://");
    SuffixOfTransitive(r.rest, t.rest, s);
    if r.Ok? then ConcatAssoc(r.value, "://", r.rest); r else r
  }

  /** `parse_scheme`: the scheme text converted to its variant. The
      conversion cannot fail once the text has matched one of the four tags,
      so the source's `unwrap` never panics. */
  function ParseScheme(s: string): (r: IResult<Scheme>)
    ensures SuffixOf(r.rest, s)
    ensures r.Ok? ==> Name(r.value) + "://" + r.rest == s
    ensures r.Err? ==> r.kind == Tag
  {
    match SchemeParse(s)
    case Err(e, k) => Err(e, k)
    case Ok(i, v) => Ok(i, FromStr(v).value)
  }

  /** Exactly the four names followed by `://` are accepted, and the rest is
      the text after `://`. */
  lemma SchemeRoundTrip(k: Scheme, t: string)
    ensures SchemeParse(Name(k) + "://" + t) == Ok(t, Name(k))
    ensures ParseScheme(Name(k) + "://" + t) == Ok(t, k)
  {
    var s := Name(k) + "://" + t;
    ConcatAssoc(Name(k), "://", t);
    assert Name(k) <= s;
    assert s[|Name(k)|..] == "://" + t;
    FromStrInvertsName(k, k);
  }

  /** A text that starts with no scheme name fails with `Tag` at its start. */
  lemma SchemeUnknown(s: string)
    requires forall k :: !(Name(k) <= s)
    ensures ParseScheme(s) == Err(s, Tag)
  {
  }

  /** A scheme name not followed by `://` fails with `Tag` right after the name. */
  lemma SchemeNeedsSeparator(k: Scheme, t: string)
    requires !("://" <= t)
    ensures ParseScheme(Name(k) + t) == Err(t, Tag)
  {
    var s := Name(k) + t;
    assert Name(k) <= s;
    assert s[|Name(k)|..] == t;
  }

  /** The cases of the source's tests: each name followed by `://`. */
  lemma AssetSchemeExample()
    ensures SchemeParse("asset://") == Ok("", "asset")
  {
    assert Name(Asset) + "://" + "" == "asset://";
    SchemeRoundTrip(Asset, "");
  }

  lemma InstanceSchemeExample()
    ensures SchemeParse("instance://") == Ok("", "instance")
  {
    assert Name(Instance) + "://" + "" == "instance://";
    SchemeRoundTrip(Instance, "");
  }

  lemma RenderSchemeExample()
    ensures SchemeParse("render://") == Ok("", "render")
  {
    assert Name(Render) + "://" + "" == "render://";
    SchemeRoundTrip(Render, "");
  }

  lemma PlateSchemeExample()
    ensures SchemeParse("plate://") == Ok("", "plate")
  {
    assert Name(Plate) + "://" + "" == "plate://";
    SchemeRoundTrip(Plate, "");
  }

  /** `renderful://` matches `render` and then lacks `://`. */
  lemma SchemeTooLongExample()
    ensures ParseScheme("renderful://") == Err("ful://", Tag)
  {
    assert Name(Render) + "ful://" == "renderful://";
    assert "ful://"[0] == 'f';
    SchemeNeedsSeparator(Render, "ful://");
  }

  /** `frender://` starts with no scheme name. */
  lemma SchemeUnknownExample()
    ensures ParseScheme("frender://") == Err("frender://", Tag)
  {
    forall k ensures !(Name(k) <= "frender://") {
      assert "frender://"[0] == 'f';
    }
    SchemeUnknown("frender://");
  }
}
