/** The fragment of a URI (src/parse/hashkey.rs): `#` and a resource, the
    key of the asset. */
module Hashkey {
  import opened Nom
  import opened Utils
  import opened Resource

  /** `parse_hashtag`: `preceded(tag("#"), parse_resource)`. */
  function ParseHashtag(s: string): (r: IResult<string>)
    ensures SuffixOf(r.rest, s)
    ensures r.Ok? ==> "#" + r.value + r.rest == s && IsResource(r.value) && Delimits(Body, r.rest)
    ensures !("#" <= s) ==> r == Err(s, Tag)
    ensures "#" <= s ==> r == ParseResource(s[1..])
  {
    match MatchTag("#", s)
    case Err(e, k) => Err(e, k)
    case Ok(i, _) =>
      var r := ParseResource(i);
      SuffixOfTransitive(r.rest, i, s);
      if r.Ok? then ConcatAssoc("#", r.value, r.rest); r else r
  }

  /** A `#` and a resource, followed by a char that cannot continue it,
      give exactly that resource. */
  lemma HashtagConcat(x: string, t: string)
    requires IsResource(x) && Delimits(Body, t)
    ensures ParseHashtag("#" + x + t) == Ok(t, x)
  {
    ConcatAssoc("#", x, t);
    assert ("#" + (x + t))[1..] == x + t;
    ResourceConcat(x, t);
  }

  /** The cases of the source's tests. */
  lemma HashtagExample()
    ensures ParseHashtag("#main") == Ok("", "main")
  {
    assert "#" + "main" + "" == "#main";
    assert ParseHashtag("#" + "main" + "") == Ok("", "main") by {
      HashtagConcat("main", "");
    }
  }

  lemma HashtagDigitExample()
    ensures ParseHashtag("#1main") == Err("1main", Alpha)
  {
    assert "#1main"[1..] == "1main";
  }

  lemma HashtagSymbolExample()
    ensures ParseHashtag("#ma$in") == Ok("$in", "ma")
  {
    assert "#" + "ma" + "$in" == "#ma$in";
    assert ByteOf('$') == 0x24;
    assert ParseHashtag("#" + "ma" + "$in") == Ok("$in", "ma") by {
      HashtagConcat("ma", "$in");
    }
  }

  lemma HashtagUnderscoreExample()
    ensures ParseHashtag("#main_") == Err("_", Verify)
  {
    var x := "main_";
    assert "#main_"[1..] == x + "";
    assert RunLength(Letter, x) == 4;
    assert ParseResource(x + "") == Err((x + "")[RunLength(Letter, x)..], Verify) by {
      ResourceTrailingUnderscore(x, "");
    }
    assert (x + "")[4..] == "_";
  }

  lemma HashtagMissingExample()
    ensures ParseHashtag("main") == Err("main", Tag)
  {
    assert "main"[0] != '#';
  }
}
