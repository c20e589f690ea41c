/** The query string of a URI (src/parse/query.rs): `?key=value`, then any
    number of `&key=value` pairs, where every key and value is a resource. */
module Query {
  import opened Nom
  import opened Utils
  import opened Resource

  /** `QueryPair<'a>`: a key and value borrowed from the URI text. */
  datatype QueryPair = QueryPair(key: string, value: string)

  /** `OwnedQueryPair`: the same pair with owned strings. */
  datatype OwnedQueryPair = OwnedQueryPair(key: string, value: string)

  /** `From<QueryPair> for OwnedQueryPair`: key and value copied unchanged. */
  function ToOwnedPair(p: QueryPair): (o: OwnedQueryPair)
    ensures [o.key, o.value] == [p.key, p.value]
  {
    OwnedQueryPair(p.key, p.value)
  }

  lemma ToOwnedPairInjective(p: QueryPair, q: QueryPair)
    ensures ToOwnedPair(p) == ToOwnedPair(q) <==> p == q
  {
    assert ToOwnedPair(p) == ToOwnedPair(q) ==> [p.key, p.value] == [q.key, q.value];
    assert [p.key, p.value][0] == p.key && [p.key, p.value][1] == p.value;
    assert [q.key, q.value][0] == q.key && [q.key, q.value][1] == q.value;
  }

  /** A pair both of whose parts are resources: what the parsers produce. */
  predicate ValidPair(p: QueryPair) {
    IsResource(p.key) && IsResource(p.value)
  }

  predicate AllValid(ps: seq<QueryPair>) {
    forall i :: 0 <= i < |ps| ==> ValidPair(ps[i])
  }

  /** The text of one pair after its lead char: `&key=value` or `?key=value`. */
  function PairText(lead: string, p: QueryPair): string {
    lead + p.key + "=" + p.value
  }

  /** The text of a list of `&key=value` pairs, in order. */
  function AndsText(ps: seq<QueryPair>): string
    decreases |ps|
  {
    if ps == [] then "" else PairText("&", ps[0]) + AndsText(ps[1..])
  }

  /** The text of a whole query: `?` and the first pair, then the rest as
      `&` pairs. */
  function QueryText(ps: seq<QueryPair>): string
    requires ps != []
  {
    PairText("?", ps[0]) + AndsText(ps[1..])
  }

  /** `preceded(tag(lead), parse_resource)` then
      `preceded(tag("="), parse_resource)`: the shape shared by the first
      pair of a query (`lead` is `?`) and every later one (`&`). */
  function ParsePair(lead: string, s: string): (r: IResult<QueryPair>)
    ensures SuffixOf(r.rest, s)
    ensures r.Ok? ==> ValidPair(r.value) && PairText(lead, r.value) + r.rest == s && Delimits(Body, r.rest)
    ensures !(lead <= s) ==> r == Err(s, Tag)
  {
    match MatchTag(lead, s)
    case Err(e, k) => Err(e, k)
    case Ok(i1, _) =>
      match ParseResource(i1)
      case Err(e, k) => SuffixOfTransitive(e, i1, s); Err(e, k)
      case Ok(i2, key) =>
        SuffixOfTransitive(i2, i1, s);
        match MatchTag("=", i2)
        case Err(e, k) => SuffixOfTransitive(e, i2, s); Err(e, k)
        case Ok(i3, _) =>
          SuffixOfTransitive(i3, i2, s);
          match ParseResource(i3)
          case Err(e, k) => SuffixOfTransitive(e, i3, s); Err(e, k)
          case Ok(i4, value) =>
            SuffixOfTransitive(i4, i3, s);
            PairTextSplit(lead, s, key, value, i1, i2, i3, i4);
            Ok(i4, QueryPair(key, value))
  }

  lemma PairTextSplit(lead: string, s: string, key: string, value: string,
                      i1: string, i2: string, i3: string, i4: string)
    requires lead + i1 == s && key + i2 == i1 && "=" + i3 == i2 && value + i4 == i3
    ensures PairText(lead, QueryPair(key, value)) + i4 == s
  {
    assert lead + key + "=" + value + i4 == lead + (key + ("=" + (value + i4)));
  }

  /** `parse_and`: `&`, a resource key, `=`, a resource value. */
  function ParseAnd(s: string): (r: IResult<QueryPair>)
    ensures SuffixOf(r.rest, s)
    ensures r.Ok? ==> ValidPair(r.value) && PairText("&", r.value) + r.rest == s && Delimits(Body, r.rest)
    ensures !("&" <= s) ==> r == Err(s, Tag)
  {
    ParsePair("&", s)
  }

  lemma ConsText(p: QueryPair, ps: seq<QueryPair>, t: string, s: string)
    requires ValidPair(p) && AllValid(ps)
    requires PairText("&", p) + (AndsText(ps) + t) == s
    ensures AllValid([p] + ps) && AndsText([p] + ps) + t == s
  {
    assert ([p] + ps)[1..] == ps;
    ConcatAssoc(PairText("&", p), AndsText(ps), t);
  }

  /** nom's `many0(parse_and)`: apply `parse_and` until it fails, and
      collect the pairs in input order. Each pair consumes at least `&=`
      and two chars, so the loop always makes progress and many0's
      no-progress error cannot arise. */
  function ManyAnd(s: string): (r: IResult<seq<QueryPair>>)
    ensures r.Ok?
    ensures SuffixOf(r.rest, s)
    ensures AllValid(r.value) && AndsText(r.value) + r.rest == s
    ensures ParseAnd(r.rest).Err?
    decreases |s|
  {
    match ParseAnd(s)
    case Err(_, _) => Ok(s, [])
    case Ok(i, p) =>
      assert |i| < |s|;
      var more := ManyAnd(i);
      SuffixOfTransitive(more.rest, i, s);
      ConsText(p, more.value, more.rest, s);
      Ok(more.rest, [p] + more.value)
  }

  /** `parse_query`: `?`, the first pair, then every `&` pair that follows;
      the list is never empty. A trailing `&` that does not begin a pair is
      left unconsumed rather than failing. */
  function ParseQuery(s: string): (r: IResult<seq<QueryPair>>)
    ensures SuffixOf(r.rest, s)
    ensures r.Ok? ==> r.value != [] && AllValid(r.value) && QueryText(r.value) + r.rest == s
    ensures r.Ok? ==> ParseAnd(r.rest).Err?
    ensures !("?" <= s) ==> r == Err(s, Tag)
  {
    match ParsePair("?", s)
    case Err(e, k) => Err(e, k)
    case Ok(i, p) =>
      var more := ManyAnd(i);
      SuffixOfTransitive(more.rest, i, s);
      FirstPairText(p, more.value, more.rest, s);
      Ok(more.rest, [p] + more.value)
  }

  lemma FirstPairText(p: QueryPair, ps: seq<QueryPair>, t: string, s: string)
    requires ValidPair(p) && AllValid(ps)
    requires PairText("?", p) + (AndsText(ps) + t) == s
    ensures AllValid([p] + ps) && QueryText([p] + ps) + t == s
  {
    assert ([p] + ps)[1..] == ps;
    ConcatAssoc(PairText("?", p), AndsText(ps), t);
  }

  /** A valid pair followed by a char that cannot continue its value parses
      as exactly that pair. */
  lemma PairConcat(lead: string, p: QueryPair, u: string)
    requires ValidPair(p) && Delimits(Body, u)
    ensures ParsePair(lead, PairText(lead, p) + u) == Ok(u, p)
  {
    var s := PairText(lead, p) + u;
    var i2 := "=" + (p.value + u);
    var i1 := p.key + i2;
    assert s == lead + i1;
    assert MatchTag(lead, s) == Ok(i1, lead);
    assert ByteOf('=') == 0x3D;
    ResourceConcat(p.key, i2);
    assert ParseResource(i1) == Ok(i2, p.key);
    assert i2[1..] == p.value + u;
    assert MatchTag("=", i2) == Ok(p.value + u, "=");
    ResourceConcat(p.value, u);
  }

  /** One more `&` pair in front adds one pair in front of the list. */
  lemma ManyAndCons(p: QueryPair, u: string)
    requires ValidPair(p) && Delimits(Body, u)
    ensures ManyAnd(PairText("&", p) + u) == Ok(ManyAnd(u).rest, [p] + ManyAnd(u).value)
  {
    PairConcat("&", p, u);
  }

  /** The text after a list of `&` pairs and `t` cannot continue the last
      value, when `t` cannot. */
  lemma AndsTextDelimits(ps: seq<QueryPair>, t: string)
    requires Delimits(Body, t)
    ensures Delimits(Body, AndsText(ps) + t)
  {
    if ps != [] {
      assert (AndsText(ps) + t)[0] == '&';
      assert ByteOf('&') == 0x26;
    }
  }

  /** `many0(parse_and)` reads back exactly the pairs rendered before a
      text where `parse_and` fails. */
  lemma {:induction false} ManyAndRoundTrip(ps: seq<QueryPair>, t: string)
    requires AllValid(ps) && Delimits(Body, t) && ParseAnd(t).Err?
    ensures ManyAnd(AndsText(ps) + t) == Ok(t, ps)
    decreases |ps|
  {
    if ps == [] {
      assert AndsText(ps) + t == t;
    } else {
      var p, rest := ps[0], ps[1..];
      HeadThenTail(ps);
      assert ValidPair(p) && AllValid(rest);
      var tail := AndsText(rest) + t;
      ManyAndRoundTrip(rest, t);
      AndsTextDelimits(rest, t);
      ManyAndCons(p, tail);
      assert AndsText(ps) + t == PairText("&", p) + tail by {
        ConcatAssoc(PairText("&", p), AndsText(rest), t);
      }
    }
  }

  /** A query is its first pair followed by whatever `many0(parse_and)` reads. */
  lemma QueryCons(p: QueryPair, u: string)
    requires ValidPair(p) && Delimits(Body, u)
    ensures ParseQuery(PairText("?", p) + u) == Ok(ManyAnd(u).rest, [p] + ManyAnd(u).value)
  {
    PairConcat("?", p, u);
  }

  /** `parse_query` reads back exactly the pairs rendered before a text
      where `parse_and` fails; the list is written as its first pair `p`
      and the rest. */
  lemma QueryRoundTrip(p: QueryPair, rest: seq<QueryPair>, t: string)
    requires ValidPair(p) && AllValid(rest) && Delimits(Body, t) && ParseAnd(t).Err?
    ensures ParseQuery(QueryText([p] + rest) + t) == Ok(t, [p] + rest)
  {
    assert ([p] + rest)[1..] == rest;
    var tail := AndsText(rest) + t;
    ConcatAssoc(PairText("?", p), AndsText(rest), t);
    ManyAndRoundTrip(rest, t);
    AndsTextDelimits(rest, t);
    QueryCons(p, tail);
  }

  /** `parse_and` fails wherever the text does not start with `&`. */
  lemma AndNeedsAmpersand(t: string)
    requires t == [] || t[0] != '&'
    ensures ParseAnd(t).Err?
  {
  }

  /** `parse_and("&version=current")` */
  lemma AndExample()
    ensures ParseAnd("&version=current") == Ok("", QueryPair("version", "current"))
  {
    var p := QueryPair("version", "current");
    assert PairText("&", p) + "" == "&version=current";
    assert ParsePair("&", PairText("&", p) + "") == Ok("", p) by {
      PairConcat("&", p, "");
    }
  }

  /** `parse_query("?version=current")` */
  lemma QueryExample()
    ensures ParseQuery("?version=current") == Ok("", [QueryPair("version", "current")])
  {
    var p := QueryPair("version", "current");
    assert PairText("?", p) == "?version=current";
    OnePairQuery(p);
  }

  /** A query of exactly one valid pair. */
  lemma OnePairQuery(p: QueryPair)
    requires ValidPair(p)
    ensures ParseQuery(PairText("?", p)) == Ok("", [p])
  {
    AndNeedsAmpersand("");
    SinglePairQuery(p, "");
    assert PairText("?", p) + "" == PairText("?", p);
  }

  /** A query of one valid pair, then a text where `parse_and` fails. */
  lemma SinglePairQuery(p: QueryPair, t: string)
    requires ValidPair(p) && Delimits(Body, t) && ParseAnd(t).Err?
    ensures ParseQuery(PairText("?", p) + t) == Ok(t, [p])
  {
    ManyAndRoundTrip([], t);
    assert AndsText([]) + t == t;
    QueryCons(p, t);
    assert [p] + [] == [p];
  }

  /** A query of two valid pairs and nothing after them. */
  lemma TwoPairQuery(p: QueryPair, q: QueryPair)
    requires ValidPair(p) && ValidPair(q)
    ensures ParseQuery(QueryText([p, q])) == Ok("", [p, q])
  {
    assert [p] + [q] == [p, q];
    assert QueryText([p] + [q]) + "" == QueryText([p, q]);
    AndNeedsAmpersand("");
    QueryRoundTrip(p, [q], "");
  }

  /** `parse_query("?version=current&server=organic")` keeps both pairs in order. */
  lemma QueryTwoPairsExample()
    ensures ParseQuery("?version=current&server=organic") ==
      Ok("", [QueryPair("version", "current"), QueryPair("server", "organic")])
  {
    var p, q := QueryPair("version", "current"), QueryPair("server", "organic");
    TwoPairsText();
    TwoPairQuery(p, q);
  }

  lemma TwoPairsText()
    ensures QueryText([QueryPair("version", "current"), QueryPair("server", "organic")])
      == "?version=current&server=organic"
  {
    var p, q := QueryPair("version", "current"), QueryPair("server", "organic");
    assert AndsText([q]) == PairText("&", q) + AndsText([]);
    assert [p, q][1..] == [q];
  }

  /** `&` followed by something that is not a letter fails at the key. */
  lemma AndNonLetterKey(v: string)
    requires v == [] || !IsAsciiAlpha(v[0])
    ensures ParseAnd("&" + v) == Err(v, Alpha)
  {
    assert ("&" + v)[1..] == v;
    assert MatchTag("&", "&" + v) == Ok(v, "&");
  }

  /** A pair followed by an `&` that starts no pair: the `&` is left unconsumed. */
  lemma PairThenStrayAmpersand(p: QueryPair, v: string)
    requires ValidPair(p) && (v == [] || !IsAsciiAlpha(v[0]))
    ensures ParseQuery(PairText("?", p) + ("&" + v)) == Ok("&" + v, [p])
  {
    AndNonLetterKey(v);
    assert ByteOf('&') == 0x26;
    assert !IsBody(("&" + v)[0]);
    SinglePairQuery(p, "&" + v);
  }

  /** A trailing `&1` does not parse as a pair and is left unconsumed. */
  lemma QueryTrailingAmpersandExample()
    ensures ParseQuery("?version=current&1") == Ok("&1", [QueryPair("version", "current")])
  {
    var p := QueryPair("version", "current");
    assert PairText("?", p) + ("&" + "1") == "?version=current&1";
    PairThenStrayAmpersand(p, "1");
  }

  /** A value that does not start with a letter fails with `Alpha` at the value. */
  lemma NonLetterValue(key: string, v: string)
    requires IsResource(key) && (v == [] || !IsAsciiAlpha(v[0]))
    ensures ParseQuery("?" + key + "=" + v) == Err(v, Alpha)
  {
    var i2 := "=" + v;
    var i1 := key + i2;
    var s := "?" + i1;
    assert "?" + key + "=" + v == s;
    assert MatchTag("?", s) == Ok(i1, "?") by {
      assert s[1..] == i1;
    }
    assert ParseResource(i1) == Ok(i2, key) by {
      assert ByteOf('=') == 0x3D;
      ResourceConcat(key, i2);
    }
    assert MatchTag("=", i2) == Ok(v, "=") by {
      assert i2[1..] == v;
    }
    assert ParseResource(v) == Err(v, Alpha);
  }

  /** A value must be a resource: `?version=1` fails at the `1`. */
  lemma QueryNumericValueExample()
    ensures ParseQuery("?version=1") == Err("1", Alpha)
  {
    assert "?" + "version" + "=" + "1" == "?version=1";
    NonLetterValue("version", "1");
  }
}
