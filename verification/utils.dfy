/** Character-class primitives and the maximal-run scanners every segment
    parser is built from (src/parse/utils.rs), together with the nom
    character parsers `alpha1` and `alphanumeric1`. */
module Utils {
  import opened Nom

  /** An unsigned byte, Rust's `u8`. */
  type Byte = b: int | 0 <= b < 0x100

  /** The cast `c as u8` of a Rust `char`: it keeps the low eight bits of the
      code point, so a non-ASCII character can land on an ASCII byte. */
  function ByteOf(c: char): Byte {
    if c as int < 0x100 then c as int else (c as int) % 0x100
  }

  /** nom's `character::is_alphabetic` on a byte: `A`..`Z` or `a`..`z`. */
  predicate IsAlphabetic(b: Byte) {
    0x41 <= b <= 0x5A || 0x61 <= b <= 0x7A
  }

  /** nom's `character::is_digit` on a byte: `0`..`9`. */
  predicate IsDigit(b: Byte) {
    0x30 <= b <= 0x39
  }

  /** `is_underscore`: the byte is `_`. */
  predicate IsUnderscore(b: Byte) {
    b == 0x5F
  }

  /** `is_valid_body_char`: a letter, a digit or `_`. */
  predicate IsValidBodyChar(b: Byte) {
    IsAlphabetic(b) || IsDigit(b) || IsUnderscore(b)
  }

  /** `char::is_ascii_alphabetic`, the item test of `alpha1`. */
  predicate IsAsciiAlpha(c: char) {
    'A' <= c <= 'Z' || 'a' <= c <= 'z'
  }

  /** `char::is_ascii_alphanumeric`, the item test of `alphanumeric1`. */
  predicate IsAsciiAlphanumeric(c: char) {
    IsAsciiAlpha(c) || '0' <= c <= '9'
  }

  predicate IsAscii(c: char) {
    c as int < 0x80
  }

  predicate AllAscii(s: string) {
    forall i :: 0 <= i < |s| ==> IsAscii(s[i])
  }

  /** The item test of `valid_body0`/`valid_body1`: the truncated byte is a
      valid body char. */
  predicate IsBody(c: char) {
    IsValidBodyChar(ByteOf(c))
  }

  /** The cast keeps the low eight bits: an ASCII char is its own byte, and
      any char is its byte plus a whole number of 256s. */
  lemma ByteOfTruncates(c: char)
    ensures IsAscii(c) ==> ByteOf(c) == c as int
    ensures c as int == ByteOf(c) + 0x100 * (c as int / 0x100)
  {
  }

  /** The byte tests of src/parse/utils.rs against the char tests they
      stand for: on ASCII, `is_underscore` is exactly `_`, nom's
      `is_alphabetic` and `is_digit` are exactly the ASCII letters and
      digits, and `is_valid_body_char` is exactly a letter, a digit or `_`;
      on any char the body test sees only the low byte. */
  lemma ByteTestsOnChars(c: char)
    ensures IsAscii(c) ==> (IsUnderscore(ByteOf(c)) <==> c == '_')
    ensures IsAscii(c) ==> (IsAlphabetic(ByteOf(c)) <==> IsAsciiAlpha(c))
    ensures IsAscii(c) ==> (IsDigit(ByteOf(c)) <==> '0' <= c <= '9')
    ensures IsAscii(c) ==> (IsBody(c) <==> IsAsciiAlphanumeric(c) || c == '_')
    ensures IsBody(c) <==> IsBody(ByteOf(c) as char)
  {
  }

  /** The three character classes the grammar scans maximal runs of. */
  datatype CharClass = Letter | LetterOrDigit | Body

  predicate InClass(k: CharClass, c: char) {
    match k
    case Letter => IsAsciiAlpha(c)
    case LetterOrDigit => IsAsciiAlphanumeric(c)
    case Body => IsBody(c)
  }

  predicate AllInClass(k: CharClass, s: string) {
    forall i :: 0 <= i < |s| ==> InClass(k, s[i])
  }

  /** `t` cannot continue a run of class `k`: it is empty or starts outside the class. */
  predicate Delimits(k: CharClass, t: string) {
    t == [] || !InClass(k, t[0])
  }

  /** `s.chars().last().unwrap_or(d)` */
  function LastOr(s: string, d: char): (c: char)
    ensures s == [] ==> c == d
    ensures s != [] ==> c == s[|s| - 1]
  {
    if s == [] then d else s[|s| - 1]
  }

  /** An ASCII letter is a letter-or-digit, and a letter-or-digit is a body char. */
  lemma ClassInclusion(c: char)
    ensures InClass(Letter, c) ==> InClass(LetterOrDigit, c)
    ensures InClass(LetterOrDigit, c) ==> InClass(Body, c)
  {
  }

  /** Length of the longest prefix of `s` whose characters are all in class `k`. */
  function RunLength(k: CharClass, s: string): (n: nat)
    ensures n <= |s|
    ensures AllInClass(k, s[..n])
    ensures n < |s| ==> !InClass(k, s[n])
    decreases |s|
  {
    if s == [] || !InClass(k, s[0]) then 0
    else
      var m := RunLength(k, s[1..]);
      assert s[..1 + m] == [s[0]] + s[1..][..m];
      1 + m
  }

  /** The maximal run is the only split with an in-class prefix and a delimiting rest. */
  lemma RunLengthUnique(k: CharClass, s: string, n: nat)
    requires n <= |s| && AllInClass(k, s[..n]) && Delimits(k, s[n..])
    ensures RunLength(k, s) == n
  {
  }

  /** A run of class `k` followed by a delimiter is scanned exactly. */
  lemma RunLengthConcat(k: CharClass, s: string, t: string)
    requires AllInClass(k, s) && Delimits(k, t)
    ensures RunLength(k, s + t) == |s|
  {
    assert (s + t)[..|s|] == s;
    assert (s + t)[|s|..] == t;
    RunLengthUnique(k, s + t, |s|);
  }

  /** A run that stops inside `x` is not affected by what follows `x`. */
  lemma RunLengthStopsInside(k: CharClass, x: string, t: string)
    requires RunLength(k, x) < |x|
    ensures RunLength(k, x + t) == RunLength(k, x)
  {
    var a := RunLength(k, x);
    assert (x + t)[..a] == x[..a];
    assert (x + t)[a..][0] == x[a];
    RunLengthUnique(k, x + t, a);
  }

  /** Cutting `s` anywhere at or after the end of its run keeps the run. */
  lemma RunLengthPrefix(k: CharClass, s: string, m: nat)
    requires RunLength(k, s) <= m <= |s|
    ensures RunLength(k, s[..m]) == RunLength(k, s)
  {
    var a := RunLength(k, s);
    assert s[..m][..a] == s[..a];
    if a < m {
      assert s[..m][a..][0] == s[a];
    }
    RunLengthUnique(k, s[..m], a);
  }

  /** Scanning past an in-class prefix of length `a` and continuing from there
      finds the same run as one scan from the start. */
  lemma RunLengthSplit(k: CharClass, s: string, a: nat)
    requires a <= |s| && AllInClass(k, s[..a])
    ensures RunLength(k, s) == a + RunLength(k, s[a..])
  {
    var m := RunLength(k, s[a..]);
    assert s[..a + m] == s[..a] + s[a..][..m];
    assert s[a + m..] == s[a..][m..];
    RunLengthUnique(k, s, a + m);
  }

  /** `split_at_position_complete`: the longest in-class prefix, never an error. */
  function SplitAtPosition(k: CharClass, s: string): (r: IResult<string>)
    ensures r.Ok?
    ensures r.value + r.rest == s
    ensures AllInClass(k, r.value) && Delimits(k, r.rest)
    ensures SuffixOf(r.rest, s)
  {
    var n := RunLength(k, s);
    assert s == s[..n] + s[n..];
    Ok(s[n..], s[..n])
  }

  /** `split_at_position1_complete`: as `SplitAtPosition`, but an empty run is
      an error of the given kind at the whole input. */
  function SplitAtPosition1(k: CharClass, s: string, kind: ErrorKind): (r: IResult<string>)
    ensures r.Err? <==> Delimits(k, s)
    ensures r.Err? ==> r == Err(s, kind)
    ensures r.Ok? ==> r == SplitAtPosition(k, s) && r.value != []
    ensures SuffixOf(r.rest, s)
  {
    if RunLength(k, s) == 0 then Err(s, kind) else SplitAtPosition(k, s)
  }

  /** `valid_body0_parser`: zero or more body chars. */
  function ValidBody0(s: string): (r: IResult<string>)
    ensures r.Ok?
    ensures r.value + r.rest == s
    ensures forall i :: 0 <= i < |r.value| ==> IsValidBodyChar(ByteOf(r.value[i]))
    ensures r.rest == [] || !IsValidBodyChar(ByteOf(r.rest[0]))
  {
    SplitAtPosition(Body, s)
  }

  /** `valid_body1_parser`: one or more body chars, else an `Alpha` error. */
  function ValidBody1(s: string): (r: IResult<string>)
    ensures r.Err? <==> s == [] || !IsValidBodyChar(ByteOf(s[0]))
    ensures r.Err? ==> r == Err(s, Alpha)
    ensures r.Ok? ==> r == ValidBody0(s) && r.value != []
  {
    SplitAtPosition1(Body, s, Alpha)
  }

  /** nom's `alpha1`: one or more ASCII letters, else an `Alpha` error. */
  function Alpha1(s: string): (r: IResult<string>)
    ensures r.Err? <==> s == [] || !IsAsciiAlpha(s[0])
    ensures r.Err? ==> r == Err(s, Alpha)
    ensures r.Ok? ==> r.value != [] && r.value + r.rest == s && AllInClass(Letter, r.value) && Delimits(Letter, r.rest)
    ensures r.Ok? ==> |r.value| == RunLength(Letter, s)
  {
    SplitAtPosition1(Letter, s, Alpha)
  }

  /** nom's `alphanumeric1`: one or more ASCII letters or digits, else an
      `AlphaNumeric` error. */
  function Alphanumeric1(s: string): (r: IResult<string>)
    ensures r.Err? <==> s == [] || !IsAsciiAlphanumeric(s[0])
    ensures r.Err? ==> r == Err(s, AlphaNumeric)
    ensures r.Ok? ==> r.value != [] && r.value + r.rest == s && AllInClass(LetterOrDigit, r.value) && Delimits(LetterOrDigit, r.rest)
    ensures r.Ok? ==> |r.value| == RunLength(LetterOrDigit, s)
  {
    SplitAtPosition1(LetterOrDigit, s, AlphaNumeric)
  }

  /** A run of letters, or of letters and digits, never outlasts the body run. */
  lemma LeadWithinBody(k: CharClass, s: string)
    requires k != Body
    ensures RunLength(k, s) <= RunLength(Body, s)
  {
    LeadThenBody(k, s);
  }

  /** The body scan started after a leading run of class `k` (letters, or
      letters and digits) ends where a single body scan from the start ends:
      the shared first step of every letter-led segment parser. */
  lemma LeadThenBody(k: CharClass, s: string)
    requires k != Body
    ensures RunLength(k, s) <= RunLength(Body, s)
    ensures ValidBody0(s[RunLength(k, s)..]) == Ok(s[RunLength(Body, s)..], s[RunLength(k, s)..RunLength(Body, s)])
  {
    var a := RunLength(k, s);
    forall i | 0 <= i < a
      ensures InClass(Body, s[..a][i])
    {
      ClassInclusion(s[..a][i]);
    }
    RunLengthSplit(Body, s, a);
    var n := RunLength(Body, s);
    var m := RunLength(Body, s[a..]);
    assert s[a..][..m] == s[a..n];
    assert s[a..][m..] == s[n..];
  }

  /** A body-char run starting with a letter: a letter-led segment's text. */
  predicate LetterLed(x: string) {
    |x| > 0 && IsAsciiAlpha(x[0]) && AllInClass(Body, x)
  }

  /** `valid_body0` splits `s` only where the body-char class ends: any split
      into body chars followed by a non-body char (or nothing) is its split. */
  lemma ValidBody0Unique(s: string, p: string, q: string)
    requires p + q == s && AllInClass(Body, p) && Delimits(Body, q)
    ensures ValidBody0(s) == Ok(q, p)
  {
    RunLengthConcat(Body, p, q);
  }

  /** A non-empty run of body chars followed by a char that cannot continue
      it is exactly what `valid_body1` takes. */
  lemma ValidBody1Concat(p: string, q: string)
    requires p != [] && AllInClass(Body, p) && Delimits(Body, q)
    ensures ValidBody1(p + q) == Ok(q, p)
  {
    assert (p + q)[0] == p[0];
    ValidBody0Unique(p + q, p, q);
  }

  /** The byte cases the source's tests name. */
  lemma BodyCharExamples()
    ensures IsUnderscore('_' as int) && !IsUnderscore('a' as int)
    ensures forall c :: c in "abc09_" ==> IsValidBodyChar(c as int)
    ensures forall c :: c in "-$! ,./?\\|" ==> !IsValidBodyChar(c as int)
  {
  }

  /** The scanner cases the source's tests name: the run stops at `-`, and
      `valid_body0_parser("-abc_123-")` is `Ok(("-abc_123-", ""))`. */
  lemma Body0ScanExample()
    ensures ValidBody0("abc_123-") == Ok("-", "abc_123")
  {
    ValidBody0Unique("abc_123-", "abc_123", "-");
  }

  lemma Body0EmptyScanExample()
    ensures ValidBody0("-abc_123-") == Ok("-abc_123-", "")
  {
    ValidBody0Unique("-abc_123-", "", "-abc_123-");
  }

  lemma Body1ScanExample()
    ensures ValidBody1("abc_123-") == Ok("-", "abc_123")
  {
    Body0ScanExample();
  }

  lemma Body1EmptyScanExample()
    ensures ValidBody1("-abc_123-") == Err("-abc_123-", Alpha)
  {
    Body0EmptyScanExample();
  }
}
