/** The version an asset URI asks for (src/version.rs): one of the keywords
    `current` and `latest`, or a number that fits in a `u16`. */
module Versions {
  import opened Wrappers
  import opened Errors

  /** Rust's `u16` */
  type U16 = n: nat | n < 0x1_0000

  datatype Version = Current | Latest | Number(n: U16)

  predicate IsDigitChar(c: char) {
    '0' <= c <= '9'
  }

  predicate AllDigits(ds: string) {
    forall i :: 0 <= i < |ds| ==> IsDigitChar(ds[i])
  }

  function DigitOf(c: char): (d: nat)
    requires IsDigitChar(c)
    ensures d < 10
  {
    c as nat - '0' as nat
  }

  function DigitChar(d: nat): (c: char)
    requires d < 10
    ensures IsDigitChar(c) && DigitOf(c) == d
  {
    ('0' as nat + d) as char
  }

  /** The value of a decimal digit string, most significant digit first;
      the empty string is worth 0. */
  function DigitsValue(ds: string): nat
    requires AllDigits(ds)
  {
    if ds == [] then 0 else DigitsValue(ds[..|ds| - 1]) * 10 + DigitOf(ds[|ds| - 1])
  }

  /** The digits of an unsigned number text: Rust drops one leading `+`
      (a `-` is kept and then fails as a digit). */
  function Unsigned(s: string): (ds: string)
    ensures ds == s || ("+" <= s && ds == s[1..])
  {
    if |s| > 0 && s[0] == '+' then s[1..] else s
  }

  /** What `str::parse::<u16>` accepts: an optional `+`, at least one
      decimal digit, and a value that fits in 16 bits. Leading zeros are
      allowed. */
  predicate IsU16Text(s: string) {
    var ds := Unsigned(s);
    ds != [] && AllDigits(ds) && DigitsValue(ds) < 0x1_0000
  }

  /** Extending a digit string never lowers its value. */
  lemma {:induction false} DigitsValueMonotone(ds: string, k: nat)
    requires AllDigits(ds) && k <= |ds|
    ensures AllDigits(ds[..k]) && DigitsValue(ds[..k]) <= DigitsValue(ds)
    decreases |ds| - k
  {
    if k < |ds| {
      var p := ds[..|ds| - 1];
      assert AllDigits(p);
      assert p[..k] == ds[..k];
      DigitsValueMonotone(p, k);
    } else {
      assert ds[..k] == ds;
    }
  }

  lemma PrefixBound(ds: string, k: nat)
    requires k <= |ds| && AllDigits(ds[..k])
    ensures AllDigits(ds) ==> DigitsValue(ds[..k]) <= DigitsValue(ds)
  {
    if AllDigits(ds) {
      DigitsValueMonotone(ds, k);
    }
  }

  /** The digit loop of `u16::from_str_radix` from position `i` on, with
      `acc` the value of the digits before `i`: a non-digit or a checked
      multiply-add that overflows 16 bits ends the parse with an error. */
  function Accumulate(ds: string, i: nat, acc: U16): (r: Option<U16>)
    requires i <= |ds| && AllDigits(ds[..i]) && acc == DigitsValue(ds[..i])
    ensures r.Some? <==> AllDigits(ds) && DigitsValue(ds) < 0x1_0000
    ensures r.Some? ==> r.value == DigitsValue(ds)
    decreases |ds| - i
  {
    if i == |ds| then
      assert ds[..i] == ds;
      Some(acc)
    else if !IsDigitChar(ds[i]) then
      None
    else
      var next := acc * 10 + DigitOf(ds[i]);
      assert ds[..i + 1][..i] == ds[..i];
      assert AllDigits(ds[..i + 1]) && DigitsValue(ds[..i + 1]) == next;
      if next >= 0x1_0000 then
        PrefixBound(ds, i + 1);
        None
      else
        Accumulate(ds, i + 1, next)
  }

  /** `str::parse::<u16>`: an empty text, or a lone sign, is an error; so is
      any non-digit and any value above 65535. */
  function ParseU16(s: string): (r: Option<U16>)
    ensures r.Some? <==> IsU16Text(s)
    ensures r.Some? ==> r.value == DigitsValue(Unsigned(s))
  {
    if s == [] then None
    else if s[0] == '+' && |s| == 1 then None
    else
      assert Unsigned(s)[..0] == [];
      Accumulate(Unsigned(s), 0, 0)
  }

  /** `Version::from_str`: the two keywords, or else a `u16`; anything else
      is `StrToIntError` carrying the input. */
  function FromStr(input: string): (r: Result<Version, AmuriError>)
    ensures r.Failure? ==> r.error == StrToIntError(input)
    ensures r == Success(Current) <==> input == "current"
    ensures r == Success(Latest) <==> input == "latest"
    ensures (r.Success? && r.value.Number?) <==> IsU16Text(input)
    ensures r.Success? && r.value.Number? ==> r.value.n == DigitsValue(Unsigned(input))
  {
    if input == "current" then Success(Current)
    else if input == "latest" then Success(Latest)
    else
      match ParseU16(input)
      case None => Failure(StrToIntError(input))
      case Some(n) => Success(Number(n))
  }

  /** The canonical decimal text of `n`: no sign, no leading zeros. */
  function Decimal(n: nat): (ds: string)
    ensures ds != []
    decreases n
  {
    if n < 10 then [DigitChar(n)] else Decimal(n / 10) + [DigitChar(n % 10)]
  }

  lemma {:induction false} DecimalValue(n: nat)
    ensures AllDigits(Decimal(n)) && DigitsValue(Decimal(n)) == n
    decreases n
  {
    var ds := Decimal(n);
    if n >= 10 {
      DecimalValue(n / 10);
      assert ds[..|ds| - 1] == Decimal(n / 10);
      assert ds[|ds| - 1] == DigitChar(n % 10);
    }
  }

  /** `n` zeros */
  function Zeros(n: nat): (z: string)
    ensures |z| == n && AllDigits(z)
  {
    if n == 0 then [] else Zeros(n - 1) + "0"
  }

  /** Leading zeros do not change the value of a digit string. */
  lemma {:induction false} LeadingZeros(k: nat, ds: string)
    requires AllDigits(ds)
    ensures AllDigits(Zeros(k) + ds) && DigitsValue(Zeros(k) + ds) == DigitsValue(ds)
    decreases |ds|
  {
    var s := Zeros(k) + ds;
    if ds == [] {
      assert s == Zeros(k);
      ZerosValue(k);
    } else {
      var p := ds[..|ds| - 1];
      assert s[..|s| - 1] == Zeros(k) + p;
      assert s[|s| - 1] == ds[|ds| - 1];
      LeadingZeros(k, p);
    }
  }

  lemma {:induction false} ZerosValue(k: nat)
    ensures DigitsValue(Zeros(k)) == 0
  {
    if k > 0 {
      assert Zeros(k)[..k - 1] == Zeros(k - 1);
      ZerosValue(k - 1);
    }
  }

  /** Every `u16`, written in decimal with any number of leading zeros,
      parses back to itself. */
  lemma NumberRoundTrip(n: U16, k: nat)
    ensures FromStr(Zeros(k) + Decimal(n)) == Success(Number(n))
  {
    var s := Zeros(k) + Decimal(n);
    DecimalValue(n);
    LeadingZeros(k, Decimal(n));
    assert s[0] != '+' && s[0] != 'c' && s[0] != 'l';
    assert Unsigned(s) == s;
  }

  /** The text of a keyword version. */
  function KeywordText(v: Version): (t: string)
    requires !v.Number?
  {
    if v == Current then "current" else "latest"
  }

  /** The keywords parse back to themselves. */
  lemma KeywordRoundTrip(v: Version)
    requires !v.Number?
    ensures FromStr(KeywordText(v)) == Success(v)
  {
  }

  /** A text that starts with neither a digit nor `+` is a version only if it
      is one of the two keywords; every other word (such as `next`) fails. */
  lemma WordVersion(s: string)
    requires s != [] && !IsDigitChar(s[0]) && s[0] != '+'
    ensures FromStr(s).Success? <==> s == "current" || s == "latest"
    ensures FromStr(s).Success? ==> !FromStr(s).value.Number?
  {
    assert Unsigned(s) == s;
  }

  /** The cases of the source's tests, and the bounds of a `u16`. */
  lemma VersionKeywordExamples()
    ensures FromStr("current") == Success(Current)
    ensures FromStr("latest") == Success(Latest)
  {
  }

  lemma PaddedVersionExample()
    ensures FromStr("0001") == Success(Number(1))
  {
    assert Zeros(3) + Decimal(1) == "0001";
    NumberRoundTrip(1, 3);
  }

  lemma WordVersionExamples()
    ensures FromStr("fred") == Failure(StrToIntError("fred"))
    ensures FromStr("next") == Failure(StrToIntError("next"))
  {
    WordVersion("fred");
    WordVersion("next");
  }

  lemma VersionMaxExample()
    ensures FromStr("65535") == Success(Number(65535))
  {
    assert Zeros(0) + Decimal(65535) == "65535";
    NumberRoundTrip(65535, 0);
  }

  lemma VersionOverflowExample()
    ensures FromStr("65536") == Failure(StrToIntError("65536"))
  {
    assert Unsigned("65536") == "65536";
    assert "65536"[..4] == "6553";
    assert DigitsValue("65536") == DigitsValue("6553") * 10 + 6;
  }

  lemma SignedVersionExamples()
    ensures FromStr("+7") == Success(Number(7))
    ensures FromStr("+") == Failure(StrToIntError("+"))
    ensures FromStr("-1") == Failure(StrToIntError("-1"))
    ensures FromStr("") == Failure(StrToIntError(""))
  {
    assert Unsigned("+7") == "7";
    assert Unsigned("-1") == "-1";
    assert !IsDigitChar("-1"[0]);
  }
}
