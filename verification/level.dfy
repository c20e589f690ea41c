/** The level of an asset (src/level.rs): a show, a show and sequence, or a
    show, sequence and shot. `Level` borrows its parts from the parsed text
    and `LevelOwned` owns them; in the model both hold strings. */
module Levels {

  /** `Level<'a>`, the value the level parsers return. */
  datatype Level =
    | Show(show: string)
    | Sequence(show: string, sequence: string)
    | Shot(show: string, sequence: string, shot: string)

  /** `LevelOwned`, the value stored in an asset model. */
  datatype LevelOwned =
    | Show(show: string)
    | Sequence(show: string, sequence: string)
    | Shot(show: string, sequence: string, shot: string)

  /** The parts of a level, outermost first. */
  function Parts(l: Level): seq<string> {
    match l
    case Show(a) => [a]
    case Sequence(a, b) => [a, b]
    case Shot(a, b, c) => [a, b, c]
  }

  function OwnedParts(o: LevelOwned): seq<string> {
    match o
    case Show(a) => [a]
    case Sequence(a, b) => [a, b]
    case Shot(a, b, c) => [a, b, c]
  }

  /** A level is determined by its list of parts: one part is a show, two a
      sequence, three a shot. */
  lemma PartsDetermineLevel(l: Level, m: Level)
    ensures Parts(l) == Parts(m) ==> l == m
  {
  }

  lemma PartsDetermineOwned(o: LevelOwned, p: LevelOwned)
    ensures OwnedParts(o) == OwnedParts(p) ==> o == p
  {
  }

  /** `Level::to_owned`, and equally `From<Level> for LevelOwned`: the same
      variant with every part copied. */
  function ToOwned(l: Level): (o: LevelOwned)
    ensures OwnedParts(o) == Parts(l)
  {
    match l
    case Show(a) => LevelOwned.Show(a)
    case Sequence(a, b) => LevelOwned.Sequence(a, b)
    case Shot(a, b, c) => LevelOwned.Shot(a, b, c)
  }

  /** The borrowed view of an owned level: the inverse of `ToOwned`. */
  function Borrow(o: LevelOwned): (l: Level)
    ensures Parts(l) == OwnedParts(o)
  {
    match o
    case Show(a) => Level.Show(a)
    case Sequence(a, b) => Level.Sequence(a, b)
    case Shot(a, b, c) => Level.Shot(a, b, c)
  }

  /** Conversion loses nothing: distinct levels stay distinct, and every
      owned level is the conversion of exactly one level. */
  lemma ToOwnedBijective(l: Level, m: Level, o: LevelOwned)
    ensures ToOwned(l) == ToOwned(m) ==> l == m
    ensures ToOwned(Borrow(o)) == o && Borrow(ToOwned(l)) == l
  {
    PartsDetermineLevel(l, m);
    PartsDetermineLevel(Borrow(ToOwned(l)), l);
    PartsDetermineOwned(ToOwned(Borrow(o)), o);
  }

  /** `LevelOwned::to_string`: the dotted levelspec, show first and the
      innermost part last. */
  function ToString(o: LevelOwned): (s: string)
    ensures o.show <= s
    ensures !o.Show? ==> o.show + "." <= s && s[|o.show|] == '.'
    ensures o.Sequence? ==> |o.sequence| < |s| && s[|s| - |o.sequence|..] == o.sequence
    ensures o.Shot? ==> |o.shot| < |s| && s[|s| - |o.shot|..] == o.shot
  {
    match o
    case Show(a) => a
    case Sequence(a, b) => a + "." + b
    case Shot(a, b, c) => a + "." + b + "." + c
  }

  /** The index of the first `.` in `s`, or `|s|` when there is none. */
  function FirstDot(s: string): (i: nat)
    ensures i <= |s|
  {
    if s == [] || s[0] == '.' then 0 else 1 + FirstDot(s[1..])
  }

  lemma {:induction false} FirstDotAfter(a: string, b: string)
    requires '.' !in a
    ensures FirstDot(a + "." + b) == |a|
  {
    if a != [] {
      assert (a + "." + b)[1..] == a[1..] + "." + b;
      assert '.' !in a[1..];
      FirstDotAfter(a[1..], b);
    }
  }

  /** Splitting at the first `.` is unique. */
  lemma FirstDotSplit(a: string, b: string, c: string, d: string)
    requires '.' !in a && '.' !in c && a + "." + b == c + "." + d
    ensures a == c && b == d
  {
    var s := a + "." + b;
    FirstDotAfter(a, b);
    FirstDotAfter(c, d);
    assert a == s[..|a|] && c == s[..|c|];
    assert b == s[|a| + 1..] && d == s[|c| + 1..];
  }

  /** No part of the level contains a `.`. */
  predicate DotFree(o: LevelOwned) {
    forall part :: part in OwnedParts(o) ==> '.' !in part
  }

  /** When no part contains a `.`, the dotted text determines the level. */
  lemma ToStringInjective(o: LevelOwned, p: LevelOwned)
    requires DotFree(o) && DotFree(p)
    ensures ToString(o) == ToString(p) ==> o == p
  {
    if ToString(o) == ToString(p) {
      if Rank(o) <= Rank(p) {
        SameTextSameLevel(o, p);
      } else {
        SameTextSameLevel(p, o);
      }
    }
  }

  lemma SameTextSameLevel(o: LevelOwned, p: LevelOwned)
    requires DotFree(o) && DotFree(p) && Rank(o) <= Rank(p)
    requires ToString(o) == ToString(p)
    ensures o == p
  {
    assert o.show in OwnedParts(o) && p.show in OwnedParts(p);
    match o
    case Show(a) =>
      assert '.' !in ToString(p);
    case Sequence(a, b) =>
      assert b in OwnedParts(o);
      SameTextSequence(a, b, p);
    case Shot(a, b, c) =>
      assert b in OwnedParts(o) && c in OwnedParts(o);
      SameTextShot(a, b, c, p);
  }

  lemma SameTextSequence(a: string, b: string, p: LevelOwned)
    requires DotFree(p) && !p.Show? && '.' !in a && '.' !in b
    requires a + "." + b == ToString(p)
    ensures p == LevelOwned.Sequence(a, b)
  {
    assert p.show in OwnedParts(p) && p.sequence in OwnedParts(p);
    if p.Sequence? {
      FirstDotSplit(a, b, p.show, p.sequence);
    } else {
      ShotNotSequence(a, b, p);
    }
  }

  lemma SameTextShot(a: string, b: string, c: string, p: LevelOwned)
    requires DotFree(p) && p.Shot? && '.' !in a && '.' !in b && '.' !in c
    requires a + "." + b + "." + c == ToString(p)
    ensures p == LevelOwned.Shot(a, b, c)
  {
    assert '.' !in p.show && '.' !in p.sequence by {
      assert p.show in OwnedParts(p) && p.sequence in OwnedParts(p);
    }
    assert a == p.show && b + "." + c == p.sequence + "." + p.shot by {
      assert ToString(p) == p.show + "." + (p.sequence + "." + p.shot);
      assert a + "." + b + "." + c == a + "." + (b + "." + c);
      FirstDotSplit(a, b + "." + c, p.show, p.sequence + "." + p.shot);
    }
    FirstDotSplit(b, c, p.sequence, p.shot);
  }

  lemma ShotNotSequence(a: string, b: string, p: LevelOwned)
    requires p.Shot? && '.' !in a && '.' !in b && '.' !in p.show
    ensures a + "." + b != ToString(p)
  {
    if a + "." + b == ToString(p) {
      assert ToString(p) == p.show + "." + (p.sequence + "." + p.shot);
      FirstDotSplit(a, b, p.show, p.sequence + "." + p.shot);
    }
  }

  /** `src/level.rs` examples of the rendering. */
  lemma ToStringExamples()
    ensures ToString(LevelOwned.Show("dev02")) == "dev02"
    ensures ToString(LevelOwned.Sequence("dev02", "rd")) == "dev02.rd"
    ensures ToString(LevelOwned.Shot("dev02", "rd", "9999")) == "dev02.rd.9999"
  {
  }

  /** A three-way comparison, as `std::cmp::Ordering`. */
  datatype Ordering = Less | Equal | Greater

  function Flip(c: Ordering): Ordering {
    match c
    case Less => Greater
    case Equal => Equal
    case Greater => Less
  }

  /** `Ord for String`: byte-wise on UTF-8, which orders like code points. */
  function CompareStrings(a: string, b: string): (c: Ordering)
    decreases |a|
  {
    if a == [] && b == [] then Equal
    else if a == [] then Less
    else if b == [] then Greater
    else if a[0] < b[0] then Less
    else if b[0] < a[0] then Greater
    else CompareStrings(a[1..], b[1..])
  }

  /** Lexicographic order, stated directly: a proper prefix comes first, and
      otherwise the first differing char decides. */
  predicate LexLess(a: string, b: string) {
    exists k :: 0 <= k <= |a| && k <= |b| && a[..k] == b[..k] &&
      ((k == |a| && k < |b|) || (k < |a| && k < |b| && a[k] < b[k]))
  }

  lemma {:induction false} CompareStringsEqual(a: string, b: string)
    ensures CompareStrings(a, b) == Equal <==> a == b
    decreases |a|
  {
    if a != [] && b != [] && a[0] == b[0] {
      CompareStringsEqual(a[1..], b[1..]);
      if a[1..] == b[1..] {
        assert a == [a[0]] + a[1..] && b == [b[0]] + b[1..];
      }
    }
  }

  lemma {:induction false} CompareStringsFlip(a: string, b: string)
    ensures CompareStrings(b, a) == Flip(CompareStrings(a, b))
    decreases |a|
  {
    if a != [] && b != [] && a[0] == b[0] {
      CompareStringsFlip(a[1..], b[1..]);
    }
  }

  /** `CompareStrings` answers `Less` exactly on the lexicographic order. */
  lemma {:induction false} CompareStringsLess(a: string, b: string)
    ensures CompareStrings(a, b) == Less <==> LexLess(a, b)
    decreases |a|
  {
    if a == [] && b == [] {
    } else if a == [] {
      assert a[..0] == b[..0];
    } else if b == [] {
    } else if a[0] < b[0] {
      assert a[..0] == b[..0];
    } else if b[0] < a[0] {
      NotLexLessFirst(a, b);
    } else {
      CompareStringsLess(a[1..], b[1..]);
      LexLessTail(a, b);
    }
  }

  /** A string whose first char is greater does not come first. */
  lemma NotLexLessFirst(a: string, b: string)
    requires a != [] && b != [] && b[0] < a[0]
    ensures !LexLess(a, b)
  {
    forall k | 0 < k <= |a| && k <= |b|
      ensures a[..k] != b[..k]
    {
      assert a[..k][0] == a[0] && b[..k][0] == b[0];
    }
  }

  /** Two strings with the same first char compare as their tails do. */
  lemma LexLessTail(a: string, b: string)
    requires a != [] && b != [] && a[0] == b[0]
    ensures LexLess(a, b) <==> LexLess(a[1..], b[1..])
  {
    if LexLess(a, b) {
      LexLessDropHead(a, b);
    }
    if LexLess(a[1..], b[1..]) {
      LexLessAddHead(a, b);
    }
  }

  lemma LexLessDropHead(a: string, b: string)
    requires a != [] && b != [] && a[0] == b[0] && LexLess(a, b)
    ensures LexLess(a[1..], b[1..])
  {
    var k :| 0 <= k <= |a| && k <= |b| && a[..k] == b[..k] &&
      ((k == |a| && k < |b|) || (k < |a| && k < |b| && a[k] < b[k]));
    assert k > 0;
    assert a[1..][..k - 1] == a[..k][1..];
    assert b[1..][..k - 1] == b[..k][1..];
    assert a[1..][..k - 1] == b[1..][..k - 1];
    if k < |a| {
      assert a[1..][k - 1] == a[k];
    }
    if k < |b| {
      assert b[1..][k - 1] == b[k];
    }
  }

  lemma LexLessAddHead(a: string, b: string)
    requires a != [] && b != [] && a[0] == b[0] && LexLess(a[1..], b[1..])
    ensures LexLess(a, b)
  {
    var a', b' := a[1..], b[1..];
    var k :| 0 <= k <= |a'| && k <= |b'| && a'[..k] == b'[..k] &&
      ((k == |a'| && k < |b'|) || (k < |a'| && k < |b'| && a'[k] < b'[k]));
    assert a[..k + 1] == [a[0]] + a'[..k];
    assert b[..k + 1] == [b[0]] + b'[..k];
    if k < |a'| {
      assert a[k + 1] == a'[k];
    }
    if k < |b'| {
      assert b[k + 1] == b'[k];
    }
  }

  /** The position of a variant in the declaration, which the derived `Ord`
      compares first. */
  function Rank(o: LevelOwned): nat {
    match o
    case Show(_) => 0
    case Sequence(_, _) => 1
    case Shot(_, _, _) => 2
  }

  /** Lexicographic comparison of two equally long lists of parts. */
  function CompareParts(p: seq<string>, q: seq<string>): (c: Ordering)
    requires |p| == |q|
    decreases |p|
  {
    if |p| == 0 then Equal
    else
      var c := CompareStrings(p[0], q[0]);
      if c != Equal then c else CompareParts(p[1..], q[1..])
  }

  /** The derived `Ord` on `LevelOwned` (and, part for part, on `Level`):
      variant first, then, within a variant, the first part that differs
      decides, as the field tuple would. */
  function CompareLevels(a: LevelOwned, b: LevelOwned): (c: Ordering)
    ensures Rank(a) < Rank(b) ==> c == Less
    ensures Rank(b) < Rank(a) ==> c == Greater
    ensures Rank(a) == Rank(b) ==> |OwnedParts(a)| == |OwnedParts(b)|
    ensures Rank(a) == Rank(b) ==> (c == Less <==> ListLexLess(OwnedParts(a), OwnedParts(b)))
  {
    if Rank(a) < Rank(b) then Less
    else if Rank(b) < Rank(a) then Greater
    else
      ComparePartsLess(OwnedParts(a), OwnedParts(b));
      CompareParts(OwnedParts(a), OwnedParts(b))
  }

  lemma {:induction false} ComparePartsEqual(p: seq<string>, q: seq<string>)
    requires |p| == |q|
    ensures CompareParts(p, q) == Equal <==> p == q
    decreases |p|
  {
    if |p| > 0 {
      CompareStringsEqual(p[0], q[0]);
      ComparePartsEqual(p[1..], q[1..]);
      if p[0] == q[0] && p[1..] == q[1..] {
        assert p == [p[0]] + p[1..] && q == [q[0]] + q[1..];
      }
    }
  }

  lemma {:induction false} ComparePartsFlip(p: seq<string>, q: seq<string>)
    requires |p| == |q|
    ensures CompareParts(q, p) == Flip(CompareParts(p, q))
    decreases |p|
  {
    if |p| > 0 {
      CompareStringsFlip(p[0], q[0]);
      ComparePartsFlip(p[1..], q[1..]);
    }
  }

  /** The level order is a total order's comparison: it says `Equal` only
      on equal levels, and swapping the arguments flips the answer. */
  lemma CompareLevelsLaws(a: LevelOwned, b: LevelOwned)
    ensures CompareLevels(a, b) == Equal <==> a == b
    ensures CompareLevels(b, a) == Flip(CompareLevels(a, b))
  {
    if Rank(a) == Rank(b) {
      ComparePartsEqual(OwnedParts(a), OwnedParts(b));
      ComparePartsFlip(OwnedParts(a), OwnedParts(b));
      PartsDetermineOwned(a, b);
    }
  }

  /** Within a variant the show decides first: shows that differ order the
      levels as the shows order. */
  lemma CompareLevelsByShow(a: LevelOwned, b: LevelOwned)
    requires Rank(a) == Rank(b) && a.show != b.show
    ensures CompareLevels(a, b) == Less <==> LexLess(a.show, b.show)
  {
    CompareStringsEqual(a.show, b.show);
    CompareStringsLess(a.show, b.show);
  }

  /** Lexicographic order on equally long lists of parts, stated directly:
      the first differing part decides, by `LexLess`. */
  predicate ListLexLess(p: seq<string>, q: seq<string>)
    requires |p| == |q|
  {
    exists k :: 0 <= k < |p| && p[..k] == q[..k] && LexLess(p[k], q[k])
  }

  /** No string comes before itself. */
  lemma LexLessIrreflexive(a: string)
    ensures !LexLess(a, a)
  {
    CompareStringsEqual(a, a);
    CompareStringsLess(a, a);
  }

  /** `CompareParts` answers `Less` exactly on the list-lexicographic order. */
  lemma {:induction false} ComparePartsLess(p: seq<string>, q: seq<string>)
    requires |p| == |q|
    ensures CompareParts(p, q) == Less <==> ListLexLess(p, q)
    decreases |p|
  {
    if |p| > 0 {
      var c := CompareStrings(p[0], q[0]);
      CompareStringsEqual(p[0], q[0]);
      CompareStringsLess(p[0], q[0]);
      if c == Less {
        assert p[..0] == q[..0];
      } else if c == Greater {
        forall k | 0 < k < |p|
          ensures p[..k] != q[..k]
        {
          assert p[..k][0] == p[0] && q[..k][0] == q[0];
        }
      } else {
        ComparePartsLess(p[1..], q[1..]);
        ListLexLessTail(p, q);
      }
    }
  }

  /** Lists with the same first part compare as their tails do. */
  lemma ListLexLessTail(p: seq<string>, q: seq<string>)
    requires |p| == |q| && |p| > 0 && p[0] == q[0]
    ensures ListLexLess(p, q) <==> ListLexLess(p[1..], q[1..])
  {
    if ListLexLess(p, q) {
      var k :| 0 <= k < |p| && p[..k] == q[..k] && LexLess(p[k], q[k]);
      if k == 0 {
        LexLessIrreflexive(p[0]);
      }
      assert p[1..][..k - 1] == p[..k][1..] && q[1..][..k - 1] == q[..k][1..];
      assert p[1..][k - 1] == p[k] && q[1..][k - 1] == q[k];
    }
    if ListLexLess(p[1..], q[1..]) {
      var k :| 0 <= k < |p[1..]| && p[1..][..k] == q[1..][..k] && LexLess(p[1..][k], q[1..][k]);
      assert p[..k + 1] == [p[0]] + p[1..][..k] && q[..k + 1] == [q[0]] + q[1..][..k];
      assert p[k + 1] == p[1..][k] && q[k + 1] == q[1..][k];
    }
  }

  /** The string order is transitive. */
  lemma {:induction false} CompareStringsTransitive(a: string, b: string, c: string)
    requires CompareStrings(a, b) == Less && CompareStrings(b, c) == Less
    ensures CompareStrings(a, c) == Less
    decreases |a|
  {
    if a != [] && a[0] == b[0] && b[0] == c[0] {
      CompareStringsTransitive(a[1..], b[1..], c[1..]);
    }
  }

  /** Part lists compare transitively. */
  lemma {:induction false} ComparePartsTransitive(p: seq<string>, q: seq<string>, r: seq<string>)
    requires |p| == |q| == |r|
    requires CompareParts(p, q) == Less && CompareParts(q, r) == Less
    ensures CompareParts(p, r) == Less
    decreases |p|
  {
    var c1, c2 := CompareStrings(p[0], q[0]), CompareStrings(q[0], r[0]);
    CompareStringsEqual(p[0], q[0]);
    CompareStringsEqual(q[0], r[0]);
    if c1 == Less && c2 == Less {
      CompareStringsTransitive(p[0], q[0], r[0]);
    } else if c1 == Equal && c2 == Equal {
      ComparePartsTransitive(p[1..], q[1..], r[1..]);
    }
  }

  /** The level order is transitive, so sorting levels is well defined. */
  lemma CompareLevelsTransitive(a: LevelOwned, b: LevelOwned, c: LevelOwned)
    requires CompareLevels(a, b) == Less && CompareLevels(b, c) == Less
    ensures CompareLevels(a, c) == Less
  {
    if Rank(a) == Rank(b) == Rank(c) {
      ComparePartsTransitive(OwnedParts(a), OwnedParts(b), OwnedParts(c));
    }
  }

  /** Every show comes before every sequence, which comes before every shot. */
  lemma CompareLevelsExamples()
    ensures CompareLevels(LevelOwned.Show("zz"), LevelOwned.Sequence("aa", "aa")) == Less
    ensures CompareLevels(LevelOwned.Shot("aa", "aa", "aa"), LevelOwned.Sequence("zz", "zz")) == Greater
    ensures CompareLevels(LevelOwned.Sequence("dev01", "rd"), LevelOwned.Sequence("dev01", "ab")) == Greater
  {
  }
}
