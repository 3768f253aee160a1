/**
 * Python `str` operations used by the modelled code, with Python's semantics:
 * whitespace as `str.isspace()` (which is also what `\s` matches in a str
 * regular expression), `strip`, `find`, `split(sep)`, `sep.join(xs)`, `str(int)`,
 * the `.2f` format, and the regular-expression class `\w`.
 */
module PyStrings {
  import opened Wrappers

  /** `c.isspace()`: exactly the code points Python 3 treats as whitespace. */
  predicate IsSpace(c: char) {
    var n := c as int;
    (0x09 <= n <= 0x0D) || (0x1C <= n <= 0x20) || n == 0x85 || n == 0xA0 || n == 0x1680
    || (0x2000 <= n <= 0x200A) || n == 0x2028 || n == 0x2029 || n == 0x202F
    || n == 0x205F || n == 0x3000
  }

  predicate AllSpace(s: string) {
    forall i :: 0 <= i < |s| ==> IsSpace(s[i])
  }

  /**
   * `\w` in a str pattern (`c.isalnum() or c == '_'`), exact on the Latin
   * blocks U+0000..U+024F and the Cyrillic blocks U+0400..U+052F; every other
   * code point counts as a non-word character here.
   */
  predicate IsWordChar(c: char) {
    var n := c as int;
    ('0' <= c <= '9') || ('A' <= c <= 'Z') || ('a' <= c <= 'z') || c == '_'
    || n == 0xAA || n == 0xB2 || n == 0xB3 || n == 0xB5 || n == 0xB9 || n == 0xBA
    || (0xBC <= n <= 0xBE) || (0xC0 <= n <= 0xD6) || (0xD8 <= n <= 0xF6)
    || (0xF8 <= n <= 0x24F) || (0x400 <= n <= 0x481) || (0x48A <= n <= 0x52F)
  }

  lemma WordCharIsNotSpace(c: char)
    ensures IsWordChar(c) ==> !IsSpace(c)
  {
  }

  // ---------------------------------------------------------------- strip

  /** `s.lstrip()`: a suffix of `s` (what it drops is `LStripDrops`). */
  function LStrip(s: string): (r: string)
    ensures |r| <= |s| && r == s[|s| - |r|..]
  {
    if s != [] && IsSpace(s[0]) then LStrip(s[1..]) else s
  }

  /** `lstrip` drops the leading whitespace and nothing else. */
  lemma {:induction false} LStripDrops(s: string)
    ensures var r := LStrip(s);
      && (r != [] ==> !IsSpace(r[0]))
      && (forall i :: 0 <= i < |s| - |r| ==> IsSpace(s[i]))
  {
    if s != [] && IsSpace(s[0]) {
      LStripDrops(s[1..]);
      assert forall i :: 1 <= i < |s| ==> s[1..][i - 1] == s[i];
    }
  }

  /** `s.rstrip()`: a prefix of `s` (what it drops is `RStripDrops`). */
  function RStrip(s: string): (r: string)
    ensures |r| <= |s| && r == s[..|r|]
  {
    if s != [] && IsSpace(s[|s| - 1]) then RStrip(s[..|s| - 1]) else s
  }

  /** `rstrip` drops the trailing whitespace and nothing else. */
  lemma {:induction false} RStripDrops(s: string)
    ensures var r := RStrip(s);
      && (r != [] ==> !IsSpace(r[|r| - 1]))
      && (forall i :: |r| <= i < |s| ==> IsSpace(s[i]))
  {
    if s != [] && IsSpace(s[|s| - 1]) {
      RStripDrops(s[..|s| - 1]);
      assert forall i :: 0 <= i < |s| - 1 ==> s[..|s| - 1][i] == s[i];
    }
  }

  /** `s.strip()`. */
  function Strip(s: string): string {
    RStrip(LStrip(s))
  }

  /** A stripped string has no whitespace at either end and is a piece of its input. */
  lemma StripTrims(s: string)
    ensures Strip(s) != [] ==> !IsSpace(Strip(s)[0]) && !IsSpace(Strip(s)[|Strip(s)| - 1])
    ensures Contains(s, Strip(s))
    ensures Strip(s) == [] <==> AllSpace(s)
  {
    StripContained(s);
    StripEmpty(s);
    StripEnds(s);
  }

  lemma StripEnds(s: string)
    ensures Strip(s) != [] ==> !IsSpace(Strip(s)[0]) && !IsSpace(Strip(s)[|Strip(s)| - 1])
  {
    var l := LStrip(s);
    var r := RStrip(l);
    LStripDrops(s);
    RStripDrops(l);
    if r != [] {
      assert r[0] == l[0];
    }
  }

  lemma StripContained(s: string)
    ensures Contains(s, Strip(s))
  {
    StripSlice(s);
    assert OccursAt(s, Strip(s), |s| - |LStrip(s)|);
  }

  /** Strip takes the contiguous piece that starts after the leading whitespace. */
  lemma StripSlice(s: string)
    ensures var k := |s| - |LStrip(s)|;
            k + |Strip(s)| <= |s| && Strip(s) == s[k..k + |Strip(s)|]
  {
    var l := LStrip(s);
    var r := RStrip(l);
    var k := |s| - |l|;
    DropTake(s, k, |r|);
  }

  lemma DropTake(s: string, k: nat, n: nat)
    requires k + n <= |s|
    ensures s[k..][..n] == s[k..k + n]
  {
  }

  lemma StripEmpty(s: string)
    ensures Strip(s) == [] <==> AllSpace(s)
  {
    var l := LStrip(s);
    LStripDrops(s);
    if l != [] {
      RStripKeepsText(l);
    }
    if AllSpace(s) {
      LStripAllSpace(s);
    }
  }

  lemma RStripKeepsText(l: string)
    requires l != [] && !IsSpace(l[0])
    ensures RStrip(l) != []
  {
    RStripDrops(l);
  }

  lemma {:induction false} LStripAllSpace(s: string)
    requires AllSpace(s)
    ensures LStrip(s) == []
  {
    if s != [] {
      assert IsSpace(s[0]);
      LStripAllSpace(s[1..]);
    }
  }

  /** Whitespace padding around an already trimmed text is exactly what strip removes. */
  lemma {:induction false} StripPadded(p: string, g: string, q: string)
    requires AllSpace(p) && AllSpace(q)
    requires g == [] || (!IsSpace(g[0]) && !IsSpace(g[|g| - 1]))
    ensures Strip(p + g + q) == g
  {
    if g == [] {
      assert AllSpace(p + g + q) by {
        assert p + g + q == p + q;
      }
      StripTrims(p + g + q);
    } else {
      assert p + g + q == p + (g + q);
      LStripSpacePrefix(p, g + q);
      RStripSpaceSuffix(g, q);
    }
  }

  lemma {:induction false} LStripSpacePrefix(p: string, t: string)
    requires AllSpace(p)
    requires t == [] || !IsSpace(t[0])
    ensures LStrip(p + t) == t
  {
    if p != [] {
      assert (p + t)[1..] == p[1..] + t;
      LStripSpacePrefix(p[1..], t);
    }
  }

  lemma {:induction false} RStripSpaceSuffix(g: string, q: string)
    requires AllSpace(q)
    requires g == [] || !IsSpace(g[|g| - 1])
    ensures RStrip(g + q) == g
  {
    if q != [] {
      assert (g + q)[..|g + q| - 1] == g + q[..|q| - 1];
      RStripSpaceSuffix(g, q[..|q| - 1]);
    } else {
      assert g + q == g;
    }
  }

  // ---------------------------------------------------------- find, split, join

  /** `m` occurs in `s` starting at index `i`. */
  predicate OccursAt(s: string, m: string, i: int) {
    0 <= i && i + |m| <= |s| && s[i..i + |m|] == m
  }

  /** `m in s`. */
  predicate Contains(s: string, m: string) {
    exists i :: 0 <= i <= |s| - |m| && OccursAt(s, m, i)
  }

  /** The leftmost occurrence of `m` in `s` at or after `from`. */
  function FindFrom(s: string, m: string, from: nat): (r: Option<nat>)
    requires m != []
    decreases |s| - from
    ensures r.Some? ==> from <= r.value && OccursAt(s, m, r.value)
    ensures r.Some? ==> forall j :: from <= j < r.value ==> !OccursAt(s, m, j)
    ensures r.None? ==> forall j :: from <= j ==> !OccursAt(s, m, j)
  {
    if from + |m| > |s| then None
    else if s[from..from + |m|] == m then Some(from)
    else FindFrom(s, m, from + 1)
  }

  /** `s.find(m)`, with None for -1. */
  function Find(s: string, m: string): (r: Option<nat>)
    requires m != []
    ensures r.Some? ==> OccursAt(s, m, r.value)
    ensures r.Some? ==> forall j :: 0 <= j < r.value ==> !OccursAt(s, m, j)
    ensures r.None? <==> !Contains(s, m)
  {
    FindFrom(s, m, 0)
  }

  /** `s.split(sep)` for a non-empty separator: cut at each leftmost non-overlapping occurrence. */
  function Split(s: string, sep: string): (r: seq<string>)
    requires sep != []
    decreases |s|
    ensures |r| >= 1
  {
    match Find(s, sep)
    case None => [s]
    case Some(i) => [s[..i]] + Split(s[i + |sep|..], sep)
  }

  /** `sep.join(xs)`. */
  function Join(xs: seq<string>, sep: string): string
  {
    if |xs| == 0 then ""
    else if |xs| == 1 then xs[0]
    else xs[0] + sep + Join(xs[1..], sep)
  }

  /** `sep.join(s.split(sep)) == s`, for every string and every non-empty separator. */
  lemma {:induction false} JoinSplit(s: string, sep: string)
    requires sep != []
    ensures Join(Split(s, sep), sep) == s
    decreases |s|
  {
    match Find(s, sep)
    case None =>
    case Some(i) =>
      var rest := s[i + |sep|..];
      SplitAt(s, sep, i);
      JoinSplit(rest, sep);
      JoinCons(s[..i], Split(rest, sep), sep);
  }

  /** Where the first occurrence of the separator is, the string and its split come apart around it. */
  lemma SplitAt(s: string, sep: string, i: nat)
    requires sep != [] && Find(s, sep) == Some(i)
    ensures i + |sep| <= |s| && s == s[..i] + sep + s[i + |sep|..]
    ensures Split(s, sep) == [s[..i]] + Split(s[i + |sep|..], sep)
  {
    assert OccursAt(s, sep, i);
    ThreeWay(s, i, i + |sep|);
  }

  /** A string is its three slices around two cut points. */
  lemma ThreeWay<T>(s: seq<T>, i: nat, j: nat)
    requires i <= j <= |s|
    ensures s == s[..i] + s[i..j] + s[j..]
  {
  }

  /** Joining one more piece in front adds it and a separator. */
  lemma JoinCons(p: string, pieces: seq<string>, r: string)
    requires |pieces| >= 1
    ensures Join([p] + pieces, r) == p + r + Join(pieces, r)
  {
    assert ([p] + pieces)[1..] == pieces;
  }

  /** `s.split(sep)` has exactly one piece iff `sep` does not occur, and no piece contains `sep`. */
  lemma {:induction false} SplitPieces(s: string, sep: string)
    requires sep != []
    ensures |Split(s, sep)| == 1 <==> !Contains(s, sep)
    ensures forall k :: 0 <= k < |Split(s, sep)| ==> !Contains(Split(s, sep)[k], sep)
    decreases |s|
  {
    match Find(s, sep)
    case None =>
    case Some(i) =>
      var rest := s[i + |sep|..];
      SplitPieces(rest, sep);
      BeforeFirstOccurrence(s, sep, i);
      var r := Split(s, sep);
      assert r == [s[..i]] + Split(rest, sep);
      forall k | 0 <= k < |r| ensures !Contains(r[k], sep) {
        if k > 0 {
          assert r[k] == Split(rest, sep)[k - 1];
        }
      }
  }

  /** No occurrence of `m` in `s` when some character of `m` is absent from `s`. */
  lemma MissingCharNotContained(s: string, m: string, k: nat)
    requires k < |m|
    ensures m[k] !in s ==> !Contains(s, m)
  {
    if Contains(s, m) {
      var i :| 0 <= i <= |s| - |m| && OccursAt(s, m, i);
      assert m[k] == s[i + k];
    }
  }

  /** An occurrence in `x + [c] + y` lies in `x`, lies in `y`, or covers `c`. */
  lemma OccurrenceAroundChar(x: string, c: char, y: string, m: string, i: int)
    requires OccursAt(x + [c] + y, m, i)
    ensures OccursAt(x, m, i) || OccursAt(y, m, i - |x| - 1) || c in m
  {
    var s := x + [c] + y;
    if i + |m| <= |x| {
      assert s[i..i + |m|] == x[i..i + |m|];
    } else if i > |x| {
      assert s[i..i + |m|] == y[i - |x| - 1..i - |x| - 1 + |m|];
    } else {
      assert m[|x| - i] == s[|x|];
    }
  }

  /** A character that `m` does not contain cuts `x + [c] + y` into parts that `m` cannot straddle. */
  lemma ContainsAcrossChar(x: string, c: char, y: string, m: string)
    requires c !in m
    ensures Contains(x + [c] + y, m) ==> Contains(x, m) || Contains(y, m)
  {
    var s := x + [c] + y;
    if Contains(s, m) {
      var i :| 0 <= i <= |s| - |m| && OccursAt(s, m, i);
      OccurrenceAroundChar(x, c, y, m, i);
    }
  }

  /** An occurrence in `x + y` that starts inside `x` lies in `x` or covers the last character of `x`. */
  lemma OccurrenceInPrefix(x: string, y: string, m: string, j: int)
    requires 0 <= j < |x|
    ensures OccursAt(x + y, m, j) ==> OccursAt(x, m, j) || x[|x| - 1] in m
  {
    var s := x + y;
    if OccursAt(s, m, j) {
      if j + |m| <= |x| {
        assert s[j..j + |m|] == x[j..j + |m|];
      } else {
        assert m[|x| - 1 - j] == s[|x| - 1];
      }
    }
  }

  /** Occurrences in `x + y` that start after `x` are the occurrences in `y`, shifted. */
  lemma OccurrenceInSuffix(x: string, y: string, m: string, j: int)
    requires |x| <= j
    ensures OccursAt(x + y, m, j) <==> OccursAt(y, m, j - |x|)
  {
    var s := x + y;
    if j + |m| <= |s| {
      assert s[j..j + |m|] == y[j - |x|..j - |x| + |m|];
    }
  }

  /**
   * When `x` holds no occurrence of `m` and ends in a character `m` does not
   * contain, the first occurrence in `x + y` is the first occurrence in `y`, shifted.
   */
  lemma FindPastPrefix(x: string, y: string, m: string)
    requires m != [] && !Contains(x, m)
    requires x == [] || x[|x| - 1] !in m
    ensures Find(x + y, m) == (match Find(y, m) case None => None case Some(j) => Some(|x| + j))
  {
    var s := x + y;
    forall j | 0 <= j < |x| ensures !OccursAt(s, m, j) {
      OccurrenceInPrefix(x, y, m, j);
    }
    forall j | |x| <= j ensures OccursAt(s, m, j) <==> OccursAt(y, m, j - |x|) {
      OccurrenceInSuffix(x, y, m, j);
    }
    match Find(y, m)
    case None =>
      assert !Contains(s, m);
    case Some(j) =>
      forall l | 0 <= l < |x| + j ensures !OccursAt(s, m, l) {
        if l >= |x| {
          assert !OccursAt(y, m, l - |x|);
        }
      }
      FindLeast(s, m, |x| + j);
  }

  /** The leftmost occurrence is the one `find` reports. */
  lemma FindLeast(s: string, m: string, k: nat)
    requires m != [] && OccursAt(s, m, k)
    requires forall l :: 0 <= l < k ==> !OccursAt(s, m, l)
    ensures Find(s, m) == Some(k)
  {
    assert Contains(s, m);
  }

  /** The text before the first occurrence holds no occurrence. */
  lemma BeforeFirstOccurrence(s: string, m: string, i: nat)
    requires m != [] && Find(s, m) == Some(i)
    ensures !Contains(s[..i], m)
  {
    assert OccursAt(s, m, i);
    forall j | 0 <= j <= i - |m| ensures !OccursAt(s[..i], m, j) {
      assert j < i && !OccursAt(s, m, j);
      assert s[..i][j..j + |m|] == s[j..j + |m|];
    }
  }

  /** Text that does not contain the separator splits into exactly itself. */
  lemma SplitAbsent(s: string, sep: string)
    requires sep != [] && !Contains(s, sep)
    ensures Split(s, sep) == [s]
  {
  }

  /** Splitting `x + sep + y`, when `x` is free of `sep` and ends outside it, cuts first at `|x|`. */
  lemma SplitAfterFreePrefix(x: string, sep: string, y: string)
    requires sep != [] && !Contains(x, sep)
    requires x == [] || x[|x| - 1] !in sep
    ensures Split(x + sep + y, sep) == [x] + Split(y, sep)
  {
    assert x + sep + y == x + (sep + y);
    FindPastPrefix(x, sep + y, sep);
    assert OccursAt(sep + y, sep, 0) by {
      assert (sep + y)[0..|sep|] == sep;
    }
    assert Find(x + sep + y, sep) == Some(|x|);
    var s := x + sep + y;
    assert s[..|x|] == x;
    assert s[|x| + |sep|..] == y;
  }

  /** A piece that neither contains `sep` nor ends in one of its characters. */
  predicate CleanPiece(x: string, sep: string) {
    !Contains(x, sep) && (x == [] || x[|x| - 1] !in sep)
  }

  /** Splitting a join gives the pieces back when no piece contains the separator or ends in one of its characters. */
  lemma {:induction false} SplitJoin(xs: seq<string>, sep: string)
    requires sep != [] && |xs| >= 1
    requires forall k :: 0 <= k < |xs| ==> CleanPiece(xs[k], sep)
    ensures Split(Join(xs, sep), sep) == xs
  {
    if |xs| == 1 {
      SplitAbsent(xs[0], sep);
    } else {
      SplitJoin(xs[1..], sep);
      SplitAfterFreePrefix(xs[0], sep, Join(xs[1..], sep));
      assert xs == [xs[0]] + xs[1..];
    }
  }

  /** The text before the first occurrence of `m`, or all of `s` when there is none. */
  function Before(s: string, m: string): (r: string)
    requires m != []
    ensures |r| <= |s| && r == s[..|r|]
    ensures !Contains(r, m)
  {
    match Find(s, m)
    case None => s
    case Some(i) =>
      BeforeFirstOccurrence(s, m, i);
      s[..i]
  }

  /** The text after the first occurrence of `m`, or None when there is none. */
  function After(s: string, m: string): (r: Option<string>)
    requires m != []
    ensures r.Some? <==> Contains(s, m)
    ensures r.Some? ==> |r.value| <= |s| - |m| && r.value == s[|s| - |r.value|..]
  {
    match Find(s, m)
    case None => None
    case Some(i) => Some(s[i + |m|..])
  }

  /** `s.split(sep)[0]` is the text before the first separator. */
  lemma SplitHead(s: string, sep: string)
    requires sep != []
    ensures Split(s, sep)[0] == Before(s, sep)
  {
    match Find(s, sep)
    case None =>
    case Some(i) =>
      assert Split(s, sep) == [s[..i]] + Split(s[i + |sep|..], sep);
  }

  /**
   * A second piece of `s.split(sep)` exists iff the separator occurs, and it
   * is the text between the first occurrence and the next one (or the end).
   */
  lemma SplitSecond(s: string, sep: string)
    requires sep != []
    ensures |Split(s, sep)| >= 2 <==> Contains(s, sep)
    ensures |Split(s, sep)| >= 2 ==> Split(s, sep)[1] == Before(After(s, sep).value, sep)
  {
    match Find(s, sep)
    case None =>
    case Some(i) =>
      var rest := s[i + |sep|..];
      assert Split(s, sep) == [s[..i]] + Split(rest, sep);
      assert After(s, sep) == Some(rest);
      SplitHead(rest, sep);
  }

  /** `m` is in `s` when it is in a substring of `s`. */
  lemma ContainsTrans(s: string, t: string, m: string)
    requires Contains(s, t) && Contains(t, m)
    ensures Contains(s, m)
  {
    var i :| 0 <= i <= |s| - |t| && OccursAt(s, t, i);
    var j :| 0 <= j <= |t| - |m| && OccursAt(t, m, j);
    forall k | 0 <= k < |m| ensures s[i + j + k] == m[k] {
      assert t[j..j + |m|][k] == m[k];
      assert s[i..i + |t|][j + k] == t[j + k];
    }
    assert s[i + j..i + j + |m|] == m;
    assert OccursAt(s, m, i + j);
  }

  /** A prefix and a suffix of `s` are substrings of `s`. */
  lemma PrefixSuffixContained(s: string, k: nat)
    requires k <= |s|
    ensures Contains(s, s[..k]) && Contains(s, s[k..])
  {
    assert OccursAt(s, s[..k], 0);
    assert OccursAt(s, s[k..], k);
  }

  /** A join grows by one separator and one piece when a piece is appended. */
  lemma {:induction false} JoinSnoc(xs: seq<string>, x: string, sep: string)
    requires |xs| >= 1
    ensures Join(xs + [x], sep) == Join(xs, sep) + sep + x
  {
    if |xs| == 1 {
      assert xs + [x] == [xs[0], x];
    } else {
      assert (xs + [x])[1..] == xs[1..] + [x];
      JoinSnoc(xs[1..], x, sep);
    }
  }

  /** The length of a join: every piece plus one separator between each neighbouring pair. */
  lemma {:induction false} JoinLength(xs: seq<string>, sep: string)
    requires |xs| >= 1
    ensures |Join(xs, sep)| == TotalLength(xs) + (|xs| - 1) * |sep|
  {
    if |xs| > 1 {
      JoinLength(xs[1..], sep);
    }
  }

  function TotalLength(xs: seq<string>): nat {
    if xs == [] then 0 else |xs[0]| + TotalLength(xs[1..])
  }

  // ------------------------------------------------------------ numbers

  function DigitChar(d: nat): (c: char)
    requires d < 10
    ensures '0' <= c <= '9' && c as int - '0' as int == d
  {
    ('0' as int + d) as char
  }

  /** `str(n)` for a non-negative int: decimal digits without leading zeros. */
  function NatToString(n: nat): (r: string)
    decreases n
  {
    if n < 10 then [DigitChar(n)] else NatToString(n / 10) + [DigitChar(n % 10)]
  }

  /** The value of a string of decimal digits. */
  function DecimalValue(s: string): int
  {
    if s == [] then 0 else DecimalValue(s[..|s| - 1]) * 10 + (s[|s| - 1] as int - '0' as int)
  }

  /** `str(n)` is a non-empty run of digits, without a leading zero, whose value is `n`. */
  lemma {:induction false} NatToStringSound(n: nat)
    ensures var r := NatToString(n);
      && r != []
      && (forall i :: 0 <= i < |r| ==> '0' <= r[i] <= '9')
      && (r[0] == '0' ==> n == 0)
      && DecimalValue(r) == n
    decreases n
  {
    if n >= 10 {
      NatToStringSound(n / 10);
      var r := NatToString(n);
      assert r[..|r| - 1] == NatToString(n / 10);
    }
  }

  /** `str(i)` for any int. */
  function IntToString(i: int): string {
    if i < 0 then "-" + NatToString(-i) else NatToString(i)
  }

  /** `f"{x:.2f}"` for the number with `h` hundredths. */
  function Fixed2(h: int): string {
    var a := if h < 0 then -h else h;
    (if h < 0 then "-" else "") + NatToString(a / 100) + "." + [DigitChar(a % 100 / 10), DigitChar(a % 10)]
  }

  // ------------------------------------------------------------ case

  function LowerChar(c: char): char {
    if 'A' <= c <= 'Z' then (c as int + 32) as char else c
  }

  function UpperChar(c: char): char {
    if 'a' <= c <= 'z' then (c as int - 32) as char else c
  }

  /** `s.lower()` on the ASCII letters; other characters are kept. */
  function Lower(s: string): (r: string)
    ensures |r| == |s|
  {
    if s == [] then [] else [LowerChar(s[0])] + Lower(s[1..])
  }

  /** `s.upper()` on the ASCII letters; other characters are kept. */
  function Upper(s: string): (r: string)
    ensures |r| == |s|
  {
    if s == [] then [] else [UpperChar(s[0])] + Upper(s[1..])
  }

  /** Lower-casing forgets a prior upper-casing. */
  lemma {:induction false} LowerUpper(s: string)
    ensures Lower(Upper(s)) == Lower(s)
  {
    if s != [] {
      LowerUpper(s[1..]);
    }
  }
}
