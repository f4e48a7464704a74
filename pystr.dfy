/**
 * The few Python `str` operations the scoring engine and the job record rely on:
 * `strip()`, `lower()`, `sep.join(parts)`, the `in` substring test, `endswith`,
 * `str(int)` and the `{n:,}` thousands-separated integer format.
 */
module PyStr {

  /** Python's `str.isspace()` for one character (the characters `strip()` removes). */
  predicate IsSpace(c: char) {
    || c == ' '
    || ('\t' <= c <= '\r')
    || ('\U{1C}' <= c <= '\U{1F}')
    || c == '\U{85}' || c == '\U{A0}' || c == '\U{1680}'
    || ('\U{2000}' <= c <= '\U{200A}')
    || c == '\U{2028}' || c == '\U{2029}' || c == '\U{202F}' || c == '\U{205F}' || c == '\U{3000}'
  }

  predicate AllSpace(s: string) {
    forall i :: 0 <= i < |s| ==> IsSpace(s[i])
  }

  /** `str.lower()` on one character; only the ASCII letters are mapped. */
  function LowerChar(c: char): char {
    if 'A' <= c <= 'Z' then (c as int + 32) as char else c
  }

  /** `s.lower()`, character by character. */
  function Lower(s: string): (r: string)
    ensures |r| == |s|
  {
    seq(|s|, i requires 0 <= i < |s| => LowerChar(s[i]))
  }

  /** Lower-casing keeps whether the first and the last character are whitespace. */
  lemma LowerEndsKeepSpaces(s: string)
    ensures s != [] ==> IsSpace(Lower(s)[0]) == IsSpace(s[0])
    ensures s != [] ==> IsSpace(Lower(s)[|s| - 1]) == IsSpace(s[|s| - 1])
  {
    if s != [] {
      LowerKeepsSpaces(s[0]);
      LowerKeepsSpaces(s[|s| - 1]);
    }
  }

  /**
   * After `lower()` no ASCII capital is left: each one becomes its own small
   * letter, and every other character is kept where it was.
   */
  lemma LowerLeavesNoCapitals(s: string)
    ensures forall i :: 0 <= i < |s| ==> !('A' <= Lower(s)[i] <= 'Z')
    ensures forall i :: 0 <= i < |s| && 'A' <= s[i] <= 'Z' ==> Lower(s)[i] == (s[i] as int + 32) as char
    ensures forall i :: 0 <= i < |s| && !('A' <= s[i] <= 'Z') ==> Lower(s)[i] == s[i]
  {
    forall i | 0 <= i < |s| ensures !('A' <= Lower(s)[i] <= 'Z') {
      assert Lower(s)[i] == LowerChar(s[i]);
    }
  }

  /** Lower-casing is idempotent and never turns a non-space into a space or back. */
  lemma LowerIdempotent(s: string)
    ensures Lower(Lower(s)) == Lower(s)
  {
  }

  lemma LowerKeepsSpaces(c: char)
    ensures IsSpace(LowerChar(c)) == IsSpace(c)
  {
  }

  /** Number of whitespace characters at the front of `s`. */
  function LeadingSpaces(s: string): (n: nat)
    ensures n <= |s| && AllSpace(s[..n])
    ensures n == |s| || !IsSpace(s[n])
  {
    if |s| > 0 && IsSpace(s[0]) then
      var k := LeadingSpaces(s[1..]);
      AllSpaceGrowsFront(s, k);
      k + 1
    else
      0
  }

  lemma AllSpaceGrowsFront(s: string, k: nat)
    requires 0 < |s| && IsSpace(s[0]) && k < |s| && AllSpace(s[1..][..k])
    ensures AllSpace(s[..k + 1])
  {
    var p, q := s[..k + 1], s[1..][..k];
    forall m | 0 <= m < |p| ensures IsSpace(p[m]) {
      if 0 < m {
        assert p[m] == q[m - 1];
      }
    }
  }

  lemma AllSpaceGrowsBack(s: string, k: nat)
    requires 0 < |s| && IsSpace(s[|s| - 1]) && k < |s| && AllSpace(s[..|s| - 1][|s| - 1 - k..])
    ensures AllSpace(s[|s| - (k + 1)..])
  {
    var p, q := s[|s| - (k + 1)..], s[..|s| - 1][|s| - 1 - k..];
    forall m | 0 <= m < |p| ensures IsSpace(p[m]) {
      if m < k {
        assert p[m] == q[m];
      }
    }
  }

  /** Number of whitespace characters at the back of `s`. */
  function TrailingSpaces(s: string): (n: nat)
    ensures n <= |s| && AllSpace(s[|s| - n..])
    ensures n == |s| || !IsSpace(s[|s| - n - 1])
  {
    if |s| > 0 && IsSpace(s[|s| - 1]) then
      var k := TrailingSpaces(s[..|s| - 1]);
      AllSpaceGrowsBack(s, k);
      k + 1
    else
      0
  }

  /**
   * `s.strip()`: `s` without its leading and trailing whitespace. The result
   * neither starts nor ends with whitespace; `StripIsCore` shows that it is a
   * contiguous piece of `s` and that everything cut off is whitespace.
   */
  function Strip(s: string): (r: string)
    ensures |r| <= |s|
    ensures r == [] || (!IsSpace(r[0]) && !IsSpace(r[|r| - 1]))
  {
    var i := LeadingSpaces(s);
    var t := s[i..];
    var j := TrailingSpaces(t);
    t[..|t| - j]
  }

  /** `Strip(s)` sits in `s` at the offset `i`, between an all-whitespace prefix and suffix. */
  lemma StripIsCore(s: string) returns (i: nat)
    ensures i + |Strip(s)| <= |s| && s[i..i + |Strip(s)|] == Strip(s)
    ensures AllSpace(s[..i]) && AllSpace(s[i + |Strip(s)|..])
  {
    i := LeadingSpaces(s);
    var t := s[i..];
    var j := TrailingSpaces(t);
    assert Strip(s) == t[..|t| - j];
    DropThenSplit(s, i, |t| - j);
    assert AllSpace(s[i + |Strip(s)|..]) by {
      assert s[i + |Strip(s)|..] == t[|t| - j..];
    }
  }

  lemma DropThenSplit(s: string, i: nat, k: nat)
    requires i + k <= |s|
    ensures s[i..][..k] == s[i..i + k] && s[i..][k..] == s[i + k..]
  {
  }

  /** A string that neither starts nor ends with whitespace is its own `strip()`. */
  lemma StripFixed(u: string)
    requires u == [] || (!IsSpace(u[0]) && !IsSpace(u[|u| - 1]))
    ensures Strip(u) == u
  {
  }

  lemma StripIdempotent(s: string)
    ensures Strip(Strip(s)) == Strip(s)
  {
    StripFixed(Strip(s));
  }

  lemma {:induction false} LeadingSpacesOfLower(s: string)
    ensures LeadingSpaces(Lower(s)) == LeadingSpaces(s)
  {
    if |s| > 0 {
      LowerKeepsSpaces(s[0]);
      LowerDrop(s, 1);
      LeadingSpacesOfLower(s[1..]);
    }
  }

  lemma TrailingSpacesStep(s: string)
    requires |s| > 0
    ensures TrailingSpaces(s) == if IsSpace(s[|s| - 1]) then TrailingSpaces(s[..|s| - 1]) + 1 else 0
  {
  }

  lemma {:induction false} TrailingSpacesOfLower(s: string)
    ensures TrailingSpaces(Lower(s)) == TrailingSpaces(s)
  {
    if |s| > 0 {
      LowerKeepsSpaces(s[|s| - 1]);
      LowerTake(s, |s| - 1);
      TrailingSpacesOfLower(s[..|s| - 1]);
      TrailingSpacesStep(s);
      TrailingSpacesStep(Lower(s));
    }
  }

  /** Stripping and lower-casing commute: the order `strip().lower()` is immaterial. */
  lemma StripLowerCommute(s: string)
    ensures Strip(Lower(s)) == Lower(Strip(s))
  {
    LeadingSpacesOfLower(s);
    LowerDrop(s, LeadingSpaces(s));
    TrailingSpacesOfLower(s[LeadingSpaces(s)..]);
    LowerTake(s[LeadingSpaces(s)..], |s[LeadingSpaces(s)..]| - TrailingSpaces(s[LeadingSpaces(s)..]));
  }

  lemma LowerDrop(s: string, i: nat)
    requires i <= |s|
    ensures Lower(s)[i..] == Lower(s[i..])
  {
  }

  lemma LowerTake(s: string, i: nat)
    requires i <= |s|
    ensures Lower(s)[..i] == Lower(s[..i])
  {
  }

  lemma {:induction false} LeadingSpacesAfterPadding(x: string, t: string)
    requires AllSpace(x)
    ensures LeadingSpaces(x + t) == |x| + LeadingSpaces(t)
  {
    if x != [] {
      assert (x + t)[0] == x[0];
      assert (x + t)[1..] == x[1..] + t;
      LeadingSpacesAfterPadding(x[1..], t);
    } else {
      assert x + t == t;
    }
  }

  lemma {:induction false} TrailingSpacesBeforePadding(t: string, y: string)
    requires AllSpace(y)
    ensures TrailingSpaces(t + y) == |y| + TrailingSpaces(t)
  {
    if y != [] {
      assert (t + y)[|t + y| - 1] == y[|y| - 1];
      assert (t + y)[..|t + y| - 1] == t + y[..|y| - 1];
      TrailingSpacesBeforePadding(t, y[..|y| - 1]);
    } else {
      assert t + y == t;
    }
  }

  lemma AllSpaceConcat(a: string, b: string)
    requires AllSpace(a) && AllSpace(b)
    ensures AllSpace(a + b)
  {
    forall k | 0 <= k < |a + b|
      ensures IsSpace((a + b)[k])
    {
      if k < |a| {
        assert (a + b)[k] == a[k];
      } else {
        assert (a + b)[k] == b[k - |a|];
      }
    }
  }

  /** Whitespace around a stripped string is exactly what `strip()` removes. */
  lemma StripPadded(x: string, r: string, y: string)
    requires AllSpace(x) && AllSpace(y)
    requires r == [] || (!IsSpace(r[0]) && !IsSpace(r[|r| - 1]))
    ensures Strip(x + r + y) == r
  {
    var s := x + r + y;
    if r == [] {
      assert s == x + y;
      assert AllSpace(s);
      assert LeadingSpaces(s) == |s|;
    } else {
      assert s == x + (r + y);
      LeadingSpacesAfterPadding(x, r + y);
      assert (r + y)[0] == r[0];
      assert LeadingSpaces(r + y) == 0;
      assert s[|x|..] == r + y;
      TrailingSpacesBeforePadding(r, y);
      assert TrailingSpaces(r) == 0;
      assert (r + y)[..|r|] == r;
    }
  }

  lemma Regroup(x: string, p: string, r: string, q: string, y: string)
    ensures x + (p + r + q) + y == (x + p) + r + (q + y)
  {
  }

  /** Stripping whitespace-padded parts, regrouped, gives the non-space core. */
  lemma StripRegrouped(x: string, pre: string, r: string, post: string, y: string)
    requires AllSpace(x) && AllSpace(pre) && AllSpace(post) && AllSpace(y)
    requires r == [] || (!IsSpace(r[0]) && !IsSpace(r[|r| - 1]))
    ensures Strip(x + (pre + r + post) + y) == r
  {
    Regroup(x, pre, r, post, y);
    AllSpaceConcat(x, pre);
    AllSpaceConcat(post, y);
    StripPadded(x + pre, r, post + y);
  }

  /** `a` split around a non-space core `r` at `i`: padding `a` further strips to `r`. */
  lemma StripAroundCore(x: string, a: string, y: string, i: nat, r: string)
    requires AllSpace(x) && AllSpace(y)
    requires i + |r| <= |a| && a[i..i + |r|] == r
    requires AllSpace(a[..i]) && AllSpace(a[i + |r|..])
    requires r == [] || (!IsSpace(r[0]) && !IsSpace(r[|r| - 1]))
    ensures Strip(x + a + y) == r
  {
    assert a == a[..i] + r + a[i + |r|..];
    StripRegrouped(x, a[..i], r, a[i + |r|..], y);
  }

  /** Surrounding whitespace never changes the result of `strip()`. */
  lemma StripIgnoresPadding(x: string, a: string, y: string)
    requires AllSpace(x) && AllSpace(y)
    ensures Strip(x + a + y) == Strip(a)
  {
    var i := StripIsCore(a);
    StripAroundCore(x, a, y, i, Strip(a));
  }

  /** Python's `needle in hay` for two strings: `needle` occurs contiguously in `hay`. */
  predicate IsInfix(needle: string, hay: string)
    ensures IsInfix(needle, hay) ==> |needle| <= |hay|
    ensures needle == [] || needle == hay ==> IsInfix(needle, hay)
  {
    assert needle == [] || needle == hay ==> OccursAt(needle, hay, 0);
    exists i | 0 <= i <= |hay| - |needle| :: OccursAt(needle, hay, i)
  }

  predicate OccursAt(needle: string, hay: string, i: nat) {
    i + |needle| <= |hay| && hay[i..i + |needle|] == needle
  }

  lemma InfixTransitive(a: string, b: string, c: string)
    requires IsInfix(a, b) && IsInfix(b, c)
    ensures IsInfix(a, c)
  {
    var i :| 0 <= i <= |b| - |a| && OccursAt(a, b, i);
    var j :| 0 <= j <= |c| - |b| && OccursAt(b, c, j);
    forall k | 0 <= k < |a|
      ensures c[j + i + k] == a[k]
    {
      assert c[j + i + k] == c[j..j + |b|][i + k] == b[i..i + |a|][k];
    }
    assert OccursAt(a, c, j + i);
  }

  /** `sep.join(parts)`. */
  function Join(sep: string, parts: seq<string>): string {
    if |parts| == 0 then ""
    else if |parts| == 1 then parts[0]
    else parts[0] + sep + Join(sep, parts[1..])
  }

  /** A join of one or more parts starts with the first part. */
  lemma JoinStartsWithFirst(sep: string, parts: seq<string>)
    requires |parts| > 0
    ensures |parts[0]| <= |Join(sep, parts)| && Join(sep, parts)[..|parts[0]|] == parts[0]
  {
    if |parts| > 1 {
      assert Join(sep, parts) == parts[0] + (sep + Join(sep, parts[1..]));
    }
  }

  /** A join of one or more parts ends with the last part. */
  lemma {:induction false} JoinEndsWithLast(sep: string, parts: seq<string>)
    requires |parts| > 0
    ensures EndsWith(Join(sep, parts), parts[|parts| - 1])
  {
    if |parts| > 1 {
      JoinEndsWithLast(sep, parts[1..]);
      var rest := Join(sep, parts[1..]);
      var whole := Join(sep, parts);
      var last := parts[|parts| - 1];
      assert parts[1..][|parts| - 2] == last;
      assert whole == (parts[0] + sep) + rest;
      assert whole[|whole| - |last|..] == rest[|rest| - |last|..];
    }
  }

  /** Every part of a join occurs in the joined string. */
  lemma {:induction false} JoinContainsPart(sep: string, parts: seq<string>, k: nat)
    requires k < |parts|
    ensures IsInfix(parts[k], Join(sep, parts))
  {
    var whole := Join(sep, parts);
    if k == 0 {
      assert whole[0..|parts[0]|] == parts[0];
      assert OccursAt(parts[0], whole, 0);
    } else {
      JoinContainsPart(sep, parts[1..], k - 1);
      var rest := Join(sep, parts[1..]);
      var off := |parts[0]| + |sep|;
      assert whole == parts[0] + sep + rest;
      assert whole[off..off + |rest|] == rest;
      assert OccursAt(rest, whole, off);
      InfixTransitive(parts[k], rest, whole);
    }
  }

  /** `s.endswith(suffix)`. */
  predicate EndsWith(s: string, suffix: string) {
    |suffix| <= |s| && s[|s| - |suffix|..] == suffix
  }

  /**
   * `s` ends with `suffix` exactly when it is some prefix followed by `suffix`;
   * in particular any text with `suffix` appended ends with it.
   */
  lemma EndsWithSplits(s: string, prefix: string, suffix: string)
    ensures EndsWith(s, suffix) <==> |suffix| <= |s| && s == s[..|s| - |suffix|] + suffix
    ensures EndsWith(prefix + suffix, suffix)
  {
    if |suffix| <= |s| {
      assert s == s[..|s| - |suffix|] + s[|s| - |suffix|..];
    }
    assert (prefix + suffix)[|prefix|..] == suffix;
  }

  // ---------------------------------------------------------------------------
  // Integer formatting: `str(n)` and `format(n, ",")`.

  predicate IsDigit(c: char) {
    '0' <= c <= '9'
  }

  function DigitChar(d: nat): (c: char)
    requires d < 10
    ensures IsDigit(c)
  {
    ('0' as int + d) as char
  }

  /** The decimal digits of `n`, most significant first, without leading zeros. */
  function Digits(n: nat): (r: string)
    ensures |r| >= 1 && forall i :: 0 <= i < |r| ==> IsDigit(r[i])
    ensures r[0] == '0' <==> n == 0
  {
    if n < 10 then [DigitChar(n)] else Digits(n / 10) + [DigitChar(n % 10)]
  }

  /** The number a string of decimal digits denotes. */
  function DigitsValue(s: string): int {
    if s == [] then 0 else DigitsValue(s[..|s| - 1]) * 10 + (s[|s| - 1] as int - '0' as int)
  }

  /** Reading back the digits of `n` gives `n`. */
  lemma {:induction false} DigitsRoundTrip(n: nat)
    ensures DigitsValue(Digits(n)) == n
  {
    if n >= 10 {
      DigitsRoundTrip(n / 10);
      var d := Digits(n);
      assert d[..|d| - 1] == Digits(n / 10);
    }
  }

  /**
   * Python's `str(n)` for an integer: a "-" for a negative number, then decimal
   * digits, without leading zeros, that read back as its magnitude.
   */
  function IntToString(n: int): (r: string)
    ensures n >= 0 ==> |r| >= 1 && (forall i :: 0 <= i < |r| ==> IsDigit(r[i])) && DigitsValue(r) == n
    ensures n >= 0 ==> r[0] != '0' || |r| == 1
    ensures n < 0 ==> |r| >= 2 && r[0] == '-' && (forall i :: 1 <= i < |r| ==> IsDigit(r[i])) && DigitsValue(r[1..]) == -n
    ensures n < 0 ==> r[1] != '0'
  {
    if n < 0 then
      DigitsRoundTrip(-n);
      assert ("-" + Digits(-n))[1..] == Digits(-n);
      "-" + Digits(-n)
    else
      DigitsRoundTrip(n);
      Digits(n)
  }

  /** Three digits of `m < 1000`, zero-padded. */
  function Pad3(m: nat): (r: string)
    requires m < 1000
    ensures |r| == 3
  {
    [DigitChar(m / 100), DigitChar(m / 10 % 10), DigitChar(m % 10)]
  }

  /** The digits of `n` with a comma before every group of three, counted from the right. */
  function Grouped(n: nat): string {
    if n < 1000 then Digits(n) else Grouped(n / 1000) + "," + Pad3(n % 1000)
  }

  /**
   * The commas of `g` stand exactly where a group of three digits starts,
   * counted from the right: never first, and every fourth place from the end;
   * the leading group, before the first comma, holds one to three characters.
   */
  predicate CommasEveryThree(g: string) {
    && |g| % 4 != 0
    && forall i :: 0 <= i < |g| ==> (g[i] == ',' <==> 0 < i && (|g| - i) % 4 == 0)
  }

  /** A number below 1000 has at most three digits. */
  lemma DigitsOfSmall(n: nat)
    requires n < 1000
    ensures |Digits(n)| <= 3
  {
    if n >= 10 {
      assert |Digits(n)| == |Digits(n / 10)| + 1;
      if n / 10 >= 10 {
        assert |Digits(n / 10)| == |Digits(n / 10 / 10)| + 1;
        assert n / 10 / 10 < 10;
      }
    }
  }

  lemma {:induction false} GroupedCommas(n: nat)
    ensures CommasEveryThree(Grouped(n))
  {
    var g := Grouped(n);
    if n < 1000 {
      DigitsOfSmall(n);
      forall i | 0 <= i < |g| ensures g[i] != ',' && (|g| - i) % 4 != 0 {
        assert IsDigit(g[i]);
      }
    } else {
      GroupedCommas(n / 1000);
      var front, tail := Grouped(n / 1000), Pad3(n % 1000);
      assert g == front + "," + tail;
      forall i | 0 <= i < |g| ensures (g[i] == ',' <==> 0 < i && (|g| - i) % 4 == 0) {
        if i < |front| {
          assert g[i] == front[i];
          assert (|g| - i) % 4 == (|front| - i) % 4;
        } else if i > |front| {
          assert g[i] == tail[i - |front| - 1];
        }
      }
    }
  }

  /**
   * Python's `format(n, ",")` (the `{n:,}` f-string format) for an integer:
   * the decimal digits of the magnitude with a comma before each group of
   * three counted from the right, after a "-" for a negative number.
   */
  function WithThousands(n: int): (r: string)
    ensures n >= 0 ==> RemoveCommas(r) == Digits(n) && CommasEveryThree(r)
    ensures n < 0 ==> |r| > 0 && r[0] == '-' && RemoveCommas(r[1..]) == Digits(-n) && CommasEveryThree(r[1..])
  {
    if n < 0 then
      GroupedIsDigitsWithCommas(-n);
      GroupedCommas(-n);
      assert ("-" + Grouped(-n))[1..] == Grouped(-n);
      "-" + Grouped(-n)
    else
      GroupedIsDigitsWithCommas(n);
      GroupedCommas(n);
      Grouped(n)
  }

  function RemoveCommas(s: string): string {
    if s == [] then [] else (if s[0] == ',' then [] else [s[0]]) + RemoveCommas(s[1..])
  }

  lemma {:induction false} RemoveCommasConcat(a: string, b: string)
    ensures RemoveCommas(a + b) == RemoveCommas(a) + RemoveCommas(b)
  {
    if a != [] {
      var head := if a[0] == ',' then [] else [a[0]];
      assert (a + b)[0] == a[0];
      assert (a + b)[1..] == a[1..] + b;
      RemoveCommasConcat(a[1..], b);
      calc {
        RemoveCommas(a + b);
        head + RemoveCommas(a[1..] + b);
        head + (RemoveCommas(a[1..]) + RemoveCommas(b));
        (head + RemoveCommas(a[1..])) + RemoveCommas(b);
      }
    } else {
      assert a + b == b;
    }
  }

  lemma {:induction false} RemoveCommasOfDigits(s: string)
    requires forall i :: 0 <= i < |s| ==> IsDigit(s[i])
    ensures RemoveCommas(s) == s
  {
    if s != [] {
      RemoveCommasOfDigits(s[1..]);
    }
  }

  /** The last three digits of `n >= 1000` are `Pad3(n % 1000)`. */
  lemma DigitsSplit3(n: nat)
    requires n >= 1000
    ensures Digits(n) == Digits(n / 1000) + Pad3(n % 1000)
  {
    var q, m := n / 1000, n % 1000;
    assert n == 1000 * q + m;
    assert n / 10 == 100 * q + m / 10;
    assert n / 100 == 10 * q + m / 100;
    assert n / 10 / 10 == n / 100;
    assert n / 100 / 10 == q;
    assert n / 100 % 10 == m / 100;
    assert n / 10 % 10 == m / 10 % 10;
    assert n % 10 == m % 10;
    assert Digits(n) == Digits(n / 10) + [DigitChar(n % 10)];
    assert Digits(n / 10) == Digits(n / 100) + [DigitChar(n / 10 % 10)];
    assert Digits(n / 100) == Digits(q) + [DigitChar(n / 100 % 10)];
  }

  /** Dropping the separators from `{n:,}` gives back the plain decimal `str(n)`. */
  lemma {:induction false} GroupedIsDigitsWithCommas(n: nat)
    ensures RemoveCommas(Grouped(n)) == Digits(n)
  {
    if n < 1000 {
      RemoveCommasOfDigits(Digits(n));
    } else {
      var q := n / 1000;
      var p := Pad3(n % 1000);
      assert Grouped(n) == Grouped(q) + ("," + p);
      assert RemoveCommas("," + p) == p by {
        RemoveCommasConcat(",", p);
        RemoveCommasOfDigits(p);
      }
      calc {
        RemoveCommas(Grouped(n));
        { RemoveCommasConcat(Grouped(q), "," + p); }
        RemoveCommas(Grouped(q)) + RemoveCommas("," + p);
        { GroupedIsDigitsWithCommas(q); }
        Digits(q) + p;
        { DigitsSplit3(n); }
        Digits(n);
      }
    }
  }

  /** Reading the digits of `{n:,}` back, ignoring the separators, gives `n`. */
  lemma ThousandsRoundTrip(n: nat)
    ensures DigitsValue(RemoveCommas(WithThousands(n))) == n
  {
    GroupedIsDigitsWithCommas(n);
    DigitsRoundTrip(n);
  }
}
