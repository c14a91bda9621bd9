/** Text handling used by the counting rules: Python's `str.strip()`, the
    `^[0-9]+$` pattern as `re.match` applies it, and `int()` on a string of
    ASCII digits, together with the decimal rendering that `int()` inverts. */
module Text {

  // ---------------------------------------------------------------------------
  // Whitespace and str.strip()
  // ---------------------------------------------------------------------------

  /** The characters CPython's `str.isspace()` (and so `str.strip()` with no
      argument) treats as whitespace. */
  predicate IsSpace(c: char) {
    var x := c as int;
    (0x09 <= x <= 0x0D) || (0x1C <= x <= 0x1F) || x == 0x20 || x == 0x85 || x == 0xA0 ||
    x == 0x1680 || (0x2000 <= x <= 0x200A) || x == 0x2028 || x == 0x2029 ||
    x == 0x202F || x == 0x205F || x == 0x3000
  }

  predicate AllSpace(s: string) {
    forall i | 0 <= i < |s| :: IsSpace(s[i])
  }

  /** `s.lstrip()`: the suffix of `s` left once every leading whitespace
      character is dropped. */
  function TrimStart(s: string): (r: string)
    ensures |r| <= |s| && r == s[|s| - |r|..]
    ensures AllSpace(s[..|s| - |r|])
    ensures r == [] || !IsSpace(r[0])
  {
    if s != [] && IsSpace(s[0]) then
      var r := TrimStart(s[1..]);
      assert s[..|s| - |r|] == [s[0]] + s[1..][..|s| - 1 - |r|];
      r
    else s
  }

  /** `s.rstrip()`: the prefix of `s` left once every trailing whitespace
      character is dropped. */
  function TrimEnd(s: string): (r: string)
    ensures |r| <= |s| && r == s[..|r|]
    ensures AllSpace(s[|r|..])
    ensures r == [] || !IsSpace(r[|r| - 1])
  {
    if s != [] && IsSpace(s[|s| - 1]) then
      var r := TrimEnd(s[..|s| - 1]);
      assert s[|r|..] == s[..|s| - 1][|r|..] + [s[|s| - 1]];
      r
    else s
  }

  /** `s.strip()`: empty, or starting and ending with a non-whitespace
      character. `TrimMargins` shows that only whitespace is removed, and
      `TrimUnique` that this pins the result down. */
  function Trim(s: string): (r: string)
    ensures |r| <= |s|
    ensures r == [] || (!IsSpace(r[0]) && !IsSpace(r[|r| - 1]))
  {
    TrimEnd(TrimStart(s))
  }

  /** Stripping keeps a slice of the input and removes only whitespace on
      either side of it. */
  lemma TrimMargins(s: string)
    ensures var i, r := |s| - |TrimStart(s)|, Trim(s);
            i + |r| <= |s| && r == s[i..i + |r|] && AllSpace(s[..i]) && AllSpace(s[i + |r|..])
  {
    var t := TrimStart(s);
    var r := TrimEnd(t);
    assert t[|r|..] == s[|s| - |t| + |r|..];
  }

  lemma {:induction false} TrimStartSkips(p: string, t: string)
    requires AllSpace(p)
    requires t == [] || !IsSpace(t[0])
    ensures TrimStart(p + t) == t
    decreases |p|
  {
    if p != [] {
      assert (p + t)[1..] == p[1..] + t;
      TrimStartSkips(p[1..], t);
    }
  }

  lemma {:induction false} TrimEndSkips(t: string, q: string)
    requires AllSpace(q)
    requires t == [] || !IsSpace(t[|t| - 1])
    ensures TrimEnd(t + q) == t
    decreases |q|
  {
    if q != [] {
      assert (t + q)[..|t + q| - 1] == t + q[..|q| - 1];
      TrimEndSkips(t, q[..|q| - 1]);
    }
  }

  /** Trim is determined by what it keeps: surrounding a text whose ends are
      not whitespace with any whitespace gives that text back. */
  lemma {:induction false} TrimUnique(p: string, m: string, q: string)
    requires AllSpace(p) && AllSpace(q)
    requires m == [] || (!IsSpace(m[0]) && !IsSpace(m[|m| - 1]))
    ensures Trim(p + m + q) == m
  {
    if m == [] {
      assert p + m + q == (p + q) + [];
      assert AllSpace(p + q) by {
        forall i | 0 <= i < |p + q| ensures IsSpace((p + q)[i]) {
          if i < |p| { assert (p + q)[i] == p[i]; } else { assert (p + q)[i] == q[i - |p|]; }
        }
      }
      TrimStartSkips(p + q, []);
    } else {
      assert p + m + q == p + (m + q);
      TrimStartSkips(p, m + q);
      TrimEndSkips(m, q);
    }
  }

  /** Text that neither starts nor ends with whitespace is left as it is. */
  lemma {:induction false} TrimKeeps(t: string)
    requires t == [] || (!IsSpace(t[0]) && !IsSpace(t[|t| - 1]))
    ensures Trim(t) == t
  {
    var none: string := [];
    assert AllSpace(none);
    assert none + t + none == t;
    TrimUnique(none, t, none);
  }

  /** Stripping twice is the same as stripping once. */
  lemma {:induction false} TrimIdempotent(s: string)
    ensures Trim(Trim(s)) == Trim(s)
  {
    TrimKeeps(Trim(s));
  }

  // ---------------------------------------------------------------------------
  // The digit pattern and int()
  // ---------------------------------------------------------------------------

  predicate IsAsciiDigit(c: char) {
    '0' <= c <= '9'
  }

  /** One or more characters, each in the ASCII range `0`-`9`. */
  predicate IsAsciiDigits(s: string) {
    |s| > 0 && forall i | 0 <= i < |s| :: IsAsciiDigit(s[i])
  }

  /** `re.match(r'^[0-9]+$', s)` succeeds: Python's `$` also matches just
      before a final newline, so one trailing `\n` is let through. */
  predicate MatchesDigitPattern(s: string) {
    IsAsciiDigits(s) || (|s| >= 2 && s[|s| - 1] == '\n' && IsAsciiDigits(s[..|s| - 1]))
  }

  /** On stripped text the pattern's trailing-newline allowance never
      applies: it accepts exactly the non-empty all-ASCII-digit strings. */
  lemma PatternOnTrimmed(s: string)
    ensures MatchesDigitPattern(Trim(s)) <==> IsAsciiDigits(Trim(s))
  {
  }

  /** Unstripped, the pattern lets a final newline through: `"12\n"` matches
      although it is not all digits. */
  lemma PatternAdmitsFinalNewline()
    ensures MatchesDigitPattern("12\n") && !IsAsciiDigits("12\n")
  {
    assert "12\n"[..2] == "12";
  }

  function Pow10(k: nat): (p: nat)
    ensures p >= 1
  {
    if k == 0 then 1 else 10 * Pow10(k - 1)
  }

  function DigitValue(c: char): (d: nat)
    requires IsAsciiDigit(c)
    ensures d < 10
  {
    (c as int) - ('0' as int)
  }

  function DigitChar(d: nat): (c: char)
    requires d < 10
    ensures IsAsciiDigit(c) && DigitValue(c) == d
  {
    (('0' as int) + d) as char
  }

  /** `int(s)` for a string of ASCII digits, read most significant digit
      first; the value fits in as many decimal places as `s` has. */
  function ParseDigits(s: string): (n: nat)
    requires forall i | 0 <= i < |s| :: IsAsciiDigit(s[i])
    ensures n < Pow10(|s|)
    ensures |s| == 1 ==> n == DigitValue(s[0])
    decreases |s|
  {
    if s == [] then 0 else 10 * ParseDigits(s[..|s| - 1]) + DigitValue(s[|s| - 1])
  }

  /** A digit string without superfluous leading zeros: the only string
      `str(n)` can produce. */
  predicate Canonical(s: string) {
    IsAsciiDigits(s) && (s[0] == '0' ==> |s| == 1)
  }

  /** `str(n)` for a natural number `n`. */
  function ShowNat(n: nat): (r: string)
    ensures Canonical(r)
    ensures |r| == 1 <==> n < 10
  {
    if n < 10 then [DigitChar(n)] else ShowNat(n / 10) + [DigitChar(n % 10)]
  }

  /** `int(str(n)) == n`. */
  lemma {:induction false} ParseShow(n: nat)
    ensures ParseDigits(ShowNat(n)) == n
  {
    if n >= 10 {
      var r := ShowNat(n);
      assert r[..|r| - 1] == ShowNat(n / 10);
      ParseShow(n / 10);
    }
  }

  /** A canonical numeral with more than one digit denotes at least 10^(k-1). */
  lemma {:induction false} CanonicalLowerBound(s: string)
    requires IsAsciiDigits(s) && s[0] != '0'
    ensures ParseDigits(s) >= Pow10(|s| - 1)
    decreases |s|
  {
    if |s| > 1 {
      CanonicalLowerBound(s[..|s| - 1]);
    }
  }

  /** `str(int(s)) == s` for every canonical numeral `s`. */
  lemma {:induction false} ShowParse(s: string)
    requires Canonical(s)
    ensures ShowNat(ParseDigits(s)) == s
    decreases |s|
  {
    var n := ParseDigits(s);
    if |s| == 1 {
      assert s == [DigitChar(DigitValue(s[0]))];
    } else {
      var init := s[..|s| - 1];
      CanonicalLowerBound(s);
      assert Pow10(|s| - 1) >= 10;
      assert n / 10 == ParseDigits(init) && n % 10 == DigitValue(s[|s| - 1]);
      ShowParse(init);
      assert s == init + [DigitChar(DigitValue(s[|s| - 1]))];
    }
  }

  /** A lone ASCII digit is a digit string, read as its value, and is not
      whitespace. */
  lemma SingleDigit(c: char)
    requires IsAsciiDigit(c)
    ensures IsAsciiDigits([c]) && ParseDigits([c]) == DigitValue(c) && !IsSpace(c)
  {
  }

  /** A leading `0` does not change the value `int()` reads. */
  lemma {:induction false} LeadingZero(s: string)
    requires forall i | 0 <= i < |s| :: IsAsciiDigit(s[i])
    ensures IsAsciiDigits("0" + s)
    ensures ParseDigits("0" + s) == ParseDigits(s)
    decreases |s|
  {
    if s != [] {
      assert ("0" + s)[..|"0" + s| - 1] == "0" + s[..|s| - 1];
      LeadingZero(s[..|s| - 1]);
    }
  }
}
