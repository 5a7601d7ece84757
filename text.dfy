/**
 * The ECMAScript string operations the core relies on: `split`, `trim`,
 * `startsWith`/`endsWith`, decimal rendering of integers and
 * `parseInt(s, 10)`.
 */
module Text {
  import opened Wrappers

  // ---------------------------------------------------------------- split

  /** `s.split(sep)` for a non-empty separator: the pieces between successive,
      non-overlapping occurrences of `sep`, scanned from the left. */
  function Split(s: string, sep: string): (parts: seq<string>)
    requires |sep| > 0
    ensures |parts| >= 1
    decreases |s|
  {
    if |s| < |sep| then [s]
    else if s[..|sep|] == sep then [""] + Split(s[|sep|..], sep)
    else
      var rest := Split(s[1..], sep);
      [[s[0]] + rest[0]] + rest[1..]
  }

  /** `parts.join(sep)`. */
  function Join(parts: seq<string>, sep: string): string
  {
    if |parts| == 0 then ""
    else if |parts| == 1 then parts[0]
    else parts[0] + sep + Join(parts[1..], sep)
  }

  lemma JoinConsHead(c: char, parts: seq<string>, sep: string)
    requires |parts| >= 1
    ensures Join([[c] + parts[0]] + parts[1..], sep) == [c] + Join(parts, sep)
  {
    var q := [[c] + parts[0]] + parts[1..];
    if |parts| > 1 {
      assert q[1..] == parts[1..];
    }
  }

  /** Splitting and re-joining gives back the original string. */
  lemma {:induction false} JoinSplit(s: string, sep: string)
    requires |sep| > 0
    ensures Join(Split(s, sep), sep) == s
    decreases |s|
  {
    if |s| < |sep| {
    } else if s[..|sep|] == sep {
      var rest := Split(s[|sep|..], sep);
      JoinSplit(s[|sep|..], sep);
      var parts := [""] + rest;
      assert Split(s, sep) == parts;
      assert parts[1..] == rest;
      assert Join(parts, sep) == "" + sep + Join(rest, sep);
      assert s == s[..|sep|] + s[|sep|..];
    } else {
      var rest := Split(s[1..], sep);
      JoinSplit(s[1..], sep);
      JoinConsHead(s[0], rest, sep);
      assert Split(s, sep) == [[s[0]] + rest[0]] + rest[1..];
      assert s == [s[0]] + s[1..];
    }
  }

  /** No piece of a split on one character contains that character. */
  lemma {:induction false} SplitPiecesAvoidSeparator(s: string, c: char)
    ensures forall i :: 0 <= i < |Split(s, [c])| ==> c !in Split(s, [c])[i]
    decreases |s|
  {
    if |s| < 1 {
    } else if s[..1] == [c] {
      SplitPiecesAvoidSeparator(s[1..], c);
    } else {
      SplitPiecesAvoidSeparator(s[1..], c);
      var rest := Split(s[1..], [c]);
      assert s[0] != c by { assert s[..1] == [s[0]]; }
      assert c !in [s[0]] + rest[0];
    }
  }

  /** A split on one character into two or more pieces means the character occurs. */
  lemma SplitManyHasSeparator(s: string, c: char)
    requires |Split(s, [c])| >= 2
    ensures c in s
  {
    var parts := Split(s, [c]);
    JoinSplit(s, [c]);
    assert s == parts[0] + [c] + Join(parts[1..], [c]);
    assert s[|parts[0]|] == c;
  }

  /** A split on one character has more than one piece exactly when the
      character occurs. */
  lemma SplitManyIffSeparator(s: string, c: char)
    ensures |Split(s, [c])| > 1 <==> c in s
  {
    if c in s {
      SplitAtIndexOf(s, c);
    } else if |Split(s, [c])| > 1 {
      SplitManyHasSeparator(s, c);
    }
  }

  /** A string without the separator splits into itself alone. */
  lemma {:induction false} SplitWithoutSeparator(s: string, c: char)
    requires c !in s
    ensures Split(s, [c]) == [s]
    decreases |s|
  {
    if |s| >= 1 {
      assert s[..1] == [s[0]];
      assert c !in s[1..];
      SplitWithoutSeparator(s[1..], c);
      assert [s[0]] + s[1..] == s;
    }
  }

  /** The first piece is the text before the first occurrence of the separator. */
  lemma {:induction false} SplitAtFirst(a: string, c: char, b: string)
    requires c !in a
    ensures Split(a + [c] + b, [c]) == [a] + Split(b, [c])
    decreases |a|
  {
    var s := a + [c] + b;
    if |a| == 0 {
      assert s[..1] == [c];
      assert s[1..] == b;
    } else {
      assert s[..1] == [a[0]];
      assert a[0] != c;
      assert s[1..] == a[1..] + [c] + b;
      assert c !in a[1..];
      SplitAtFirst(a[1..], c, b);
      assert [a[0]] + a[1..] == a;
    }
  }

  /** `s.indexOf(c)` for a character that occurs in `s`. */
  function IndexOf(s: string, c: char): (i: nat)
    requires c in s
    ensures i < |s| && s[i] == c && c !in s[..i]
  {
    if s[0] == c then 0
    else
      assert c in s[1..] by {
        var k :| 0 <= k < |s| && s[k] == c;
        assert s[1..][k - 1] == c;
      }
      var j := IndexOf(s[1..], c);
      assert s[..j + 1] == [s[0]] + s[1..][..j];
      j + 1
  }

  /** Splitting at a character that occurs: the text before its first
      occurrence, then the pieces of the rest; so at least two pieces. */
  lemma SplitAtIndexOf(s: string, c: char)
    requires c in s
    ensures var i := IndexOf(s, c);
      Split(s, [c]) == [s[..i]] + Split(s[i + 1..], [c]) && |Split(s, [c])| >= 2
  {
    var i := IndexOf(s, c);
    assert s == s[..i] + [c] + s[i + 1..];
    SplitAtFirst(s[..i], c, s[i + 1..]);
  }

  /** The first `c` of `a + [c] + b`, when `a` has none, is the one after `a`. */
  lemma {:induction false} IndexOfConcat(a: string, c: char, b: string)
    requires c !in a
    ensures c in a + [c] + b && IndexOf(a + [c] + b, c) == |a|
    decreases |a|
  {
    var s := a + [c] + b;
    assert s[|a|] == c;
    if |a| > 0 {
      assert s[1..] == a[1..] + [c] + b;
      assert c !in a[1..];
      IndexOfConcat(a[1..], c, b);
    }
  }

  /** The text before the first `c`, or all of `s` when there is none. */
  function BeforeFirst(s: string, c: char): (r: string)
    ensures c !in r && StartsWith(s, r)
  {
    if c in s then s[..IndexOf(s, c)] else s
  }

  /** The first piece of a split on one character is the text before its first occurrence. */
  lemma SplitFirstPiece(s: string, c: char)
    ensures Split(s, [c])[0] == BeforeFirst(s, c)
  {
    if c in s {
      SplitAtIndexOf(s, c);
    } else {
      SplitWithoutSeparator(s, c);
    }
  }

  /** The second piece of a split on one character that occurs: the text
      between its first and its second occurrence (or the end). */
  lemma SplitSecondPiece(s: string, c: char)
    requires c in s
    ensures |Split(s, [c])| >= 2
    ensures Split(s, [c])[1] == BeforeFirst(s[IndexOf(s, c) + 1..], c)
  {
    SplitAtIndexOf(s, c);
    SplitFirstPiece(s[IndexOf(s, c) + 1..], c);
  }

  // ---------------------------------------------------------------- trim

  /** ECMAScript WhiteSpace and LineTerminator code points, the set `trim()`
      removes and `parseInt` skips. */
  predicate IsWhitespace(c: char)
  {
    var n := c as int;
    n == 0x09 || n == 0x0A || n == 0x0B || n == 0x0C || n == 0x0D || n == 0x20 ||
    n == 0xA0 || n == 0x1680 || (0x2000 <= n <= 0x200A) || n == 0x2028 ||
    n == 0x2029 || n == 0x202F || n == 0x205F || n == 0x3000 || n == 0xFEFF
  }

  /** ECMAScript LineTerminator code points, which a regular-expression `.` does not match. */
  predicate IsLineTerminator(c: char)
  {
    var n := c as int;
    n == 0x0A || n == 0x0D || n == 0x2028 || n == 0x2029
  }

  /** The first index at or after `k` that does not hold whitespace, or `|s|`. */
  function SkipWhitespace(s: string, k: nat): (i: nat)
    requires k <= |s|
    ensures k <= i <= |s|
    ensures forall j :: k <= j < i ==> IsWhitespace(s[j])
    ensures i < |s| ==> !IsWhitespace(s[i])
    decreases |s| - k
  {
    if k < |s| && IsWhitespace(s[k]) then SkipWhitespace(s, k + 1) else k
  }

  /** Moving left from `k` but not past `lo`, the first index whose
      predecessor does not hold whitespace. */
  function BackOverWhitespace(s: string, lo: nat, k: nat): (i: nat)
    requires lo <= k <= |s|
    ensures lo <= i <= k
    ensures forall j :: i <= j < k ==> IsWhitespace(s[j])
    ensures i > lo ==> !IsWhitespace(s[i - 1])
    decreases k
  {
    if k > lo && IsWhitespace(s[k - 1]) then BackOverWhitespace(s, lo, k - 1) else k
  }

  /** Where the text kept by `trim()` starts in `s`. */
  function TrimOffset(s: string): nat
  {
    SkipWhitespace(s, 0)
  }

  /** `s.trimStart()`: the suffix left once leading whitespace is dropped. */
  function TrimStart(s: string): string
  {
    s[TrimOffset(s)..]
  }

  /** `s.trim()`: `s.trimStart()` less its trailing whitespace. */
  function Trim(s: string): string
  {
    var i := TrimOffset(s);
    s[i..BackOverWhitespace(s, i, |s|)]
  }

  /** What `trim()` promises: a contiguous part of `s` with no whitespace at
      either end, everything cut off being whitespace. */
  lemma TrimIsSlice(s: string)
    ensures var r, i := Trim(s), TrimOffset(s);
      i + |r| <= |s| && r == s[i..i + |r|] &&
        (forall k :: 0 <= k < i ==> IsWhitespace(s[k])) &&
        (forall k :: i + |r| <= k < |s| ==> IsWhitespace(s[k]))
    ensures |Trim(s)| > 0 ==> !IsWhitespace(Trim(s)[0]) && !IsWhitespace(Trim(s)[|Trim(s)| - 1])
  {
    var i := TrimOffset(s);
    var e := BackOverWhitespace(s, i, |s|);
    if e > i {
      assert Trim(s)[0] == s[i] && Trim(s)[|Trim(s)| - 1] == s[e - 1];
    }
  }

  /** A string whose first character is not whitespace keeps that character
      at the front when trimmed; in particular it does not trim to "". */
  lemma TrimKeepsFirst(s: string)
    requires |s| > 0 && !IsWhitespace(s[0])
    ensures |Trim(s)| > 0 && Trim(s)[0] == s[0]
  {
    assert TrimOffset(s) == 0;
  }

  /** Trimming does not bring in a character that was not there. */
  lemma TrimKeepsAbsence(s: string, c: char)
    requires c !in s
    ensures c !in Trim(s)
  {
    TrimIsSlice(s);
    var r, i := Trim(s), TrimOffset(s);
    forall k | 0 <= k < |r|
      ensures r[k] != c
    {
      assert r[k] == s[i + k];
    }
  }

  // ----------------------------------------------------- prefix and suffix

  predicate StartsWith(s: string, p: string)
  {
    |p| <= |s| && s[..|p|] == p
  }

  predicate EndsWith(s: string, p: string)
  {
    |p| <= |s| && s[|s| - |p|..] == p
  }

  lemma PrefixKeepsAbsence(s: string, p: string, c: char)
    requires StartsWith(s, p) && c !in s
    ensures c !in p
  {
    forall k | 0 <= k < |p|
      ensures p[k] != c
    {
      assert p[k] == s[k];
    }
  }

  lemma SuffixKeepsAbsence(s: string, i: nat, c: char)
    requires i <= |s| && c !in s
    ensures c !in s[i..]
  {
    forall k | 0 <= k < |s| - i
      ensures s[i..][k] != c
    {
      assert s[i..][k] == s[i + k];
    }
  }

  lemma StartsWithTransitive(s: string, p: string, q: string)
    requires StartsWith(s, p + q)
    ensures StartsWith(s, p)
  {
    assert s[..|p|] == (p + q)[..|p|];
  }

  // ------------------------------------------------------------- case

  /** ASCII lower-casing. Compared against an all-lower-case ASCII word such
      as "bearer", this agrees with `toLowerCase()`: no other code point
      lower-cases to an ASCII letter of that word. */
  function AsciiLower(c: char): char
  {
    if 'A' <= c <= 'Z' then (c as int + 32) as char else c
  }

  predicate EqualsIgnoringCase(s: string, lower: string)
  {
    |s| == |lower| && forall i :: 0 <= i < |s| ==> AsciiLower(s[i]) == lower[i]
  }

  // ------------------------------------------------------------- numbers

  predicate IsDigit(c: char)
  {
    '0' <= c <= '9'
  }

  predicate AllDigits(s: string)
  {
    forall i :: 0 <= i < |s| ==> IsDigit(s[i])
  }

  function DigitChar(d: nat): (c: char)
    requires d < 10
    ensures IsDigit(c) && c as int - '0' as int == d
  {
    ('0' as int + d) as char
  }

  /** `String(n)` for a natural number: its shortest decimal rendering. */
  function NatToString(n: nat): (s: string)
    ensures |s| > 0 && AllDigits(s)
    ensures n >= 10 ==> s[0] != '0'
    decreases n
  {
    if n < 10 then [DigitChar(n)] else NatToString(n / 10) + [DigitChar(n % 10)]
  }

  /** `String(i)` for an integer, with a leading '-' when negative. */
  function IntToString(i: int): string
  {
    if i < 0 then "-" + NatToString(-i) else NatToString(i)
  }

  /** The value of a string of decimal digits. */
  function DigitsValue(s: string): nat
    requires AllDigits(s)
  {
    if |s| == 0 then 0 else DigitsValue(s[..|s| - 1]) * 10 + (s[|s| - 1] as int - '0' as int)
  }

  /** Reading back a rendered number gives the number. */
  lemma {:induction false} NatToStringRoundTrip(n: nat)
    ensures DigitsValue(NatToString(n)) == n
    decreases n
  {
    if n >= 10 {
      var s := NatToString(n);
      NatToStringRoundTrip(n / 10);
      assert s[..|s| - 1] == NatToString(n / 10);
    }
  }

  /** Distinct numbers render differently. */
  lemma NatToStringInjective(m: nat, n: nat)
    requires NatToString(m) == NatToString(n)
    ensures m == n
  {
    NatToStringRoundTrip(m);
    NatToStringRoundTrip(n);
  }

  /** The longest prefix of `s` made of decimal digits. */
  function LeadingDigits(s: string): (d: string)
    ensures |d| <= |s| && d == s[..|d|] && AllDigits(d)
    ensures |d| < |s| ==> !IsDigit(s[|d|])
  {
    if |s| > 0 && IsDigit(s[0]) then [s[0]] + LeadingDigits(s[1..]) else ""
  }

  /** `parseInt(s, 10)`: skip leading whitespace, read an optional sign and
      then as many decimal digits as there are; `None` (NaN) when there are
      none. A string of digits alone reads as its decimal value. */
  function ParseInt10(s: string): (r: Option<int>)
    ensures s != "" && AllDigits(s) ==> r == Some(DigitsValue(s))
    ensures r.Some? ==> exists i :: 0 <= i < |s| && IsDigit(s[i])
    ensures var t := TrimStart(s);
      var b := if |t| > 0 && (t[0] == '-' || t[0] == '+') then t[1..] else t;
      r.None? <==> b == "" || !IsDigit(b[0])
  {
    DigitsAreTrimmed(s);
    var t := TrimStart(s);
    var negative := |t| > 0 && t[0] == '-';
    var signed := |t| > 0 && (t[0] == '-' || t[0] == '+');
    var body := if signed then t[1..] else t;
    var d := LeadingDigits(body);
    if |d| == 0 then None
    else
      var k := TrimOffset(s) + (if signed then 1 else 0);
      assert s[k] == d[0];
      if negative then Some(-(DigitsValue(d) as int))
      else Some(DigitsValue(d))
  }

  /** `parseInt` of whitespace `w`, an optional sign `g`, the digits `d` and a
      rest `x` that does not go on with a digit: the signed value of `d`, so
      the whitespace and the rest are ignored (`" 12"`, `"-5"`, `"12abc"`). */
  lemma ParseInt10Parts(w: string, g: string, d: string, x: string)
    requires forall i :: 0 <= i < |w| ==> IsWhitespace(w[i])
    requires g == "" || g == "+" || g == "-"
    requires d != "" && AllDigits(d)
    requires x == "" || !IsDigit(x[0])
    ensures ParseInt10(w + g + d + x) == Some(if g == "-" then -(DigitsValue(d) as int) else DigitsValue(d))
  {
    var rest := g + (d + x);
    assert w + g + d + x == w + rest;
    assert IsDigit(d[0]);
    assert rest[0] == (if g == "" then d[0] else g[0]);
    TrimStartOfSpaced(w, rest);
    ParseInt10Trimmed(w + rest, g, d, x);
  }

  /** `parseInt(" 12")` is 12: leading whitespace is skipped. */
  lemma ParseInt10SkipsWhitespace()
    ensures ParseInt10(" 12") == Some(12)
  {
    assert DigitsValue("12") == 12 by { assert "12"[..1] == "1"; }
    assert " " + "" + "12" + "" == " 12";
    ParseInt10Parts(" ", "", "12", "");
  }

  /** `parseInt("-5")` is -5: the sign is read. */
  lemma ParseInt10ReadsSign()
    ensures ParseInt10("-5") == Some(-5)
  {
    assert "" + "-" + "5" + "" == "-5";
    ParseInt10Parts("", "-", "5", "");
  }

  /** `parseInt("12abc")` is 12: reading stops at the first non-digit. */
  lemma ParseInt10StopsAtNonDigit()
    ensures ParseInt10("12abc") == Some(12)
  {
    assert DigitsValue("12") == 12 by { assert "12"[..1] == "1"; }
    assert "" + "" + "12" + "abc" == "12abc";
    ParseInt10Parts("", "", "12", "abc");
  }

  /** `parseInt("+x")` is NaN: a sign must be followed by a digit. */
  lemma ParseInt10NeedsDigit()
    ensures ParseInt10("+x").None?
  {
    assert "" + "+x" == "+x";
    TrimStartOfSpaced("", "+x");
  }

  /** The whitespace `w` before a text that does not start with whitespace is
      what `trimStart` drops. */
  lemma TrimStartOfSpaced(w: string, rest: string)
    requires forall i :: 0 <= i < |w| ==> IsWhitespace(w[i])
    requires rest == "" || !IsWhitespace(rest[0])
    ensures TrimStart(w + rest) == rest
  {
    var s := w + rest;
    assert forall j :: 0 <= j < |w| ==> s[j] == w[j];
    SkipsExactly(s, 0, |w|);
    assert s[|w|..] == rest;
  }

  /** `parseInt` of a text whose trimmed start is a sign, digits and a rest. */
  lemma ParseInt10Trimmed(s: string, g: string, d: string, x: string)
    requires TrimStart(s) == g + (d + x)
    requires g == "" || g == "+" || g == "-"
    requires d != "" && AllDigits(d)
    requires x == "" || !IsDigit(x[0])
    ensures ParseInt10(s) == Some(if g == "-" then -(DigitsValue(d) as int) else DigitsValue(d))
  {
    var t := TrimStart(s);
    assert (d + x)[0] == d[0] && IsDigit(d[0]);
    LeadingDigitsBeforeRest(d, x);
    if g == "" {
      assert t == d + x && t[0] != '-' && t[0] != '+';
    } else {
      assert t == [g[0]] + (d + x) && t[1..] == d + x;
    }
  }

  /** `SkipWhitespace` stops at the first index past a whitespace run. */
  lemma {:induction false} SkipsExactly(s: string, k: nat, n: nat)
    requires k <= n <= |s|
    requires forall j :: k <= j < n ==> IsWhitespace(s[j])
    requires n == |s| || !IsWhitespace(s[n])
    ensures SkipWhitespace(s, k) == n
    decreases n - k
  {
    if k < n {
      SkipsExactly(s, k + 1, n);
    }
  }

  /** The leading digits of digits followed by a non-digit are those digits. */
  lemma {:induction false} LeadingDigitsBeforeRest(d: string, x: string)
    requires AllDigits(d)
    requires x == "" || !IsDigit(x[0])
    ensures LeadingDigits(d + x) == d
    decreases |d|
  {
    if |d| > 0 {
      assert (d + x)[1..] == d[1..] + x;
      LeadingDigitsBeforeRest(d[1..], x);
      assert [d[0]] + d[1..] == d;
    } else {
      assert d + x == x;
    }
  }

  /** A string of digits has no leading whitespace and is all leading digits. */
  lemma DigitsAreTrimmed(s: string)
    ensures s != "" && AllDigits(s) ==> TrimStart(s) == s && LeadingDigits(s) == s
  {
    if s != "" && AllDigits(s) {
      assert IsDigit(s[0]);
      assert !IsWhitespace(s[0]);
      assert TrimOffset(s) == 0;
      LeadingDigitsOfDigits(s);
    }
  }

  /** `parseInt` reads back what `String` renders. */
  lemma ParseIntOfRendered(n: nat)
    ensures ParseInt10(NatToString(n)) == Some(n)
  {
    var s := NatToString(n);
    assert IsDigit(s[0]);
    assert !IsWhitespace(s[0]);
    assert TrimOffset(s) == 0;
    assert TrimStart(s) == s;
    LeadingDigitsOfDigits(s);
    NatToStringRoundTrip(n);
  }

  lemma {:induction false} LeadingDigitsOfDigits(s: string)
    requires AllDigits(s)
    ensures LeadingDigits(s) == s
    decreases |s|
  {
    if |s| > 0 {
      LeadingDigitsOfDigits(s[1..]);
      assert [s[0]] + s[1..] == s;
    }
  }
}
