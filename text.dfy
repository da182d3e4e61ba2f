/**
 The .NET string operations that the argument builder relies on, over
 `string` = `seq<char>`: ordinal case-insensitive comparison and search,
 `String.Trim`, `Path.GetExtension` and the decimal rendering of an `int`.
 */
module Text {

  /** ASCII case folding: the case mapping `StringComparison.OrdinalIgnoreCase`
      applies to the ASCII letters. */
  function Lower(c: char): char
  {
    if 'A' <= c <= 'Z' then (c as int + 32) as char else c
  }

  /** Every character of `s` case-folded. */
  function Lowered(s: string): (r: string)
    ensures |r| == |s| && forall i :: 0 <= i < |s| ==> r[i] == Lower(s[i])
  {
    seq(|s|, i requires 0 <= i < |s| => Lower(s[i]))
  }

  /** `string.Equals(a, b, StringComparison.OrdinalIgnoreCase)`: the strings
      are the same once both are case-folded. */
  function EqualsIgnoreCase(a: string, b: string): (r: bool)
    ensures r <==> Lowered(a) == Lowered(b)
  {
    |a| == |b| && forall i :: 0 <= i < |a| ==> Lower(a[i]) == Lower(b[i])
  }

  /** The needle `t` occurs in `s` at position `i`, ignoring case. */
  predicate MatchesAt(s: string, t: string, i: int)
  {
    0 <= i && i + |t| <= |s| && EqualsIgnoreCase(s[i..i + |t|], t)
  }

  /** `t` occurs somewhere in `s`, ignoring case (the reference for `IndexOf`). */
  ghost predicate OccursIgnoreCase(s: string, t: string)
  {
    exists i :: MatchesAt(s, t, i)
  }

  /** `s` ends with `suffix`. */
  predicate EndsWith(s: string, suffix: string)
  {
    |suffix| <= |s| && s[|s| - |suffix|..] == suffix
  }

  lemma PrefixOfAppend(p: string, s: string, t: string)
    requires p <= s
    ensures p <= s + t
  {
    assert (s + t)[..|s|] == s;
  }

  lemma EndsWithAppend(a: string, b: string, suffix: string)
    requires EndsWith(b, suffix)
    ensures EndsWith(a + b, suffix)
  {
    assert (a + b)[|a + b| - |suffix|..] == b[|b| - |suffix|..];
  }

  /** `s` ends with `suffix`, ignoring case. */
  predicate EndsWithIgnoreCase(s: string, suffix: string)
  {
    |suffix| <= |s| && EqualsIgnoreCase(s[|s| - |suffix|..], suffix)
  }

  /** The search behind `IndexOfIgnoreCase`, starting at position `from`. */
  function IndexOfFrom(s: string, t: string, from: nat): (r: int)
    ensures r == -1 || (from <= r && MatchesAt(s, t, r))
    ensures r == -1 ==> forall i :: from <= i ==> !MatchesAt(s, t, i)
    ensures r != -1 ==> forall i :: from <= i < r ==> !MatchesAt(s, t, i)
    decreases |s| - from
  {
    if from + |t| > |s| then -1
    else if MatchesAt(s, t, from) then from
    else IndexOfFrom(s, t, from + 1)
  }

  /** `s.IndexOf(t, StringComparison.OrdinalIgnoreCase)`: the first position at
      which `t` occurs in `s` ignoring case, or -1 when it occurs nowhere. */
  function IndexOfIgnoreCase(s: string, t: string): (r: int)
    ensures r == -1 <==> !OccursIgnoreCase(s, t)
    ensures r != -1 ==> MatchesAt(s, t, r) && forall i :: 0 <= i < r ==> !MatchesAt(s, t, i)
  {
    IndexOfFrom(s, t, 0)
  }

  /** `Char.IsWhiteSpace`: the Unicode space, line and paragraph separators,
      U+0009 to U+000D and U+0085. */
  predicate IsWhiteSpace(c: char)
  {
    var n := c as int;
    (0x09 <= n <= 0x0D) || n == 0x20 || n == 0x85 || n == 0xA0 || n == 0x1680
    || (0x2000 <= n <= 0x200A) || n == 0x2028 || n == 0x2029 || n == 0x202F
    || n == 0x205F || n == 0x3000
  }

  predicate AllWhiteSpace(s: string)
  {
    forall i :: 0 <= i < |s| ==> IsWhiteSpace(s[i])
  }

  /** Neither the first nor the last character of `s` is white space. */
  predicate NoEdgeWhiteSpace(s: string)
  {
    s == [] || (!IsWhiteSpace(s[0]) && !IsWhiteSpace(s[|s| - 1]))
  }

  /** `String.TrimStart()`: drops the longest all-white-space prefix. */
  function TrimStart(s: string): (r: string)
    ensures |r| <= |s| && r == s[|s| - |r|..]
    ensures AllWhiteSpace(s[..|s| - |r|])
    ensures r == [] || !IsWhiteSpace(r[0])
  {
    if s != [] && IsWhiteSpace(s[0]) then TrimStart(s[1..]) else s
  }

  /** `String.TrimEnd()`: drops the longest all-white-space suffix. */
  function TrimEnd(s: string): (r: string)
    ensures |r| <= |s| && r == s[..|r|]
    ensures AllWhiteSpace(s[|r|..])
    ensures r == [] || !IsWhiteSpace(r[|r| - 1])
  {
    if s != [] && IsWhiteSpace(s[|s| - 1]) then
      var r := TrimEnd(s[..|s| - 1]);
      assert s[|r|..] == s[..|s| - 1][|r|..] + [s[|s| - 1]];
      r
    else s
  }

  /** `r` is `s[i..j]` and everything outside it is white space. */
  predicate TrimmedBetween(s: string, r: string, i: int, j: int)
  {
    0 <= i <= j <= |s| && r == s[i..j] && AllWhiteSpace(s[..i]) && AllWhiteSpace(s[j..])
  }

  /** `String.Trim()`: the infix of `s` left after removing white space at both
      ends; what is removed is all white space and what is left starts and ends
      with a character that is not. */
  function Trim(s: string): (r: string)
    ensures exists i, j :: TrimmedBetween(s, r, i, j)
    ensures NoEdgeWhiteSpace(r)
  {
    var t := TrimStart(s);
    var r := TrimEnd(t);
    TrimBounds(s, t, r);
    r
  }

  /** The witnesses for `Trim`: the trimmed front is `|s| - |t|` long. */
  lemma TrimBounds(s: string, t: string, r: string)
    requires t == TrimStart(s) && r == TrimEnd(t)
    ensures TrimmedBetween(s, r, |s| - |t|, |s| - |t| + |r|)
  {
    PrefixOfSuffix(s, t, r);
  }

  /** A prefix `r` of a suffix `t` of `s` sits in `s` right where `t` starts. */
  lemma PrefixOfSuffix(s: string, t: string, r: string)
    requires |t| <= |s| && t == s[|s| - |t|..] && |r| <= |t| && r == t[..|r|]
    ensures r == s[|s| - |t|..|s| - |t| + |r|] && s[|s| - |t| + |r|..] == t[|r|..]
  {
  }

  /** Trimming the front of a concatenation only reaches into the second part
      when the first part is all white space. */
  lemma {:induction false} TrimStartAppend(a: string, b: string)
    ensures TrimStart(a + b) == if TrimStart(a) == [] then TrimStart(b) else TrimStart(a) + b
  {
    if a == [] {
      assert a + b == b;
    } else if IsWhiteSpace(a[0]) {
      assert (a + b)[1..] == a[1..] + b;
      TrimStartAppend(a[1..], b);
    }
  }

  /** A single blank in front of a character that is not white space is
      all that `TrimStart` removes. */
  lemma TrimStartOneBlank(s: string)
    requires |s| >= 2 && s[0] == ' ' && !IsWhiteSpace(s[1])
    ensures TrimStart(s) == s[1..]
  {
    assert TrimStart(s[1..]) == s[1..];
  }

  /** Behind an all-white-space prefix, a blank and a solid character. */
  lemma TrimStartAfterBlankPrefix(a: string, b: string)
    requires |b| >= 2 && b[0] == ' ' && !IsWhiteSpace(b[1])
    requires TrimStart(a) == []
    ensures TrimStart(a + b) == b[1..]
  {
    TrimStartAppend(a, b);
    TrimStartOneBlank(b);
  }

  /** Behind a prefix with a solid character, nothing of `b` is removed. */
  lemma TrimStartAfterSolidPrefix(a: string, b: string)
    requires |b| >= 1 && b[0] == ' '
    requires TrimStart(a) != []
    ensures TrimStart(a + b) == (TrimStart(a) + " ") + b[1..]
  {
    TrimStartAppend(a, b);
    var t := TrimStart(a);
    assert b == [' '] + b[1..];
    assert t + b == (t + " ") + b[1..];
  }

  /** Trimming the front keeps a last character that is not white space. */
  lemma {:induction false} TrimStartKeepsSolidEnd(s: string)
    requires |s| >= 1 && !IsWhiteSpace(s[|s| - 1])
    ensures |TrimStart(s)| >= 1 && TrimStart(s)[|TrimStart(s)| - 1] == s[|s| - 1]
  {
    if IsWhiteSpace(s[0]) {
      TrimStartKeepsSolidEnd(s[1..]);
    }
  }

  /** A string that ends in a character other than white space is only
      trimmed at its front. */
  lemma TrimOfSolidEnd(s: string)
    requires |s| >= 1 && !IsWhiteSpace(s[|s| - 1])
    ensures Trim(s) == TrimStart(s)
  {
    TrimStartKeepsSolidEnd(s);
    var t := TrimStart(s);
    assert TrimEnd(t) == t;
  }

  /** The position of the last occurrence of `c` in `s`, or -1. */
  function LastIndexOf(s: string, c: char): (r: int)
    ensures -1 <= r < |s|
    ensures r == -1 <==> c !in s
    ensures r != -1 ==> s[r] == c && c !in s[r + 1..]
  {
    if s == [] then -1
    else if s[|s| - 1] == c then |s| - 1
    else
      var r := LastIndexOf(s[..|s| - 1], c);
      assert s == s[..|s| - 1] + [s[|s| - 1]];
      r
  }

  /** `Path.GetExtension(path)`: the suffix of `path` that starts at its last
      '.', or the empty string when `path` holds no '.'. */
  function GetExtension(path: string): (r: string)
    ensures r == [] <==> '.' !in path
    ensures |r| <= |path|
    ensures r != [] ==> r[0] == '.' && '.' !in r[1..] && path == path[..|path| - |r|] + r
  {
    var i := LastIndexOf(path, '.');
    if i == -1 then []
    else
      assert path[i..][1..] == path[i + 1..];
      assert path == path[..i] + path[i..];
      path[i..]
  }

  /** For an extension such as ".mp4" (one leading dot and no other), comparing
      the extension of a path with it ignoring case is the same as asking
      whether the path ends with it ignoring case. */
  lemma ExtensionEqualsIffSuffix(path: string, ext: string)
    requires |ext| >= 1 && ext[0] == '.' && '.' !in ext[1..]
    ensures EqualsIgnoreCase(GetExtension(path), ext) <==> EndsWithIgnoreCase(path, ext)
  {
    var e := GetExtension(path);
    if EqualsIgnoreCase(e, ext) {
      assert path[|path| - |ext|..] == e;
    }
    if EndsWithIgnoreCase(path, ext) {
      var k := |path| - |ext|;
      var tail := path[k..];
      assert Lower(tail[0]) == Lower('.');
      assert path[k] == '.';
      forall m | k < m < |path| ensures path[m] != '.' {
        assert Lower(tail[m - k]) == Lower(ext[m - k]);
        assert ext[m - k] in ext[1..];
      }
      var i := LastIndexOf(path, '.');
      assert i == k;
      assert e == tail;
    }
  }

  /** The character of decimal digit `d`. */
  function DigitChar(d: nat): (c: char)
    requires d < 10
    ensures '0' <= c <= '9' && c as int - '0' as int == d
  {
    ('0' as int + d) as char
  }

  predicate IsDigits(s: string)
  {
    forall i :: 0 <= i < |s| ==> '0' <= s[i] <= '9'
  }

  /** Decimal digits of `n`, most significant first, without leading zeros. */
  function NatToDecimal(n: nat): (r: string)
    ensures |r| >= 1 && IsDigits(r)
    ensures r[0] == '0' ==> n == 0 && r == "0"
  {
    if n < 10 then [DigitChar(n)] else NatToDecimal(n / 10) + [DigitChar(n % 10)]
  }

  /** `n.ToString(CultureInfo("en-US"))`: an optional '-' followed by the
      decimal digits of the magnitude. */
  function Decimal(n: int): (r: string)
    ensures |r| >= 1
    ensures r[0] == '-' <==> n < 0
    ensures n < 0 ==> IsDigits(r[1..]) && |r| >= 2
    ensures n >= 0 ==> IsDigits(r)
    // canonical: no leading zeros, and "0" is the only rendering of zero
    ensures n >= 0 && r[0] == '0' ==> r == "0"
    ensures n < 0 ==> r[1] != '0'
  {
    if n < 0 then "-" + NatToDecimal(-n) else NatToDecimal(n)
  }

  /** The value of a string of decimal digits. */
  function ParseNat(s: string): int
  {
    if s == [] then 0 else ParseNat(s[..|s| - 1]) * 10 + (s[|s| - 1] as int - '0' as int)
  }

  /** The value of an optionally signed decimal numeral. */
  function ParseDecimal(s: string): int
  {
    if |s| > 0 && s[0] == '-' then -ParseNat(s[1..]) else ParseNat(s)
  }

  lemma {:induction false} NatToDecimalRoundTrip(n: nat)
    ensures ParseNat(NatToDecimal(n)) == n
  {
    var r := NatToDecimal(n);
    if n < 10 {
      assert r[..|r| - 1] == [];
    } else {
      assert r[..|r| - 1] == NatToDecimal(n / 10);
      NatToDecimalRoundTrip(n / 10);
    }
  }

  /** The rendering is faithful: parsing it back gives the number. */
  lemma DecimalRoundTrip(n: int)
    ensures ParseDecimal(Decimal(n)) == n
  {
    if n < 0 {
      assert Decimal(n)[1..] == NatToDecimal(-n);
      NatToDecimalRoundTrip(-n);
    } else {
      NatToDecimalRoundTrip(n);
    }
  }

  /** Different numbers render differently. */
  lemma DecimalInjective(m: int, n: int)
    requires Decimal(m) == Decimal(n)
    ensures m == n
  {
    DecimalRoundTrip(m);
    DecimalRoundTrip(n);
  }
}
