/** The .NET string operations the translator relies on, over `seq<char>`:
    `String.Join`, `StartsWith`, `EndsWith`, `Replace`, `Split('/').Length`,
    `Int32.ToString()` and `Int32.Parse`/`Int64.Parse` with the default integer number style.
    Comparisons are ordinal. */
module Text {
  import opened Wrappers

  /** `String.Join(sep, parts)`. */
  function Join(sep: string, parts: seq<string>): (r: string)
    ensures |parts| == 0 ==> r == ""
    ensures |parts| == 1 ==> r == parts[0]
  {
    if |parts| == 0 then ""
    else if |parts| == 1 then parts[0]
    else parts[0] + sep + Join(sep, parts[1..])
  }

  /** Joining two non-empty lists of parts puts one separator between their joins. */
  lemma {:induction false} JoinAppend(sep: string, a: seq<string>, b: seq<string>)
    requires a != [] && b != []
    ensures Join(sep, a + b) == Join(sep, a) + sep + Join(sep, b)
    decreases |a|
  {
    if |a| > 1 {
      JoinAppend(sep, a[1..], b);
      assert (a + b)[1..] == a[1..] + b;
    } else {
      assert (a + b)[1..] == b;
    }
  }

  lemma {:induction false} JoinEmptyIff(sep: string, parts: seq<string>)
    requires sep != ""
    ensures Join(sep, parts) == "" <==> (|parts| == 0 || (|parts| == 1 && parts[0] == ""))
  {
    if |parts| > 1 {
      assert |Join(sep, parts)| >= |sep|;
    }
  }

  predicate StartsWith(s: string, prefix: string) {
    |prefix| <= |s| && s[..|prefix|] == prefix
  }

  /** A string starts with any prefix it is extended from. */
  lemma StartsWithConcat(a: string, b: string)
    ensures StartsWith(a + b, a)
  {
    assert (a + b)[..|a|] == a;
  }

  predicate EndsWith(s: string, suffix: string) {
    |suffix| <= |s| && s[|s| - |suffix|..] == suffix
  }

  /** `String.Replace(pat, rep)`: every non-overlapping occurrence of `pat`, scanning left to right. */
  function Replace(s: string, pat: string, rep: string): (r: string)
    requires pat != []
    decreases |s|
  {
    if |s| < |pat| then s
    else if s[..|pat|] == pat then rep + Replace(s[|pat|..], pat, rep)
    else [s[0]] + Replace(s[1..], pat, rep)
  }

  lemma {:induction false} ReplaceAbsent(s: string, pat: string, rep: string)
    requires pat != [] && pat[0] !in s
    ensures Replace(s, pat, rep) == s
    decreases |s|
  {
    if |s| >= |pat| {
      assert s[..|pat|][0] == s[0];
      ReplaceAbsent(s[1..], pat, rep);
      assert s == [s[0]] + s[1..];
    }
  }

  /** A string with `pat` ending in a character that `s` does not contain is left unchanged. */
  lemma {:induction false} ReplaceAbsentLast(s: string, pat: string, rep: string)
    requires pat != [] && pat[|pat| - 1] !in s
    ensures Replace(s, pat, rep) == s
    decreases |s|
  {
    if |s| >= |pat| {
      assert s[..|pat|][|pat| - 1] == s[|pat| - 1];
      ReplaceAbsentLast(s[1..], pat, rep);
      assert s == [s[0]] + s[1..];
    }
  }

  /** Where `pat` does not start `s`, the first character is kept. */
  lemma ReplaceStep(s: string, pat: string, rep: string)
    requires pat != [] && s != []
    requires !(|pat| <= |s| && s[..|pat|] == pat)
    ensures Replace(s, pat, rep) == [s[0]] + Replace(s[1..], pat, rep)
  {
    if |s| < |pat| {
      assert Replace(s[1..], pat, rep) == s[1..];
      assert s == [s[0]] + s[1..];
    }
  }

  /** Replacing where the second character differs from the pattern's second. */
  lemma ReplaceMissAt1(s: string, pat: string, rep: string)
    requires |pat| >= 2 && |s| >= 2 && s[1] != pat[1]
    ensures Replace(s, pat, rep) == [s[0]] + Replace(s[1..], pat, rep)
  {
    if |pat| <= |s| {
      assert s[..|pat|][1] == s[1];
    }
    ReplaceStep(s, pat, rep);
  }

  /** Replacing in `[c] + s` where `c` cannot start `pat`. */
  lemma ReplaceCons(c: char, s: string, pat: string, rep: string)
    requires pat != [] && c != pat[0]
    ensures Replace([c] + s, pat, rep) == [c] + Replace(s, pat, rep)
  {
    var t := [c] + s;
    if |t| >= |pat| {
      assert t[..|pat|][0] == c;
    }
    assert t[1..] == s;
  }

  /** Replacing in `pat + s`. */
  lemma ReplaceHit(s: string, pat: string, rep: string)
    requires pat != []
    ensures Replace(pat + s, pat, rep) == rep + Replace(s, pat, rep)
  {
    var t := pat + s;
    assert t[..|pat|] == pat;
    assert t[|pat|..] == s;
  }

  /** `s.Split(c).Length`: one more than the number of occurrences of `c`. */
  function SplitCount(s: string, c: char): (n: nat)
    ensures n >= 1
    ensures c !in s ==> n == 1
  {
    if s == [] then 1
    else SplitCount(s[1..], c) + (if s[0] == c then 1 else 0)
  }

  lemma {:induction false} SplitCountAppend(a: string, b: string, c: char)
    ensures SplitCount(a + b, c) == SplitCount(a, c) + SplitCount(b, c) - 1
  {
    if a != [] {
      assert (a + b)[1..] == a[1..] + b;
      SplitCountAppend(a[1..], b, c);
    } else {
      assert a + b == b;
    }
  }

  // ---- integers ----

  const Int32Min: int := -0x8000_0000
  const Int32Max: int := 0x7fff_ffff
  const Int64Min: int := -0x8000_0000_0000_0000
  const Int64Max: int := 0x7fff_ffff_ffff_ffff

  predicate IsDigit(c: char) {
    '0' <= c <= '9'
  }

  function DigitChar(d: nat): (c: char)
    requires d < 10
    ensures IsDigit(c)
  {
    ['0', '1', '2', '3', '4', '5', '6', '7', '8', '9'][d]
  }

  function DigitValue(c: char): (d: nat)
    requires IsDigit(c)
    ensures d < 10 && DigitChar(d) == c
  {
    (c as int - '0' as int)
  }

  /** The decimal digits of `n`, most significant first, without leading zeros. */
  function NatToString(n: nat): (s: string)
    ensures |s| >= 1 && AllDigits(s)
  {
    if n < 10 then [DigitChar(n)] else NatToString(n / 10) + [DigitChar(n % 10)]
  }

  /** `Int32.ToString()` (and `Int64.ToString()`) in the invariant culture. */
  function IntToString(n: int): (s: string)
    ensures |s| >= 1
  {
    if n < 0 then "-" + NatToString(-n) else NatToString(n)
  }

  predicate AllDigits(s: string) {
    forall i :: 0 <= i < |s| ==> IsDigit(s[i])
  }

  /** The value of a string of decimal digits. */
  function DigitsValue(s: string): nat
    requires AllDigits(s)
  {
    if s == [] then 0 else 10 * DigitsValue(s[..|s| - 1]) + DigitValue(s[|s| - 1])
  }

  lemma {:induction false} DigitsValueOfNatToString(n: nat)
    ensures DigitsValue(NatToString(n)) == n
  {
    if n >= 10 {
      var s := NatToString(n);
      assert s[..|s| - 1] == NatToString(n / 10);
      DigitsValueOfNatToString(n / 10);
    }
  }

  lemma NatToStringInjective(m: nat, n: nat)
    requires NatToString(m) == NatToString(n)
    ensures m == n
  {
    DigitsValueOfNatToString(m);
    DigitsValueOfNatToString(n);
  }

  /** The white space that the integer number style allows around a number. */
  predicate IsWhite(c: char) {
    c == ' ' || '\t' <= c <= '\r'
  }

  function TrimStartWhite(s: string): (r: string)
    ensures |r| <= |s|
    ensures r == [] || !IsWhite(r[0])
  {
    if s != [] && IsWhite(s[0]) then TrimStartWhite(s[1..]) else s
  }

  function TrimEndWhite(s: string): (r: string)
    ensures |r| <= |s|
    ensures r == [] || !IsWhite(r[|r| - 1])
  {
    if s != [] && IsWhite(s[|s| - 1]) then TrimEndWhite(s[..|s| - 1]) else s
  }

  /** `Int32.Parse(s)` (with `lo`, `hi` the Int32 range) or `Int64.Parse(s)` (Int64 range):
      optional white space, an optional sign, at least one decimal digit, optional white space. */
  function ParseInteger(s: string, lo: int, hi: int): (r: Result<int>)
    ensures r.Ok? ==> lo <= r.value <= hi
  {
    ParseTrimmed(TrimEndWhite(TrimStartWhite(s)), lo, hi)
  }

  /** `ParseInteger` once the white space is gone: an optional sign and the digits. */
  function ParseTrimmed(t: string, lo: int, hi: int): (r: Result<int>)
    ensures r.Ok? ==> lo <= r.value <= hi
  {
    var negative := t != [] && t[0] == '-';
    var digits := if t != [] && (t[0] == '-' || t[0] == '+') then t[1..] else t;
    if digits == [] || !AllDigits(digits) then
      Err(Format("Input string was not in a correct format."))
    else
      var m: int := DigitsValue(digits);
      var v := if negative then -m else m;
      if v < lo || hi < v then Err(Overflow("Value was either too large or too small."))
      else Ok(v)
  }

  /** Printing then parsing an integer in range gives the integer back. */
  lemma IntToStringParses(n: int, lo: int, hi: int)
    requires lo <= n <= hi
    ensures ParseInteger(IntToString(n), lo, hi) == Ok(n)
  {
    IntToStringTrimmed(n);
    if n < 0 {
      assert IntToString(n) == "-" + NatToString(-n);
      DigitsValueOfNatToString(-n);
      ParseNegative(NatToString(-n), lo, hi);
    } else {
      DigitsValueOfNatToString(n);
      ParseUnsigned(NatToString(n), lo, hi);
    }
  }

  lemma ParseNegative(d: string, lo: int, hi: int)
    requires d != [] && AllDigits(d) && lo <= -(DigitsValue(d) as int) <= hi
    ensures ParseTrimmed("-" + d, lo, hi) == Ok(-(DigitsValue(d) as int))
  {
    assert ("-" + d)[1..] == d;
  }

  lemma ParseUnsigned(d: string, lo: int, hi: int)
    requires d != [] && AllDigits(d) && lo <= DigitsValue(d) <= hi
    ensures ParseTrimmed(d, lo, hi) == Ok(DigitsValue(d))
  {
    assert IsDigit(d[0]);
  }

  lemma IntToStringTrimmed(n: int)
    ensures TrimEndWhite(TrimStartWhite(IntToString(n))) == IntToString(n)
  {
    var s := IntToString(n);
    var d := NatToString(if n < 0 then -n else n);
    assert IsDigit(d[0]) && IsDigit(d[|d| - 1]);
    assert s[|s| - 1] == d[|d| - 1];
    assert !IsWhite(s[0]) && !IsWhite(s[|s| - 1]);
    assert TrimStartWhite(s) == s;
  }

  lemma IntToStringInjective(m: int, n: int)
    requires IntToString(m) == IntToString(n)
    ensures m == n
  {
    var lo := if m < n then m else n;
    var hi := if m < n then n else m;
    IntToStringParses(m, lo, hi);
    IntToStringParses(n, lo, hi);
  }
}
