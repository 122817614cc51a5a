/** The LIKE-pattern checks of the forward translator. After one leading and one trailing `%`
    are stripped, the rest of a LIKE value may hold wildcard characters only in their escaped
    forms `[%]`, `[_]` and `[[]`; these are then replaced by the plain characters. */
module LikeWildcards {
  import opened Text

  /** The characters with a meaning in a LIKE pattern. */
  predicate IsSpecial(c: char) {
    c == '%' || c == '_' || c == '[' || c == ']'
  }

  /** The characters the scan accepts between brackets. */
  predicate IsBracketable(c: char) {
    c == '%' || c == '_' || c == '['
  }

  predicate AllBracketable(s: string) {
    forall i :: 0 <= i < |s| ==> IsBracketable(s[i])
  }

  predicate NoSpecial(s: string) {
    forall i :: 0 <= i < |s| ==> !IsSpecial(s[i])
  }

  /** The strings the scan accepts: a sequence of plain characters, `[]` and `[w]` with `w`
      one of `% _ [`, optionally ended by an unclosed `[` followed only by such characters. */
  predicate WildcardsEscaped(s: string)
    decreases |s|
  {
    if s == [] then true
    else if !IsSpecial(s[0]) then WildcardsEscaped(s[1..])
    else if s[0] != '[' then false
    else if |s| >= 2 && s[1] == ']' then WildcardsEscaped(s[2..])
    else if |s| >= 3 && IsBracketable(s[1]) && s[2] == ']' then WildcardsEscaped(s[3..])
    else AllBracketable(s[1..])
  }

  /** What the scan concludes from position `k` of a string that opens a bracket at 0. */
  lemma BracketScan(t: string, k: nat)
    requires 1 <= k <= |t| && t[0] == '[' && AllBracketable(t[1..k])
    ensures k == |t| ==> WildcardsEscaped(t)
    ensures k < |t| && !IsSpecial(t[k]) ==> !WildcardsEscaped(t)
    ensures k < |t| && t[k] == ']' && k > 2 ==> !WildcardsEscaped(t)
    ensures k < |t| && t[k] == ']' && k <= 2 ==> WildcardsEscaped(t) == WildcardsEscaped(t[k + 1..])
  {
    if k < |t| && (!IsSpecial(t[k]) || t[k] == ']') {
      assert t[1..][k - 1] == t[k];
      if k == 2 {
        assert t[1..k][0] == t[1];
      }
    } else if k == |t| {
      assert t[1..] == t[1..k];
      if |t| >= 2 {
        assert t[1..k][0] == t[1];
      }
      if |t| >= 3 {
        assert t[1..k][1] == t[2];
      }
    }
  }

  /** `AreAllLikeWildcardsEscaped(value)`: a scan that remembers where the open bracket started. */
  method AreAllLikeWildcardsEscaped(value: string) returns (ok: bool)
    ensures ok == WildcardsEscaped(value)
  {
    var bracketStart := -1;
    var i := 0;
    while i < |value|
      invariant 0 <= i <= |value|
      invariant -1 <= bracketStart < i
      invariant bracketStart == -1 ==> WildcardsEscaped(value) == WildcardsEscaped(value[i..])
      invariant bracketStart != -1 ==>
        value[bracketStart] == '[' && AllBracketable(value[bracketStart + 1..i])
        && WildcardsEscaped(value) == WildcardsEscaped(value[bracketStart..])
    {
      var ch := value[i];
      if !IsSpecial(ch) {
        if bracketStart != -1 {
          BracketScanAt(value, bracketStart, i);
          return false;
        }
        PlainStep(value, i);
        i := i + 1;
        continue;
      }
      if bracketStart == -1 {
        if ch == '[' {
          bracketStart := i;
        } else {
          return false;
        }
      }
      if ch == ']' {
        BracketScanAt(value, bracketStart, i);
        if i > bracketStart + 2 {
          return false;
        }
        bracketStart := -1;
      } else if bracketStart < i {
        BracketableStep(value, bracketStart + 1, i);
      }
      i := i + 1;
    }
    if bracketStart != -1 {
      BracketScanAt(value, bracketStart, i);
    }
    ok := true;
  }

  /** `BracketScan` on the part of `value` from an open bracket at `b`, scanned up to `i`. */
  lemma BracketScanAt(value: string, b: int, i: int)
    requires 0 <= b < i <= |value| && value[b] == '[' && AllBracketable(value[b + 1..i])
    ensures i == |value| ==> WildcardsEscaped(value[b..])
    ensures i < |value| && !IsSpecial(value[i]) ==> !WildcardsEscaped(value[b..])
    ensures i < |value| && value[i] == ']' && i > b + 2 ==> !WildcardsEscaped(value[b..])
    ensures i < |value| && value[i] == ']' && i <= b + 2 ==> WildcardsEscaped(value[b..]) == WildcardsEscaped(value[i + 1..])
  {
    var t := value[b..];
    assert t[1..i - b] == value[b + 1..i];
    BracketScan(t, i - b);
    if i < |value| {
      assert t[i - b + 1..] == value[i + 1..];
    }
  }

  lemma PlainStep(value: string, i: int)
    requires 0 <= i < |value| && !IsSpecial(value[i])
    ensures WildcardsEscaped(value[i..]) == WildcardsEscaped(value[i + 1..])
  {
    assert value[i..][1..] == value[i + 1..];
  }

  lemma BracketableStep(value: string, lo: int, i: int)
    requires 0 <= lo <= i < |value| && AllBracketable(value[lo..i]) && IsBracketable(value[i])
    ensures AllBracketable(value[lo..i + 1])
  {
    assert value[lo..i + 1] == value[lo..i] + [value[i]];
  }

  /** The intended meaning of an accepted pattern: each `[w]` stands for the character `w`;
      plain characters, `[]` and an unclosed tail stand for themselves. */
  function Unescaped(s: string): (r: string)
    requires WildcardsEscaped(s)
    decreases |s|
  {
    if s == [] then []
    else if !IsSpecial(s[0]) then [s[0]] + Unescaped(s[1..])
    else if |s| >= 2 && s[1] == ']' then "[]" + Unescaped(s[2..])
    else if |s| >= 3 && IsBracketable(s[1]) && s[2] == ']' then [s[1]] + Unescaped(s[3..])
    else s
  }

  /** `UnescapeLikeWildcards(value)`: three successive replacements. */
  function UnescapeLikeWildcards(value: string): string {
    Replace(Replace(Replace(value, "[_]", "_"), "[%]", "%"), "[[]", "[")
  }

  // ---- the replacements, read as passes over the tokens of an accepted pattern ----

  datatype Token = Char(c: char) | EmptyBrackets | Bracketed(w: char) | OpenTail(ws: string)

  function RenderToken(t: Token): string {
    match t
    case Char(c) => [c]
    case EmptyBrackets => "[]"
    case Bracketed(w) => ['[', w, ']']
    case OpenTail(ws) => ['['] + ws
  }

  function Render(ts: seq<Token>): string {
    if ts == [] then [] else RenderToken(ts[0]) + Render(ts[1..])
  }

  /** Tokens one replacement pass can work on: no literal `[`, bracketed characters that the
      scan accepts, and an unclosed tail only at the end. */
  predicate PassReady(ts: seq<Token>) {
    forall i :: 0 <= i < |ts| ==>
      match ts[i]
      case Char(c) => c != '['
      case EmptyBrackets => true
      case Bracketed(w) => IsBracketable(w)
      case OpenTail(ws) => i == |ts| - 1 && AllBracketable(ws)
  }

  function Decode(t: Token, x: char): Token {
    if t == Bracketed(x) then Char(x) else t
  }

  function DecodeAll(ts: seq<Token>, x: char): (r: seq<Token>)
    ensures |r| == |ts| && forall i :: 0 <= i < |ts| ==> r[i] == Decode(ts[i], x)
  {
    if ts == [] then [] else [Decode(ts[0], x)] + DecodeAll(ts[1..], x)
  }

  /** One replacement pass over the first token and whatever follows it. */
  lemma PassHead(t: Token, rest: string, x: char)
    requires IsBracketable(x)
    requires t.Char? ==> t.c != '['
    requires t.Bracketed? ==> IsBracketable(t.w)
    requires t.OpenTail? ==> rest == [] && AllBracketable(t.ws)
    ensures Replace(RenderToken(t) + rest, ['[', x, ']'], [x])
         == RenderToken(Decode(t, x)) + Replace(rest, ['[', x, ']'], [x])
  {
    var pat: string := ['[', x, ']'];
    match t
    case Char(c) =>
      ReplaceCons(c, rest, pat, [x]);
    case EmptyBrackets =>
      PassEmptyBrackets(rest, x);
    case Bracketed(w) =>
      if w == x {
        ReplaceHit(rest, pat, [x]);
      } else {
        PassOtherBracketed(w, rest, x);
      }
    case OpenTail(ws) =>
      assert RenderToken(t) + rest == ['['] + ws;
      ReplaceAbsentLast(['['] + ws, pat, [x]);
  }

  /** A pass copies `[]`. */
  lemma PassEmptyBrackets(rest: string, x: char)
    requires IsBracketable(x)
    ensures Replace("[]" + rest, ['[', x, ']'], [x]) == "[]" + Replace(rest, ['[', x, ']'], [x])
  {
    var pat: string := ['[', x, ']'];
    assert "[]" + rest == ['[', ']'] + rest;
    PassMissAt1(']', rest, x);
    ReplaceCons(']', rest, pat, [x]);
    assert ['['] + ([']'] + Replace(rest, pat, [x])) == "[]" + Replace(rest, pat, [x]);
  }

  /** A pass copies a bracketed character other than its own. */
  lemma PassOtherBracketed(w: char, rest: string, x: char)
    requires IsBracketable(x) && IsBracketable(w) && w != x
    ensures Replace(['[', w, ']'] + rest, ['[', x, ']'], [x]) == ['[', w, ']'] + Replace(rest, ['[', x, ']'], [x])
  {
    var pat: string := ['[', x, ']'];
    var tail := [']'] + rest;
    var after := Replace(rest, pat, [x]);
    ReplaceCons(']', rest, pat, [x]);
    SecondCopied(w, tail, x);
    PassMissAt1(w, tail, x);
    Regroup(w, rest);
    Regroup(w, after);
  }

  lemma Regroup(w: char, s: string)
    ensures ['[', w] + ([']'] + s) == ['[', w, ']'] + s == ['['] + ([w] + ([']'] + s))
  {
  }

  /** The character after a `[` that is not followed by `x` is copied too. */
  lemma SecondCopied(w: char, tail: string, x: char)
    requires tail != [] && tail[0] == ']' && x != ']' && w != x
    ensures Replace([w] + tail, ['[', x, ']'], [x]) == [w] + Replace(tail, ['[', x, ']'], [x])
  {
    var pat: string := ['[', x, ']'];
    if w == '[' {
      assert [w] + tail == ['[', tail[0]] + tail[1..];
      PassMissAt1(tail[0], tail[1..], x);
      assert [tail[0]] + tail[1..] == tail;
    } else {
      ReplaceCons(w, tail, pat, [x]);
    }
  }

  /** A `[` followed by anything but `x` is copied by the pass. */
  lemma PassMissAt1(y: char, rest: string, x: char)
    requires y != x
    ensures Replace(['[', y] + rest, ['[', x, ']'], [x]) == ['['] + Replace([y] + rest, ['[', x, ']'], [x])
  {
    var s := ['[', y] + rest;
    assert s[0] == '[' && s[1] == y;
    ReplaceMissAt1(s, ['[', x, ']'], [x]);
    assert s[1..] == [y] + rest;
  }

  /** One replacement of `[x]` by `x` decodes exactly the `[x]` tokens. */
  lemma {:induction false} ReplacePass(ts: seq<Token>, x: char)
    requires IsBracketable(x) && PassReady(ts)
    ensures Replace(Render(ts), ['[', x, ']'], [x]) == Render(DecodeAll(ts, x))
  {
    if ts != [] {
      var rest := Render(ts[1..]);
      assert PassReady(ts[1..]) by {
        forall i | 0 <= i < |ts[1..]| ensures ts[1..][i] == ts[i + 1] { }
      }
      ReplacePass(ts[1..], x);
      assert ts[0].OpenTail? ==> |ts| == 1 && rest == [];
      PassHead(ts[0], rest, x);
      assert DecodeAll(ts, x)[1..] == DecodeAll(ts[1..], x);
    }
  }

  /** The tokens of an accepted pattern. */
  function Tokenize(s: string): (ts: seq<Token>)
    requires WildcardsEscaped(s)
    ensures Render(ts) == s
    ensures PassReady(ts)
    decreases |s|
  {
    if s == [] then []
    else if !IsSpecial(s[0]) then
      ReadyCons(Char(s[0]), Tokenize(s[1..]));
      assert s == [s[0]] + s[1..];
      [Char(s[0])] + Tokenize(s[1..])
    else if |s| >= 2 && s[1] == ']' then
      ReadyCons(EmptyBrackets, Tokenize(s[2..]));
      assert s == "[]" + s[2..];
      [EmptyBrackets] + Tokenize(s[2..])
    else if |s| >= 3 && IsBracketable(s[1]) && s[2] == ']' then
      ReadyCons(Bracketed(s[1]), Tokenize(s[3..]));
      assert s == ['[', s[1], ']'] + s[3..];
      [Bracketed(s[1])] + Tokenize(s[3..])
    else
      assert Render([OpenTail(s[1..])]) == ['['] + s[1..];
      [OpenTail(s[1..])]
  }

  /** A token that may start a ready sequence keeps it ready. */
  lemma ReadyCons(t: Token, ts: seq<Token>)
    requires PassReady(ts) && !t.OpenTail?
    requires t.Char? ==> t.c != '['
    requires t.Bracketed? ==> IsBracketable(t.w)
    ensures PassReady([t] + ts)
    ensures Render([t] + ts) == RenderToken(t) + Render(ts)
  {
    var r := [t] + ts;
    assert r[1..] == ts;
    forall i | 1 <= i < |r|
      ensures r[i] == ts[i - 1]
    {
    }
  }

  lemma DecodePreservesReady(ts: seq<Token>, x: char)
    requires PassReady(ts) && x != '['
    ensures PassReady(DecodeAll(ts, x))
  {
  }

  lemma {:induction false} DecodedTokensAreUnescaped(s: string)
    requires WildcardsEscaped(s)
    ensures Render(DecodeAll(DecodeAll(DecodeAll(Tokenize(s), '_'), '%'), '[')) == Unescaped(s)
    decreases |s|
  {
    var ts := Tokenize(s);
    if s != [] {
      var d := DecodeAll(DecodeAll(DecodeAll(ts, '_'), '%'), '[');
      var tail := if !IsSpecial(s[0]) then s[1..] else if |s| >= 2 && s[1] == ']' then s[2..]
        else if |s| >= 3 && IsBracketable(s[1]) && s[2] == ']' then s[3..] else [];
      if |ts| > 1 || tail != [] {
        if !IsSpecial(s[0]) || (|s| >= 2 && s[1] == ']') || (|s| >= 3 && IsBracketable(s[1]) && s[2] == ']') {
          DecodedTokensAreUnescaped(tail);
          assert d[1..] == DecodeAll(DecodeAll(DecodeAll(Tokenize(tail), '_'), '%'), '[');
        }
      }
    }
  }

  /** The three replacements decode an accepted pattern exactly as `Unescaped` says. */
  lemma UnescapeDecodesAcceptedPatterns(s: string)
    requires WildcardsEscaped(s)
    ensures UnescapeLikeWildcards(s) == Unescaped(s)
  {
    var ts0 := Tokenize(s);
    ReplacePass(ts0, '_');
    var ts1 := DecodeAll(ts0, '_');
    DecodePreservesReady(ts0, '_');
    ReplacePass(ts1, '%');
    var ts2 := DecodeAll(ts1, '%');
    DecodePreservesReady(ts1, '%');
    ReplacePass(ts2, '[');
    DecodedTokensAreUnescaped(s);
  }

  // ---- consequences for patterns the translator meets ----

  lemma {:induction false} PlainPrefix(p: string, t: string)
    requires NoSpecial(p)
    ensures WildcardsEscaped(p + t) == WildcardsEscaped(t)
    ensures WildcardsEscaped(t) ==> Unescaped(p + t) == p + Unescaped(t)
  {
    if p != [] {
      var pt := p + t;
      assert pt[0] == p[0] && !IsSpecial(pt[0]);
      assert pt[1..] == p[1..] + t;
      PlainPrefix(p[1..], t);
      assert WildcardsEscaped(pt) == WildcardsEscaped(pt[1..]);
      if WildcardsEscaped(t) {
        assert Unescaped(pt) == [p[0]] + Unescaped(pt[1..]);
        assert [p[0]] + (p[1..] + Unescaped(t)) == p + Unescaped(t);
      }
    } else {
      assert p + t == t;
    }
  }

  /** A value without `% _ [ ]` is accepted and left unchanged. */
  lemma PlainAccepted(s: string)
    requires NoSpecial(s)
    ensures WildcardsEscaped(s)
    ensures UnescapeLikeWildcards(s) == s
  {
    PlainPrefix(s, []);
    assert s + [] == s;
    ReplaceAbsent(s, "[_]", "_");
    ReplaceAbsent(s, "[%]", "%");
    ReplaceAbsent(s, "[[]", "[");
  }

  /** `%`, `_` or `]` outside brackets is rejected. */
  lemma BareWildcardRejected(p: string, c: char, q: string)
    requires NoSpecial(p) && (c == '%' || c == '_' || c == ']')
    ensures !WildcardsEscaped(p + [c] + q)
  {
    PlainPrefix(p, [c] + q);
    assert p + [c] + q == p + ([c] + q);
  }

  /** A character other than `% _ [` directly after `[` is rejected. */
  lemma NonWildcardInBracketRejected(p: string, x: char, q: string)
    requires NoSpecial(p) && !IsSpecial(x)
    ensures !WildcardsEscaped(p + ['[', x] + q)
  {
    var t := ['[', x] + q;
    PlainPrefix(p, t);
    assert p + ['[', x] + q == p + t;
    assert t[1..][0] == x;
  }

  /** A bracket holding two characters is rejected. */
  lemma WideBracketRejected(p: string, w1: char, w2: char, q: string)
    requires NoSpecial(p) && IsBracketable(w1) && IsBracketable(w2)
    ensures !WildcardsEscaped(p + ['[', w1, w2, ']'] + q)
  {
    var t := ['[', w1, w2, ']'] + q;
    PlainPrefix(p, t);
    assert p + ['[', w1, w2, ']'] + q == p + t;
    assert t[1..][2] == ']';
  }

  /** An escaped wildcard is accepted and decoded to the bare character. */
  lemma EscapedWildcardDecoded(p: string, w: char, q: string)
    requires NoSpecial(p) && IsBracketable(w) && WildcardsEscaped(q)
    ensures WildcardsEscaped(p + ['[', w, ']'] + q)
    ensures UnescapeLikeWildcards(p + ['[', w, ']'] + q) == p + [w] + Unescaped(q)
  {
    var t := ['[', w, ']'] + q;
    BracketedHead(w, q);
    PlainPrefix(p, t);
    assert p + ['[', w, ']'] + q == p + t;
    UnescapeDecodesAcceptedPatterns(p + t);
    assert p + ([w] + Unescaped(q)) == p + [w] + Unescaped(q);
  }

  lemma BracketedHead(w: char, q: string)
    requires IsBracketable(w) && WildcardsEscaped(q)
    ensures WildcardsEscaped(['[', w, ']'] + q) && Unescaped(['[', w, ']'] + q) == [w] + Unescaped(q)
  {
    assert (['[', w, ']'] + q)[3..] == q;
  }
}
