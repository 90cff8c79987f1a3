/** String helpers shared by the debugger models: decimal text of numbers as
    JavaScript's `String(n)` writes integers, JavaScript's `trim`, `split` on one
    separator character, `path.basename`, and the quoting of `JSON.stringify`. */
module Text {

  predicate IsDigit(c: char) {
    '0' <= c <= '9'
  }

  function DigitChar(d: nat): (c: char)
    requires d < 10
    ensures IsDigit(c) && DigitValue(c) == d
  {
    ['0', '1', '2', '3', '4', '5', '6', '7', '8', '9'][d]
  }

  function DigitValue(c: char): nat
    requires IsDigit(c)
  {
    (c as int - '0' as int) as nat
  }

  predicate AllDigits(s: string) {
    forall i :: 0 <= i < |s| ==> IsDigit(s[i])
  }

  /** Value of a run of decimal digits, most significant first. */
  function DigitsValue(s: string): nat
    requires AllDigits(s)
  {
    if s == [] then 0 else DigitsValue(s[..|s| - 1]) * 10 + DigitValue(s[|s| - 1])
  }

  /** Decimal text of a natural number, without leading zeros. */
  function NatText(n: nat): (r: string)
    ensures |r| >= 1 && AllDigits(r)
    ensures r[0] == '0' ==> n == 0
  {
    if n < 10 then [DigitChar(n)] else NatText(n / 10) + [DigitChar(n % 10)]
  }

  lemma {:induction false} NatTextRoundTrip(n: nat)
    ensures DigitsValue(NatText(n)) == n
  {
    if n >= 10 {
      var r := NatText(n);
      NatTextRoundTrip(n / 10);
      assert r[..|r| - 1] == NatText(n / 10);
    }
  }

  /** Two naturals with the same decimal text are equal. */
  lemma NatTextInjective(m: nat, n: nat)
    requires NatText(m) == NatText(n)
    ensures m == n
  {
    NatTextRoundTrip(m);
    NatTextRoundTrip(n);
  }

  /** Decimal text of an integer, with a leading '-' when negative. */
  function IntText(i: int): (r: string)
    ensures i >= 0 ==> r == NatText(i)
    ensures i < 0 ==> r == "-" + NatText(-i)
  {
    if i < 0 then "-" + NatText(-i) else NatText(i)
  }

  /** Reads back the text `IntText` writes: an optional '-' and digits. */
  function IntValue(t: string): int
    requires t != [] && t[0] == '-' ==> AllDigits(t[1..])
    requires t == [] || t[0] != '-' ==> AllDigits(t)
  {
    if t != [] && t[0] == '-' then -(DigitsValue(t[1..]) as int) else DigitsValue(t)
  }

  lemma IntTextRoundTrip(i: int)
    ensures var t := IntText(i);
            && (t != [] && t[0] == '-' ==> AllDigits(t[1..]))
            && (t == [] || t[0] != '-' ==> AllDigits(t))
            && IntValue(t) == i
  {
    var t := IntText(i);
    if i < 0 {
      var d := NatText(-i);
      NatTextRoundTrip(-i);
      assert t == "-" + d;
      assert t[0] == '-' && t[1..] == d;
    } else {
      NatTextRoundTrip(i);
      assert IsDigit(t[0]);
    }
  }

  /** The characters of `s` before its first `c`, or all of `s`. */
  function UpTo(s: string, c: char): (r: string)
    ensures |r| <= |s| && r == s[..|r|] && c !in r
    ensures |r| < |s| ==> s[|r|] == c
  {
    if s == [] || s[0] == c then [] else [s[0]] + UpTo(s[1..], c)
  }

  /** The text before a marker character is recovered exactly. */
  lemma UpToMarker(a: string, b: string, c: char)
    requires c !in a && b != [] && b[0] == c
    ensures UpTo(a + b, c) == a
  {
    var r := UpTo(a + b, c);
    assert r == (a + b)[..|a|];
  }

  /** The characters JavaScript's `String.prototype.trim` removes: the
      WhiteSpace and LineTerminator code points of ECMAScript. */
  predicate IsJsSpace(c: char) {
    c == ' ' || c == '\t' || c == '\n' || c == '\r' || c == '\U{000B}' || c == '\U{000C}' ||
    c == '\U{00A0}' || c == '\U{1680}' || ('\U{2000}' <= c <= '\U{200A}') ||
    c == '\U{2028}' || c == '\U{2029}' || c == '\U{202F}' || c == '\U{205F}' ||
    c == '\U{3000}' || c == '\U{FEFF}'
  }

  predicate IsBlank(s: string) {
    forall i :: 0 <= i < |s| ==> IsJsSpace(s[i])
  }

  lemma BlankCons(c: char, t: string)
    requires IsJsSpace(c) && IsBlank(t)
    ensures IsBlank([c] + t)
  {
    forall i | 0 <= i < |[c] + t| ensures IsJsSpace(([c] + t)[i]) {
      if i > 0 {
        assert ([c] + t)[i] == t[i - 1];
      }
    }
  }

  function TrimStart(s: string): (r: string)
    ensures |r| <= |s| && r == s[|s| - |r|..]
    ensures r == [] || !IsJsSpace(r[0])
    ensures IsBlank(s[..|s| - |r|])
  {
    if s != [] && IsJsSpace(s[0]) then
      var r := TrimStart(s[1..]);
      BlankCons(s[0], s[1..][..|s| - 1 - |r|]);
      assert s[..|s| - |r|] == [s[0]] + s[1..][..|s| - 1 - |r|];
      r
    else s
  }

  function TrimEnd(s: string): (r: string)
    ensures |r| <= |s| && r == s[..|r|]
    ensures r == [] || !IsJsSpace(r[|r| - 1])
    ensures IsBlank(s[|r|..])
  {
    if s != [] && IsJsSpace(s[|s| - 1]) then TrimEnd(s[..|s| - 1]) else s
  }

  /** `s.trim()`: the longest infix with no surrounding white space. */
  function Trim(s: string): string {
    TrimEnd(TrimStart(s))
  }

  /** `!s.trim()` in JavaScript: the trimmed text is empty exactly when the
      whole line is white space. */
  lemma TrimEmptyIffBlank(s: string)
    ensures Trim(s) == [] <==> IsBlank(s)
  {
    if Trim(s) == [] {
      assert s[..|s|] == s;
    }
  }

  /** White space around a text does not change what `trim` returns. */
  lemma TrimIgnoresPadding(p: string, e: string, q: string)
    requires IsBlank(p) && IsBlank(q)
    ensures Trim(p + e + q) == Trim(e)
  {
    assert p + e + q == p + (e + q);
    TrimStartBlankPrefix(p, e + q);
    if IsBlank(e) {
      TrimStartBlank(e + q);
      TrimStartBlank(e);
    } else {
      TrimStartAppend(e, q);
      TrimEndBlankSuffix(TrimStart(e), q);
    }
  }

  lemma TrimStartBlank(x: string)
    requires IsBlank(x)
    ensures TrimStart(x) == []
  {
  }

  lemma {:induction false} TrimStartBlankPrefix(p: string, x: string)
    requires IsBlank(p)
    ensures TrimStart(p + x) == TrimStart(x)
  {
    if p == [] {
      assert p + x == x;
    } else {
      assert (p + x)[0] == p[0] && (p + x)[1..] == p[1..] + x;
      TrimStartBlankPrefix(p[1..], x);
    }
  }

  lemma {:induction false} TrimStartAppend(e: string, q: string)
    requires !IsBlank(e)
    ensures TrimStart(e + q) == TrimStart(e) + q
  {
    if IsJsSpace(e[0]) {
      assert (e + q)[1..] == e[1..] + q;
      TrimStartAppend(e[1..], q);
    }
  }

  lemma {:induction false} TrimEndBlankSuffix(x: string, q: string)
    requires IsBlank(q)
    ensures TrimEnd(x + q) == TrimEnd(x)
  {
    if q != [] {
      assert (x + q)[..|x + q| - 1] == x + q[..|q| - 1];
      TrimEndBlankSuffix(x, q[..|q| - 1]);
    } else {
      assert x + q == x;
    }
  }

  /** `s.split(sep)` for a one-character separator: the pieces between
      separators, always at least one. */
  function Split(s: string, sep: char): (r: seq<string>)
    ensures |r| >= 1
  {
    if s == [] then [[]]
    else if s[0] == sep then [[]] + Split(s[1..], sep)
    else var rest := Split(s[1..], sep); [[s[0]] + rest[0]] + rest[1..]
  }

  /** `parts.join(sep)`. */
  function Join(parts: seq<string>, sep: char): string {
    if parts == [] then []
    else if |parts| == 1 then parts[0]
    else parts[0] + [sep] + Join(parts[1..], sep)
  }

  /** Joining the pieces of a split with the same separator gives back the input. */
  lemma {:induction false} JoinSplit(s: string, sep: char)
    ensures Join(Split(s, sep), sep) == s
  {
    if s != [] {
      var rest := Split(s[1..], sep);
      JoinSplit(s[1..], sep);
      if s[0] == sep {
        assert s == [sep] + s[1..];
      } else if |rest| > 1 {
        assert Split(s, sep)[1..] == rest[1..];
        assert s == [s[0]] + (rest[0] + [sep] + Join(rest[1..], sep));
      }
    }
  }

  /** No piece of a split contains the separator. */
  lemma {:induction false} SplitPiecesFree(s: string, sep: char)
    ensures forall k :: 0 <= k < |Split(s, sep)| ==> sep !in Split(s, sep)[k]
  {
    if s != [] {
      SplitPiecesFree(s[1..], sep);
    }
  }

  /** Every character of a piece comes from the split text. */
  lemma {:induction false} SplitPiecesFrom(s: string, sep: char)
    ensures forall k, c :: 0 <= k < |Split(s, sep)| && c in Split(s, sep)[k] ==> c in s
  {
    if s != [] {
      var rest := Split(s[1..], sep);
      SplitPiecesFrom(s[1..], sep);
      forall k, c | 0 <= k < |Split(s, sep)| && c in Split(s, sep)[k] ensures c in s {
        if s[0] == sep {
          assert c in rest[k - 1];
        } else if k == 0 && c != s[0] {
          assert c in rest[0];
        } else if k > 0 {
          assert c in rest[k];
        }
        assert s == [s[0]] + s[1..];
      }
    }
  }

  /** Splitting a concatenation: the complete pieces of the first part come
      first, and its trailing partial piece is continued by the second part. */
  lemma {:induction false} SplitAppend(a: string, b: string, sep: char)
    ensures var sa := Split(a, sep);
            Split(a + b, sep) == sa[..|sa| - 1] + Split(sa[|sa| - 1] + b, sep)
  {
    if a == [] {
      assert a + b == b;
    } else {
      assert (a + b)[1..] == a[1..] + b;
      SplitAppend(a[1..], b, sep);
      if a[0] != sep {
        SplitAppendCons(a, b, sep);
      } else {
        SplitAppendSep(a, b, sep);
      }
    }
  }

  /** The step of SplitAppend where the first character is not a separator. */
  lemma SplitAppendCons(a: string, b: string, sep: char)
    requires a != [] && a[0] != sep
    requires var sr := Split(a[1..], sep);
             Split(a[1..] + b, sep) == sr[..|sr| - 1] + Split(sr[|sr| - 1] + b, sep)
    ensures var sa := Split(a, sep);
            Split(a + b, sep) == sa[..|sa| - 1] + Split(sa[|sa| - 1] + b, sep)
  {
    var sr := Split(a[1..], sep);
    SplitCons(a + b, sep);
    assert (a + b)[0] == a[0] && (a + b)[1..] == a[1..] + b;
    SplitCons(a, sep);
    if |sr| == 1 {
      var first := [a[0]] + sr[0];
      SplitCons(first + b, sep);
      assert (first + b)[0] == a[0] && (first + b)[1..] == sr[0] + b;
    } else {
      ReplaceHead([a[0]] + sr[0], sr, Split(sr[|sr| - 1] + b, sep));
    }
  }

  lemma ReplaceHead(h: string, sr: seq<string>, y: seq<string>)
    requires |sr| >= 2
    ensures var r := sr[..|sr| - 1] + y;
            var sa := [h] + sr[1..];
            && r[0] == sr[0]
            && [h] + r[1..] == sa[..|sa| - 1] + y
            && sa[|sa| - 1] == sr[|sr| - 1]
  {
    var r := sr[..|sr| - 1] + y;
    var sa := [h] + sr[1..];
    assert r[1..] == sr[1..|sr| - 1] + y;
    assert sa[..|sa| - 1] == [h] + sr[1..|sr| - 1];
  }

  /** The step of SplitAppend where the first character is the separator. */
  lemma SplitAppendSep(a: string, b: string, sep: char)
    requires a != [] && a[0] == sep
    requires var sr := Split(a[1..], sep);
             Split(a[1..] + b, sep) == sr[..|sr| - 1] + Split(sr[|sr| - 1] + b, sep)
    ensures var sa := Split(a, sep);
            Split(a + b, sep) == sa[..|sa| - 1] + Split(sa[|sa| - 1] + b, sep)
  {
    var sr := Split(a[1..], sep);
    SplitSepCons(a, sep);
    SplitSepCons(a + b, sep);
    assert (a + b)[1..] == a[1..] + b;
    PrependKeepsLast([], sr, Split(sr[|sr| - 1] + b, sep));
  }

  /** Unfolding Split at a separator. */
  lemma SplitSepCons(s: string, sep: char)
    requires s != [] && s[0] == sep
    ensures Split(s, sep) == [[]] + Split(s[1..], sep)
  {
  }

  lemma PrependKeepsLast(h: string, sr: seq<string>, y: seq<string>)
    requires |sr| >= 1
    ensures var sa := [h] + sr;
            && [h] + (sr[..|sr| - 1] + y) == sa[..|sa| - 1] + y
            && sa[|sa| - 1] == sr[|sr| - 1]
  {
    var sa := [h] + sr;
    assert sa[..|sa| - 1] == [h] + sr[..|sr| - 1];
  }

  /** Unfolding Split at a first character that is not the separator. */
  lemma SplitCons(s: string, sep: char)
    requires s != [] && s[0] != sep
    ensures var rest := Split(s[1..], sep);
            Split(s, sep) == [[s[0]] + rest[0]] + rest[1..]
  {
  }

  /** `path.basename` of an absolute POSIX path: the part after the last '/'. */
  function Basename(p: string): string {
    if p == [] then []
    else if p[|p| - 1] == '/' then []
    else Basename(p[..|p| - 1]) + [p[|p| - 1]]
  }

  /** The basename is the suffix of the path after its last '/', or the whole
      path when it has none. */
  lemma {:induction false} BasenameIsLastSegment(p: string)
    ensures var r := Basename(p);
            && '/' !in r
            && |r| <= |p| && r == p[|p| - |r|..]
            && (|r| < |p| ==> p[|p| - |r| - 1] == '/')
  {
    if p != [] && p[|p| - 1] != '/' {
      var q := p[..|p| - 1];
      var c := p[|p| - 1];
      BasenameIsLastSegment(q);
      var rq := Basename(q);
      var r := rq + [c];
      assert Basename(p) == r;
      assert p == q + [c];
      assert '/' !in r by {
        assert forall x :: x in r ==> x in rq || x == c;
      }
      assert r == p[|p| - |r|..] by {
        assert rq == q[|q| - |rq|..];
      }
      if |r| < |p| {
        assert p[|p| - |r| - 1] == q[|q| - |rq| - 1];
      }
    }
  }

  function HexDigit(d: nat): char
    requires d < 16
  {
    "0123456789abcdef"[d]
  }

  /** One character as `JSON.stringify` writes it inside a string literal. */
  function JsonEscapeChar(c: char): string {
    if c == '"' then "\\\""
    else if c == '\\' then "\\\\"
    else if c == '\n' then "\\n"
    else if c == '\r' then "\\r"
    else if c == '\t' then "\\t"
    else if c == '\U{0008}' then "\\b"
    else if c == '\U{000C}' then "\\f"
    else if (c as int) < 0x20 then "\\u00" + [HexDigit(c as int / 16), HexDigit(c as int % 16)]
    else [c]
  }

  function JsonEscape(s: string): string {
    if s == [] then [] else JsonEscapeChar(s[0]) + JsonEscape(s[1..])
  }

  /** `JSON.stringify(s)` for a string: the escaped text between double quotes. */
  function JsonQuote(s: string): (r: string)
    ensures |r| >= 2 && r[0] == '"' && r[|r| - 1] == '"'
  {
    "\"" + JsonEscape(s) + "\""
  }

  // ---- Reading a JSON string literal back ----

  predicate IsHexChar(c: char) {
    '0' <= c <= '9' || 'a' <= c <= 'f' || 'A' <= c <= 'F'
  }

  function HexValue(c: char): (v: nat)
    requires IsHexChar(c)
    ensures v < 16
  {
    if '0' <= c <= '9' then c as int - '0' as int
    else if 'a' <= c <= 'f' then c as int - 'a' as int + 10
    else c as int - 'A' as int + 10
  }

  lemma HexValueOfDigit(d: nat)
    requires d < 16
    ensures IsHexChar(HexDigit(d)) && HexValue(HexDigit(d)) == d
  {
  }

  /** A character JSON allows unescaped inside a string literal. */
  predicate IsPlainJsonChar(c: char) {
    c != '"' && c != '\\' && c as int >= 0x20
  }

  /** The letters after a backslash in a two-character escape. */
  predicate IsShortEscape(c: char) {
    c == '"' || c == '\\' || c == 'n' || c == 'r' || c == 't' || c == 'b' || c == 'f'
  }

  function ShortEscapeValue(c: char): char
    requires IsShortEscape(c)
  {
    if c == 'n' then '\n' else if c == 'r' then '\r' else if c == 't' then '\t'
    else if c == 'b' then '\U{0008}' else if c == 'f' then '\U{000C}' else c
  }

  /** Whether `t[..6]` is a `\uXXXX` escape. */
  predicate IsUnicodeEscape(t: string) {
    |t| >= 6 && t[0] == '\\' && t[1] == 'u' && IsHexChar(t[2]) && IsHexChar(t[3]) && IsHexChar(t[4]) && IsHexChar(t[5])
  }

  function UnicodeEscapeValue(t: string): nat
    requires IsUnicodeEscape(t)
  {
    ((HexValue(t[2]) * 16 + HexValue(t[3])) * 16 + HexValue(t[4])) * 16 + HexValue(t[5])
  }

  /** The text between the quotes of a JSON string literal: plain characters,
      two-character escapes and `\uXXXX` escapes, nothing else. In
      particular no `"`, no control character and no lone backslash. */
  predicate WellEscaped(t: string)
    decreases |t|
  {
    t == [] ||
    (IsPlainJsonChar(t[0]) && WellEscaped(t[1..])) ||
    (|t| >= 2 && t[0] == '\\' && IsShortEscape(t[1]) && WellEscaped(t[2..])) ||
    (IsUnicodeEscape(t) && WellEscaped(t[6..]))
  }

  /** The characters a well-escaped text stands for. */
  function JsonUnescape(t: string): string
    decreases |t|
  {
    if t == [] then []
    else if |t| >= 2 && t[0] == '\\' && IsShortEscape(t[1]) then [ShortEscapeValue(t[1])] + JsonUnescape(t[2..])
    else if IsUnicodeEscape(t) && UnicodeEscapeValue(t) < 0xD800 then
      [UnicodeEscapeValue(t) as char] + JsonUnescape(t[6..])
    else [t[0]] + JsonUnescape(t[1..])
  }

  /** One escaped character followed by well-escaped text is well escaped,
      and reads back as that character followed by the text's reading. */
  lemma JsonEscapeCharThen(c: char, rest: string)
    requires WellEscaped(rest)
    ensures WellEscaped(JsonEscapeChar(c) + rest)
    ensures JsonUnescape(JsonEscapeChar(c) + rest) == [c] + JsonUnescape(rest)
  {
    if c == '"' || c == '\\' || c == '\n' || c == '\r' || c == '\t' || c == '\U{0008}' || c == '\U{000C}' {
      var x := JsonEscapeChar(c)[1];
      assert JsonEscapeChar(c) == ['\\', x];
      ShortEscapeThen(x, rest);
    } else if (c as int) < 0x20 {
      UnicodeEscapeThen(c, rest);
    } else {
      var t := [c] + rest;
      assert t[0] == c && t[1..] == rest;
    }
  }

  lemma ShortEscapeThen(x: char, rest: string)
    requires IsShortEscape(x) && WellEscaped(rest)
    ensures WellEscaped(['\\', x] + rest)
    ensures JsonUnescape(['\\', x] + rest) == [ShortEscapeValue(x)] + JsonUnescape(rest)
  {
    var t := ['\\', x] + rest;
    assert t[0] == '\\' && t[1] == x && t[2..] == rest;
  }

  lemma UnicodeEscapeThen(c: char, rest: string)
    requires (c as int) < 0x20 && WellEscaped(rest)
    requires c != '\n' && c != '\r' && c != '\t' && c != '\U{0008}' && c != '\U{000C}'
    ensures WellEscaped(JsonEscapeChar(c) + rest)
    ensures JsonUnescape(JsonEscapeChar(c) + rest) == [c] + JsonUnescape(rest)
  {
    var d := c as int;
    var e := "\\u00" + [HexDigit(d / 16), HexDigit(d % 16)];
    assert JsonEscapeChar(c) == e;
    HexValueOfDigit(d / 16);
    HexValueOfDigit(d % 16);
    var t := e + rest;
    assert t[0] == '\\' && t[1] == 'u' && t[2] == '0' && t[3] == '0';
    assert t[4] == HexDigit(d / 16) && t[5] == HexDigit(d % 16);
    assert UnicodeEscapeValue(t) == d;
    assert t[6..] == rest;
  }

  /** The escaped text of any string is well escaped and reads back as the
      string. */
  lemma {:induction false} JsonEscapeRoundTrip(s: string)
    ensures WellEscaped(JsonEscape(s)) && JsonUnescape(JsonEscape(s)) == s
  {
    if s == [] {
    } else {
      JsonEscapeRoundTrip(s[1..]);
      JsonEscapeCharThen(s[0], JsonEscape(s[1..]));
      assert s == [s[0]] + s[1..];
    }
  }

  /** `JSON.stringify` of a string: between the quotes, every `"`, backslash
      and control character is escaped, and reading the literal back gives
      the string. */
  lemma JsonQuoteRoundTrip(s: string)
    ensures var r := JsonQuote(s);
            && WellEscaped(r[1..|r| - 1])
            && JsonUnescape(r[1..|r| - 1]) == s
  {
    var r := JsonQuote(s);
    assert r[1..|r| - 1] == JsonEscape(s);
    JsonEscapeRoundTrip(s);
  }

  /** `s` has `sub` at position `i`. */
  predicate OccursAt(s: string, sub: string, i: nat) {
    i + |sub| <= |s| && s[i..i + |sub|] == sub
  }
}
