/** Character and string helpers that stand in for the JavaScript string
    built-ins the application relies on: `split`, `trim`, `includes`,
    `toLowerCase`, `padStart`, the decimal rendering of integers and `Number()`
    on integral text, and `Math.round`. */
module Text {
  import opened Options

  // ---------------------------------------------------------------------
  // Decimal digits and the rendering of integers (Number.prototype.toString)
  // ---------------------------------------------------------------------

  predicate IsDigit(c: char) { '0' <= c <= '9' }

  predicate AllDigits(s: string) { forall i :: 0 <= i < |s| ==> IsDigit(s[i]) }

  function DigitValue(c: char): (d: nat)
    requires IsDigit(c)
    ensures d < 10
  {
    (c as int) - ('0' as int)
  }

  function DigitChar(d: nat): (c: char)
    requires d < 10
    ensures IsDigit(c) && DigitValue(c) == d
  {
    ('0' as int + d) as char
  }

  /** The value of a string of decimal digits, most significant first. */
  function DigitsValue(s: string): nat
    requires AllDigits(s)
  {
    if s == [] then 0 else DigitsValue(s[..|s| - 1]) * 10 + DigitValue(s[|s| - 1])
  }

  /** Decimal rendering of a natural number without leading zeros. */
  function NatToString(n: nat): (s: string)
    ensures 1 <= |s| && AllDigits(s)
    ensures |s| > 1 ==> s[0] != '0'
    decreases n
  {
    if n < 10 then [DigitChar(n)] else NatToString(n / 10) + [DigitChar(n % 10)]
  }

  /** Decimal rendering of an integer, as JavaScript prints an integral number. */
  function IntToString(i: int): (s: string)
    ensures 1 <= |s|
    ensures s[0] == '-' <==> i < 0
    ensures AllDigits(s[1..]) && (i >= 0 ==> AllDigits(s))
  {
    if i < 0 then "-" + NatToString(-i) else NatToString(i)
  }

  lemma {:induction false} NatToStringValue(n: nat)
    ensures DigitsValue(NatToString(n)) == n
    decreases n
  {
    if n >= 10 {
      var s := NatToString(n);
      NatToStringValue(n / 10);
      assert s[..|s| - 1] == NatToString(n / 10);
    }
  }

  /** `n` copies of `c`. */
  function Repeat(c: char, n: nat): (r: string)
    ensures |r| == n
    ensures forall i :: 0 <= i < n ==> r[i] == c
  {
    if n == 0 then [] else [c] + Repeat(c, n - 1)
  }

  /** `s.padStart(width, fill)`: prefix copies of `fill` until `s` is `width` long. */
  function PadStart(s: string, width: nat, fill: char): (r: string)
    ensures |r| == if |s| < width then width else |s|
    ensures r[|r| - |s|..] == s
    ensures forall i :: 0 <= i < |r| - |s| ==> r[i] == fill
  {
    (if |s| < width then Repeat(fill, width - |s|) else []) + s
  }

  /** `Math.round(x)`: the integer nearest to `x`, halves going up. */
  function Round(x: real): (n: int)
    ensures n as real - 0.5 <= x < n as real + 0.5
  {
    (x + 0.5).Floor
  }

  // ---------------------------------------------------------------------
  // Whitespace and String.prototype.trim
  // ---------------------------------------------------------------------

  /** The WhiteSpace and LineTerminator characters that `trim` removes. */
  predicate IsJsWhitespace(c: char) {
    c == ' ' || c == '\t' || c == '\n' || c == '\r' || c == '\U{000B}' || c == '\U{000C}'
    || c == '\U{00A0}' || c == '\U{FEFF}' || c == '\U{1680}' || ('\U{2000}' <= c <= '\U{200A}')
    || c == '\U{2028}' || c == '\U{2029}' || c == '\U{202F}' || c == '\U{205F}' || c == '\U{3000}'
  }

  function TrimStart(s: string): (r: string)
    ensures |r| <= |s| && r == s[|s| - |r|..]
    ensures r == [] || !IsJsWhitespace(r[0])
    ensures forall i :: 0 <= i < |s| - |r| ==> IsJsWhitespace(s[i])
  {
    if s != [] && IsJsWhitespace(s[0]) then TrimStart(s[1..]) else s
  }

  function TrimEnd(s: string): (r: string)
    ensures |r| <= |s| && r == s[..|r|]
    ensures r == [] || !IsJsWhitespace(r[|r| - 1])
    ensures forall i :: |r| <= i < |s| ==> IsJsWhitespace(s[i])
  {
    if s != [] && IsJsWhitespace(s[|s| - 1]) then TrimEnd(s[..|s| - 1]) else s
  }

  /** `s.trim()`. */
  function Trim(s: string): string {
    TrimEnd(TrimStart(s))
  }

  lemma TrimUnchanged(s: string)
    requires s != [] ==> !IsJsWhitespace(s[0]) && !IsJsWhitespace(s[|s| - 1])
    ensures Trim(s) == s
  {
  }

  // ---------------------------------------------------------------------
  // String.prototype.split with a one-character separator, and join
  // ---------------------------------------------------------------------

  /** `s.split(sep)`: the pieces between separators; never empty. */
  function Split(s: string, sep: char): (parts: seq<string>)
    ensures |parts| >= 1
    ensures forall k :: 0 <= k < |parts| ==> sep !in parts[k]
    decreases |s|
  {
    if s == [] then [""]
    else if s[0] == sep then [""] + Split(s[1..], sep)
    else var rest := Split(s[1..], sep); [[s[0]] + rest[0]] + rest[1..]
  }

  /** `parts.join(sep)`. */
  function Join(parts: seq<string>, sep: char): string
  {
    if parts == [] then "" else if |parts| == 1 then parts[0] else parts[0] + [sep] + Join(parts[1..], sep)
  }

  /** Splitting a piece that holds no separator, followed by a separator or the end. */
  lemma {:induction false} SplitPiece(piece: string, rest: string, sep: char)
    requires sep !in piece
    ensures Split(piece + rest, sep)[0] == piece + Split(rest, sep)[0]
    ensures Split(piece + rest, sep)[1..] == Split(rest, sep)[1..]
    decreases |piece|
  {
    if piece != [] {
      var whole := piece + rest;
      assert whole[0] == piece[0] && whole[0] != sep;
      assert whole[1..] == piece[1..] + rest;
      SplitPiece(piece[1..], rest, sep);
      var r := Split(whole[1..], sep);
      assert Split(whole, sep) == [[piece[0]] + r[0]] + r[1..];
      assert [piece[0]] + (piece[1..] + Split(rest, sep)[0]) == piece + Split(rest, sep)[0];
    } else {
      assert piece + rest == rest;
    }
  }

  /** `split` undoes `join` when no piece holds the separator. */
  lemma {:induction false} SplitJoin(parts: seq<string>, sep: char)
    requires |parts| >= 1
    requires forall k :: 0 <= k < |parts| ==> sep !in parts[k]
    ensures Split(Join(parts, sep), sep) == parts
    decreases |parts|
  {
    if |parts| == 1 {
      SplitPiece(parts[0], "", sep);
      assert parts[0] + "" == parts[0];
      var whole := Split(parts[0], sep);
      assert whole[0] == parts[0] && whole[1..] == [];
    } else {
      var tail := Join(parts[1..], sep);
      SplitJoin(parts[1..], sep);
      SplitPiece(parts[0], [sep] + tail, sep);
      assert parts[0] + [sep] + tail == parts[0] + ([sep] + tail);
      assert ([sep] + tail)[1..] == tail;
      assert Split([sep] + tail, sep) == [""] + parts[1..];
      var whole := Split(Join(parts, sep), sep);
      assert whole[0] == parts[0] && whole[1..] == parts[1..];
    }
  }

  /** A joined text holds a character only if a piece or the separator holds it. */
  lemma {:induction false} NotInJoin(parts: seq<string>, sep: char, c: char)
    requires c != sep
    requires forall k :: 0 <= k < |parts| ==> c !in parts[k]
    ensures c !in Join(parts, sep)
    decreases |parts|
  {
    if |parts| > 1 {
      NotInJoin(parts[1..], sep, c);
    }
  }

  /** A string of digits holds no other character. */
  lemma DigitsAvoid(s: string, c: char)
    requires AllDigits(s) && !IsDigit(c)
    ensures c !in s
  {
  }

  /** `s.split(c)[0]`: everything before the first `c`. */
  function Before(s: string, c: char): (r: string)
    ensures c !in r
    ensures |r| <= |s| && r == s[..|r|]
    ensures |r| < |s| ==> s[|r|] == c
  {
    SplitPrefixFacts(s, c);
    Split(s, c)[0]
  }

  lemma {:induction false} SplitPrefixFacts(s: string, c: char)
    ensures |Split(s, c)[0]| <= |s| && Split(s, c)[0] == s[..|Split(s, c)[0]|]
    ensures |Split(s, c)[0]| < |s| ==> s[|Split(s, c)[0]|] == c
    decreases |s|
  {
    if s != [] && s[0] != c {
      SplitPrefixFacts(s[1..], c);
    }
  }

  // ---------------------------------------------------------------------
  // includes and toLowerCase
  // ---------------------------------------------------------------------

  predicate IsPrefix(p: string, s: string) { |p| <= |s| && s[..|p|] == p }

  /** `s.includes(sub)`. */
  predicate Contains(s: string, sub: string)
    decreases |s|
  {
    IsPrefix(sub, s) || (s != [] && Contains(s[1..], sub))
  }

  function ToLowerChar(c: char): char {
    if 'A' <= c <= 'Z' then (c as int + 32) as char else c
  }

  /** `s.toLowerCase()` for the ASCII letters. */
  function ToLower(s: string): (r: string)
    ensures |r| == |s|
    ensures forall i :: 0 <= i < |s| ==> r[i] == ToLowerChar(s[i])
  {
    if s == [] then [] else [ToLowerChar(s[0])] + ToLower(s[1..])
  }

  // ---------------------------------------------------------------------
  // Lexicographic order on strings (code point order)
  // ---------------------------------------------------------------------

  predicate LexLe(a: string, b: string)
    decreases |a|
  {
    a == [] || (b != [] && (a[0] < b[0] || (a[0] == b[0] && LexLe(a[1..], b[1..]))))
  }

  lemma {:induction false} LexLeTotal(a: string, b: string)
    ensures LexLe(a, b) || LexLe(b, a)
    decreases |a|
  {
    if a != [] && b != [] && a[0] == b[0] {
      LexLeTotal(a[1..], b[1..]);
    }
  }

  lemma {:induction false} LexLeTransitive(a: string, b: string, c: string)
    requires LexLe(a, b) && LexLe(b, c)
    ensures LexLe(a, c)
    decreases |a|
  {
    if a != [] && a[0] == b[0] && b[0] == c[0] {
      LexLeTransitive(a[1..], b[1..], c[1..]);
    }
  }

  // ---------------------------------------------------------------------
  // Number()
  // ---------------------------------------------------------------------

  /** `Number(s)` for the integral decimal texts: surrounding whitespace is
      ignored and a blank text is 0. `None` stands for NaN. */
  function ParseNumber(s: string): (r: Option<int>)
    ensures Trim(s) == "" ==> r == Some(0)
  {
    var t := Trim(s);
    if t == "" then Some(0) else DecimalValue(t)
  }

  /** A non-empty trimmed text: an optional sign followed by one or more digits. */
  function DecimalValue(t: string): (r: Option<int>)
    requires t != ""
    ensures r.Some? <==> AllDigits(t) || ((t[0] == '-' || t[0] == '+') && |t| > 1 && AllDigits(t[1..]))
  {
    if (t[0] == '-' || t[0] == '+') && |t| > 1 && AllDigits(t[1..]) then
      var magnitude: int := DigitsValue(t[1..]);
      Some(if t[0] == '-' then -magnitude else magnitude)
    else if AllDigits(t) then Some(DigitsValue(t))
    else None
  }

  /** `ParseNumber` reads back the decimal text of every integer. */
  lemma NumberRoundTrip(n: int)
    ensures ParseNumber(IntToString(n)) == Some(n)
  {
    var s := IntToString(n);
    NotWhitespace(s[0]);
    NotWhitespace(s[|s| - 1]);
    TrimUnchanged(s);
    DecimalRoundTrip(n);
  }

  lemma DecimalRoundTrip(n: int)
    ensures DecimalValue(IntToString(n)) == Some(n)
  {
    var s := IntToString(n);
    if n < 0 {
      assert s[1..] == NatToString(-n);
      NatToStringValue(-n);
    } else {
      NatToStringValue(n);
    }
  }

  lemma NotWhitespace(c: char)
    requires IsDigit(c) || c == '-'
    ensures !IsJsWhitespace(c)
  {
  }
}
