/** Text primitives the backend and frontend code rely on, with ECMAScript
    meaning: character classes of regular expressions, ASCII case mapping,
    `trim`, `split`, `replace` of a first occurrence, decimal numerals and
    `parseInt(s, 10)`. */
module Strings {
  import opened Wrappers

  predicate IsAsciiDigit(c: char) { '0' <= c <= '9' }
  predicate IsAsciiLower(c: char) { 'a' <= c <= 'z' }
  predicate IsAsciiUpper(c: char) { 'A' <= c <= 'Z' }
  predicate IsAsciiLetter(c: char) { IsAsciiLower(c) || IsAsciiUpper(c) }
  predicate IsAsciiAlnum(c: char) { IsAsciiLetter(c) || IsAsciiDigit(c) }

  /** `\w` of a regular expression without the `u` flag. */
  predicate IsWordChar(c: char) { IsAsciiAlnum(c) || c == '_' }

  /** ECMAScript WhiteSpace and LineTerminator code points: the class `\s`
      and the characters `trim` removes. */
  predicate IsJsWhitespace(c: char)
  {
    c == '\t' || c == '\n' || c == '\U{B}' || c == '\U{C}' || c == '\r' || c == ' '
    || c == '\U{A0}' || c == '\U{1680}' || ('\U{2000}' <= c <= '\U{200A}')
    || c == '\U{2028}' || c == '\U{2029}' || c == '\U{202F}' || c == '\U{205F}'
    || c == '\U{3000}' || c == '\U{FEFF}'
  }

  predicate AllChars(s: string, p: char -> bool)
  {
    forall i :: 0 <= i < |s| ==> p(s[i])
  }

  // ---------------------------------------------------------------- case

  function ToLowerChar(c: char): char
  {
    if IsAsciiUpper(c) then (c as int + 32) as char else c
  }

  function ToUpperChar(c: char): char
  {
    if IsAsciiLower(c) then (c as int - 32) as char else c
  }

  function ToLower(s: string): string
  {
    seq(|s|, i requires 0 <= i < |s| => ToLowerChar(s[i]))
  }

  function ToUpper(s: string): string
  {
    seq(|s|, i requires 0 <= i < |s| => ToUpperChar(s[i]))
  }

  // ------------------------------------------------------------ substrings

  /** `t` occurs in `s` starting at index `k`. */
  predicate InfixAt(s: string, t: string, k: int)
  {
    0 <= k <= |s| - |t| && s[k..k + |t|] == t
  }

  predicate Contains(s: string, t: string)
  {
    exists k | 0 <= k <= |s| - |t| :: InfixAt(s, t, k)
  }

  /** Case-insensitive containment, as `ILIKE '%t%'` decides it for text
      without wildcard characters (ASCII case folding only). */
  predicate ContainsIgnoringCase(s: string, t: string)
  {
    Contains(ToLower(s), ToLower(t))
  }

  function IndexOf(s: string, c: char): (r: Option<nat>)
    ensures r.Some? ==> r.value < |s| && s[r.value] == c && c !in s[..r.value]
    ensures r.None? ==> c !in s
  {
    if s == [] then None
    else if s[0] == c then Some(0)
    else
      var rest := IndexOf(s[1..], c);
      assert s[1..] == s[1..][..] && s == [s[0]] + s[1..];
      if rest.Some? then
        assert s[..rest.value + 1] == [s[0]] + s[1..][..rest.value];
        Some(rest.value + 1)
      else None
  }

  /** `s.replace(c, d)` with a one-character string pattern: only the first
      occurrence is replaced. */
  function ReplaceFirst(s: string, c: char, d: char): (r: string)
    ensures |r| == |s|
    ensures c !in s ==> r == s
    ensures c in s ==> exists k :: 0 <= k < |s| && s[k] == c && c !in s[..k] && r == s[k := d]
  {
    match IndexOf(s, c)
    case None => s
    case Some(k) => s[k := d]
  }

  // ------------------------------------------------------------------ trim

  function TrimStart(s: string): (r: string)
    ensures |r| <= |s| && r == s[|s| - |r|..]
    ensures r == [] || !IsJsWhitespace(r[0])
    ensures forall i :: 0 <= i < |s| - |r| ==> IsJsWhitespace(s[i])
    decreases |s|
  {
    if s != [] && IsJsWhitespace(s[0]) then TrimStart(s[1..]) else s
  }

  function TrimEnd(s: string): (r: string)
    ensures |r| <= |s| && r == s[..|r|]
    ensures r == [] || !IsJsWhitespace(r[|r| - 1])
    ensures forall i :: |r| <= i < |s| ==> IsJsWhitespace(s[i])
    decreases |s|
  {
    if s != [] && IsJsWhitespace(s[|s| - 1]) then TrimEnd(s[..|s| - 1]) else s
  }

  /** The length of the leading whitespace of `s`. */
  function TrimOffset(s: string): nat
  {
    |s| - |TrimStart(s)|
  }

  /** `String.prototype.trim`: the result is the part of `s` after its
      leading whitespace, and itself neither starts nor ends with
      whitespace. */
  function Trim(s: string): (r: string)
    ensures r == [] || (!IsJsWhitespace(r[0]) && !IsJsWhitespace(r[|r| - 1]))
    ensures InfixAt(s, r, TrimOffset(s))
  {
    var t := TrimStart(s);
    var r := TrimEnd(t);
    assert s[TrimOffset(s)..][..|r|] == r;
    assert r != [] ==> r[0] == t[0];
    r
  }

  /** Only whitespace is removed, before and after the result. */
  lemma TrimRemovesWhitespace(s: string)
    ensures forall i :: 0 <= i < TrimOffset(s) ==> IsJsWhitespace(s[i])
    ensures forall i :: TrimOffset(s) + |Trim(s)| <= i < |s| ==> IsJsWhitespace(s[i])
  {
    var t, k := TrimStart(s), TrimOffset(s);
    assert forall i :: k <= i < |s| ==> s[i] == t[i - k];
  }

  // ----------------------------------------------------------------- split

  function CountChar(s: string, c: char): nat
  {
    if s == [] then 0 else (if s[0] == c then 1 else 0) + CountChar(s[1..], c)
  }

  /** `s.split(sep)` with a one-character separator: one piece more than
      there are separators, and no piece contains the separator. */
  function Split(s: string, sep: char): (r: seq<string>)
    ensures |r| == CountChar(s, sep) + 1
    ensures forall i :: 0 <= i < |r| ==> sep !in r[i]
  {
    if s == [] then [""]
    else
      var rest := Split(s[1..], sep);
      if s[0] == sep then [""] + rest
      else [[s[0]] + rest[0]] + rest[1..]
  }

  /** `parts.join(sep)`. */
  function Join(parts: seq<string>, sep: char): string
  {
    if |parts| == 0 then ""
    else if |parts| == 1 then parts[0]
    else parts[0] + [sep] + Join(parts[1..], sep)
  }

  /** Splitting loses nothing: joining the pieces with the separator gives
      back the input. */
  lemma {:induction false} JoinSplit(s: string, sep: char)
    ensures Join(Split(s, sep), sep) == s
  {
    if s != [] {
      JoinSplit(s[1..], sep);
      var rest := Split(s[1..], sep);
      if s[0] == sep {
        assert Split(s, sep) == [""] + rest;
        assert ([""] + rest)[1..] == rest;
        assert s == [sep] + s[1..];
      } else {
        var r := Split(s, sep);
        assert r == [[s[0]] + rest[0]] + rest[1..];
        if |rest| == 1 {
          assert s == [s[0]] + rest[0];
        } else {
          assert r[1..] == rest[1..];
          assert Join(rest, sep) == rest[0] + [sep] + Join(rest[1..], sep);
          assert s == [s[0]] + s[1..];
        }
      }
    }
  }

  // -------------------------------------------------------------- numerals

  function DigitChar(d: nat): (c: char)
    requires d < 10
    ensures IsAsciiDigit(c) && c as int - '0' as int == d
  {
    ('0' as int + d) as char
  }

  function DigitValue(c: char): nat
    requires IsAsciiDigit(c)
  {
    c as int - '0' as int
  }

  /** Decimal numeral of `n`, most significant digit first, no leading zero. */
  function NatToString(n: nat): (r: string)
    ensures |r| >= 1 && AllChars(r, IsAsciiDigit)
    ensures r[0] == '0' ==> n == 0
  {
    if n < 10 then [DigitChar(n)] else NatToString(n / 10) + [DigitChar(n % 10)]
  }

  /** `String(i)` for an integer value. */
  function IntToString(i: int): string
  {
    if i < 0 then "-" + NatToString(-i) else NatToString(i)
  }

  /** Value of a string of decimal digits. */
  function DigitsValue(s: string): nat
    requires AllChars(s, IsAsciiDigit)
  {
    if s == [] then 0 else DigitsValue(s[..|s| - 1]) * 10 + DigitValue(s[|s| - 1])
  }

  lemma {:induction false} DigitsValueOfNatToString(n: nat)
    ensures DigitsValue(NatToString(n)) == n
  {
    if n >= 10 {
      var s := NatToString(n);
      assert s[..|s| - 1] == NatToString(n / 10);
      DigitsValueOfNatToString(n / 10);
    }
  }

  /** The longest prefix of `s` made of decimal digits. */
  function LeadingDigits(s: string): (r: string)
    ensures |r| <= |s| && r == s[..|r|] && AllChars(r, IsAsciiDigit)
    ensures |r| < |s| ==> !IsAsciiDigit(s[|r|])
  {
    if s != [] && IsAsciiDigit(s[0]) then [s[0]] + LeadingDigits(s[1..]) else []
  }

  /** `parseInt(s, 10)`: leading whitespace is skipped, one sign is
      accepted, and the longest run of digits after it is read; `None`
      stands for `NaN`, the result when that run is empty. */
  function ParseInt(s: string): (r: Option<int>)
  {
    ParseSigned(TrimStart(s))
  }

  /** `parseInt` after the leading whitespace: an optional sign, then the
      longest run of digits. */
  function ParseSigned(t: string): Option<int>
  {
    if t != [] && t[0] == '-' then Negate(ParseDigits(t[1..]))
    else if t != [] && t[0] == '+' then ParseDigits(t[1..])
    else ParseDigits(t)
  }

  function ParseDigits(t: string): Option<int>
  {
    var digits := LeadingDigits(t);
    if digits == [] then None else Some(DigitsValue(digits))
  }

  function Negate(v: Option<int>): Option<int>
  {
    if v.Some? then Some(-v.value) else None
  }

  /** `parseInt` is NaN exactly when no digit follows the optional
      whitespace and sign. */
  lemma ParseIntNaN(s: string)
    ensures ParseInt(s).None? <==>
      var t := TrimStart(s);
      var body := if t != [] && (t[0] == '-' || t[0] == '+') then t[1..] else t;
      body == [] || !IsAsciiDigit(body[0])
  {
  }

  lemma LeadingDigitsOfDigits(s: string, rest: string)
    requires AllChars(s, IsAsciiDigit)
    requires rest == [] || !IsAsciiDigit(rest[0])
    ensures LeadingDigits(s + rest) == s
    decreases |s|
  {
    if s != [] {
      assert (s + rest)[1..] == s[1..] + rest;
      LeadingDigitsOfDigits(s[1..], rest);
    }
  }

  /** `parseInt` reads back the numeral of any integer, also when it is
      preceded by whitespace and followed by text that does not start with
      a digit (`parseInt(" 12px", 10) == 12`). */
  lemma ParseIntOfIntToString(ws: string, i: int, rest: string)
    requires AllChars(ws, IsJsWhitespace)
    requires rest == [] || !IsAsciiDigit(rest[0])
    ensures ParseInt(ws + IntToString(i) + rest) == Some(i)
  {
    var u := IntToString(i) + rest;
    assert ws + IntToString(i) + rest == ws + u;
    assert u[0] == '-' || IsAsciiDigit(u[0]);
    TrimStartSkips(ws, u);
    ParseSignedOfIntToString(i, rest);
  }

  lemma ParseSignedOfIntToString(i: int, rest: string)
    requires rest == [] || !IsAsciiDigit(rest[0])
    ensures ParseSigned(IntToString(i) + rest) == Some(i)
  {
    var n: nat := if i < 0 then -i else i;
    var num := NatToString(n);
    ParseDigitsOfNatToString(n, rest);
    if i < 0 {
      var u := IntToString(i) + rest;
      assert u == ['-'] + (num + rest);
      assert u[1..] == num + rest;
    } else {
      assert IntToString(i) == num;
      assert IsAsciiDigit(num[0]);
      assert (num + rest)[0] == num[0];
    }
  }

  lemma ParseDigitsOfNatToString(n: nat, rest: string)
    requires rest == [] || !IsAsciiDigit(rest[0])
    ensures ParseDigits(NatToString(n) + rest) == Some(n)
  {
    LeadingDigitsOfDigits(NatToString(n), rest);
    DigitsValueOfNatToString(n);
  }

  lemma TrimStartSkips(ws: string, s: string)
    requires AllChars(ws, IsJsWhitespace)
    requires s == [] || !IsJsWhitespace(s[0])
    ensures TrimStart(ws + s) == s
    decreases |ws|
  {
    if ws != [] {
      assert (ws + s)[1..] == ws[1..] + s;
      TrimStartSkips(ws[1..], s);
    }
  }
}
