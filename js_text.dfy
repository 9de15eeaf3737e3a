/** The pieces of ECMAScript string and number semantics the core relies on: white space as
    `String.prototype.trim` and `parseInt` understand it (sections 12.2 and 12.3 of ECMA-262),
    `String.prototype.split` on a one-character separator, `Number.parseInt(s, 10)` (section 19.2.5)
    and the decimal text `String(n)` produces for an integer. */
module JsText {
  import opened Wrappers

  /** WhiteSpace or LineTerminator: the code points that `trim` strips and `parseInt` skips. */
  predicate IsWhiteSpace(c: char) {
    var n := c as int;
    n == 0x09 || n == 0x0B || n == 0x0C || n == 0x20 || n == 0xA0 || n == 0xFEFF
    || n == 0x1680 || (0x2000 <= n <= 0x200A) || n == 0x202F || n == 0x205F || n == 0x3000
    || n == 0x0A || n == 0x0D || n == 0x2028 || n == 0x2029
  }

  /** A decimal digit: `\d` in a regular expression without the `u` flag, and a radix-10 digit of `parseInt`. */
  predicate IsDigit(c: char) {
    '0' <= c <= '9'
  }

  predicate AllDigits(s: string) {
    forall i :: 0 <= i < |s| ==> IsDigit(s[i])
  }

  predicate AllWhiteSpace(s: string) {
    forall i :: 0 <= i < |s| ==> IsWhiteSpace(s[i])
  }

  /** Leading white space removed (the TrimString(…, start) step of `parseInt`). */
  function TrimStart(s: string): (r: string)
    ensures |r| <= |s| && r == s[|s| - |r|..]
    ensures AllWhiteSpace(s[..|s| - |r|])
    ensures r == [] || !IsWhiteSpace(r[0])
  {
    if s != [] && IsWhiteSpace(s[0]) then TrimStart(s[1..]) else s
  }

  /** Trailing white space removed. */
  function TrimEnd(s: string): (r: string)
    ensures |r| <= |s| && r == s[..|r|]
    ensures AllWhiteSpace(s[|r|..])
    ensures r == [] || !IsWhiteSpace(r[|r| - 1])
  {
    if s != [] && IsWhiteSpace(s[|s| - 1]) then TrimEnd(s[..|s| - 1]) else s
  }

  /** `String.prototype.trim`. */
  function Trim(s: string): string {
    TrimEnd(TrimStart(s))
  }

  /** Trimming removes exactly the white-space padding around a text that neither starts nor ends
      with white space. */
  lemma TrimOfPadded(before: string, core: string, after: string)
    requires AllWhiteSpace(before) && AllWhiteSpace(after)
    requires core == [] || (!IsWhiteSpace(core[0]) && !IsWhiteSpace(core[|core| - 1]))
    ensures Trim(before + core + after) == core
  {
    if core == [] {
      assert before + core + after == before + after;
      assert AllWhiteSpace(before + after);
    } else {
      assert before + core + after == before + (core + after);
      TrimStartSkips(before, core + after);
      TrimEndOfPadded(core, after);
    }
  }

  lemma {:induction false} TrimStartSkips(before: string, rest: string)
    requires AllWhiteSpace(before)
    requires rest == [] || !IsWhiteSpace(rest[0])
    ensures TrimStart(before + rest) == rest
  {
    if before != [] {
      assert (before + rest)[1..] == before[1..] + rest;
      TrimStartSkips(before[1..], rest);
    } else {
      assert before + rest == rest;
    }
  }

  lemma {:induction false} TrimEndOfPadded(core: string, after: string)
    requires AllWhiteSpace(after)
    requires core == [] || !IsWhiteSpace(core[|core| - 1])
    ensures TrimEnd(core + after) == core
  {
    if after != [] {
      assert (core + after)[..|core + after| - 1] == core + after[..|after| - 1];
      TrimEndOfPadded(core, after[..|after| - 1]);
    } else {
      assert core + after == core;
    }
  }

  /** `s.split(sep)` for a one-character separator: the pieces between separators, `[""]` for `""`. */
  function Split(s: string, sep: char): (parts: seq<string>)
    ensures |parts| >= 1
    ensures |parts[0]| <= |s| && parts[0] == s[..|parts[0]|] && sep !in parts[0]
    ensures |parts[0]| == |s| || s[|parts[0]|] == sep
    ensures forall k :: 0 <= k < |parts| ==> sep !in parts[k]
  {
    if s == [] then [""]
    else if s[0] == sep then [""] + Split(s[1..], sep)
    else
      var rest := Split(s[1..], sep);
      [[s[0]] + rest[0]] + rest[1..]
  }

  /** A text without the separator splits into itself. */
  lemma {:induction false} SplitWithoutSeparator(s: string, sep: char)
    requires sep !in s
    ensures Split(s, sep) == [s]
  {
    if s != [] {
      SplitWithoutSeparator(s[1..], sep);
      assert [s[0]] + s[1..] == s;
    }
  }

  /** The first piece ends at the first separator; the remaining pieces are those of the text after it. */
  lemma {:induction false} SplitAtFirst(head: string, sep: char, tail: string)
    requires sep !in head
    ensures Split(head + [sep] + tail, sep) == [head] + Split(tail, sep)
  {
    if head == [] {
      assert head + [sep] + tail == [sep] + tail;
      assert ([sep] + tail)[1..] == tail;
    } else {
      assert (head + [sep] + tail)[1..] == head[1..] + [sep] + tail;
      SplitAtFirst(head[1..], sep, tail);
      assert [head[0]] + head[1..] == head;
    }
  }

  /** The numeric value of a string of decimal digits. */
  function DigitsValue(d: string): (v: nat)
    requires AllDigits(d)
  {
    if d == [] then 0 else 10 * DigitsValue(d[..|d| - 1]) + (d[|d| - 1] as int - '0' as int)
  }

  /** The length of the longest prefix made of decimal digits. */
  function DigitPrefixLength(s: string): (n: nat)
    ensures n <= |s| && AllDigits(s[..n])
    ensures n == |s| || !IsDigit(s[n])
  {
    if s != [] && IsDigit(s[0]) then 1 + DigitPrefixLength(s[1..]) else 0
  }

  /** `Number.parseInt(s, 10)`: skip leading white space, take an optional sign, then the longest run of
      decimal digits; `None` stands for `NaN` (no digit at all). Precision above 2^53 and the sign of
      zero are not modelled. */
  function ParseInt(s: string): Option<int> {
    var t := TrimStart(s);
    var negative := t != [] && t[0] == '-';
    var unsigned := if t != [] && (t[0] == '-' || t[0] == '+') then t[1..] else t;
    var n := DigitPrefixLength(unsigned);
    if n == 0 then None
    else
      var magnitude: int := DigitsValue(unsigned[..n]);
      Some(if negative then -magnitude else magnitude)
  }

  /** The digit character for 0..9. */
  function DigitChar(d: nat): (c: char)
    requires d < 10
    ensures IsDigit(c) && c as int - '0' as int == d
  {
    ('0' as int + d) as char
  }

  /** `String(n)` for a non-negative integer. */
  function NatToString(n: nat): (s: string)
    ensures |s| >= 1 && AllDigits(s)
    ensures DigitsValue(s) == n
  {
    if n < 10 then [DigitChar(n)]
    else
      var init := NatToString(n / 10);
      var s := init + [DigitChar(n % 10)];
      assert s[..|s| - 1] == init;
      s
  }

  /** `String(n)` for an integer (magnitudes below 10^21, where JavaScript keeps plain decimal). */
  function IntToString(n: int): string {
    if n < 0 then "-" + NatToString(-n) else NatToString(n)
  }

  lemma NatToStringInjective(a: nat, b: nat)
    requires NatToString(a) == NatToString(b)
    ensures a == b
  {
  }

  lemma {:induction false} DigitPrefixOfDigits(d: string, t: string)
    requires AllDigits(d)
    requires t == [] || !IsDigit(t[0])
    ensures DigitPrefixLength(d + t) == |d|
  {
    if d != [] {
      assert (d + t)[1..] == d[1..] + t;
      DigitPrefixOfDigits(d[1..], t);
    } else {
      assert d + t == t;
    }
  }

  /** `parseInt` reads an unsigned run of digits and ignores whatever follows it when that does not
      start with a digit. */
  lemma ParseIntOfDigits(d: string, t: string)
    requires d != [] && AllDigits(d)
    requires t == [] || !IsDigit(t[0])
    ensures ParseInt(d + t) == Some(DigitsValue(d) as int)
  {
    var s := d + t;
    assert IsDigit(s[0]) by { assert s[0] == d[0]; }
    TrimStartOfDigit(s);
    ParseIntUnsigned(s);
    assert DigitPrefixLength(s) == |d| && s[..|d|] == d by {
      DigitPrefixOfDigits(d, t);
    }
  }

  lemma ParseIntUnsigned(s: string)
    requires s != [] && TrimStart(s) == s && s[0] != '-' && s[0] != '+'
    ensures DigitPrefixLength(s) > 0 ==> ParseInt(s) == Some(DigitsValue(s[..DigitPrefixLength(s)]) as int)
  {
  }

  lemma TrimStartOfDigit(s: string)
    requires s != [] && IsDigit(s[0])
    ensures TrimStart(s) == s
    ensures s[0] != '-' && s[0] != '+'
  {
    assert !IsWhiteSpace(s[0]);
  }

  /** The same with a leading minus sign. */
  lemma ParseIntOfNegativeDigits(d: string, t: string)
    requires d != [] && AllDigits(d)
    requires t == [] || !IsDigit(t[0])
    ensures ParseInt("-" + d + t) == Some(-(DigitsValue(d) as int))
  {
    var s := "-" + d + t;
    assert s[0] == '-';
    assert TrimStart(s) == s by { assert !IsWhiteSpace(s[0]); }
    DigitPrefixOfDigits(d, t);
    ParseIntSigned(s, d, t);
  }

  /** After the white space, a leading minus sign negates the digits that follow it. */
  lemma ParseIntSigned(s: string, d: string, t: string)
    requires s == "-" + d + t && TrimStart(s) == s
    requires d != [] && AllDigits(d) && DigitPrefixLength(d + t) == |d|
    ensures ParseInt(s) == Some(-(DigitsValue(d) as int))
  {
    assert s[1..] == d + t;
    assert (d + t)[..|d|] == d;
  }

  /** `parseInt` reads back the decimal text of any integer, and ignores whatever follows it
      when that does not start with a digit (so "3abc" reads as 3). */
  lemma ParseIntOfDecimal(n: int, t: string)
    requires t == [] || !IsDigit(t[0])
    ensures ParseInt(IntToString(n) + t) == Some(n)
  {
    if n < 0 {
      ParseIntOfNegativeDigits(NatToString(-n), t);
    } else {
      ParseIntOfDigits(NatToString(n), t);
    }
  }

  /** `parseInt` yields `NaN` when, after the white space, there is no sign and no digit. */
  lemma ParseIntNaN(s: string)
    requires var t := TrimStart(s); t == [] || !(IsDigit(t[0]) || t[0] == '-' || t[0] == '+')
    ensures ParseInt(s) == None
  {
  }

  /** `s.toLowerCase()` on the ASCII letters (see the model's notes for why that suffices here). */
  function AsciiLower(s: string): (r: string)
    ensures |r| == |s|
    ensures forall i :: 0 <= i < |s| ==> r[i] == (if 'A' <= s[i] <= 'Z' then (s[i] as int + 32) as char else s[i])
  {
    seq(|s|, i requires 0 <= i < |s| => if 'A' <= s[i] <= 'Z' then (s[i] as int + 32) as char else s[i])
  }

  /** Lower-casing twice is lower-casing once. */
  lemma AsciiLowerIdempotent(s: string)
    ensures AsciiLower(AsciiLower(s)) == AsciiLower(s)
  {
  }

  /** Lower-casing turns no character into white space and none out of it. */
  lemma LowerKeepsWhiteSpace(s: string, i: nat)
    requires i < |s|
    ensures IsWhiteSpace(AsciiLower(s)[i]) <==> IsWhiteSpace(s[i])
  {
  }

  /** Stripping leading white space and lower-casing commute. */
  lemma {:induction false} TrimStartLower(s: string)
    ensures TrimStart(AsciiLower(s)) == AsciiLower(TrimStart(s))
  {
    if s != [] {
      LowerKeepsWhiteSpace(s, 0);
      if IsWhiteSpace(s[0]) {
        assert AsciiLower(s)[1..] == AsciiLower(s[1..]);
        TrimStartLower(s[1..]);
      }
    }
  }

  /** Stripping trailing white space and lower-casing commute. */
  lemma {:induction false} TrimEndLower(s: string)
    ensures TrimEnd(AsciiLower(s)) == AsciiLower(TrimEnd(s))
  {
    if s != [] {
      var n := |s| - 1;
      LowerKeepsWhiteSpace(s, n);
      if IsWhiteSpace(s[n]) {
        assert AsciiLower(s)[..n] == AsciiLower(s[..n]);
        TrimEndLower(s[..n]);
      }
    }
  }

  /** Trimming and lower-casing commute: no white space is a capital letter, and lower-casing turns no
      character into white space. */
  lemma TrimThenLower(s: string)
    ensures Trim(AsciiLower(s)) == AsciiLower(Trim(s))
  {
    TrimStartLower(s);
    TrimEndLower(TrimStart(s));
  }
}
