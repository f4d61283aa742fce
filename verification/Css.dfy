/** The page footer's identity line as a CSS string: every character escaped, and read back as CSS reads escapes. */
module Css {

  function DigitChar(d: nat): char
    requires d < 16
  {
    if d < 10 then ('0' as int + d) as char else ('a' as int + (d - 10)) as char
  }

  predicate IsHex(c: char) {
    '0' <= c <= '9' || 'a' <= c <= 'f' || 'A' <= c <= 'F'
  }

  function DigitOf(c: char): nat
    requires IsHex(c)
    ensures DigitOf(c) < 16
  {
    if c <= '9' then c as int - '0' as int
    else if c <= 'F' then c as int - 'A' as int + 10
    else c as int - 'a' as int + 10
  }

  /** `{:x}`. */
  function HexText(n: nat): (s: string)
    ensures |s| > 0 && forall k | 0 <= k < |s| :: IsHex(s[k])
  {
    (if n < 16 then "" else HexText(n / 16)) + [DigitChar(n % 16)]
  }

  function HexValue(s: string): nat
    requires forall k | 0 <= k < |s| :: IsHex(s[k])
  {
    if s == "" then 0 else
    assert IsHex(s[|s| - 1]);
    16 * HexValue(s[..|s| - 1]) + DigitOf(s[|s| - 1])
  }

  /** Every character as its scalar value in hexadecimal, between a backslash and a space. */
  function EscapeIdentity(identity: string): string {
    if identity == "" then "" else "\\" + HexText(identity[0] as int) + " " + EscapeIdentity(identity[1..])
  }

  // ------------------------------------------------------------------ how a CSS string is read

  /** How many hex digits a text starts with, counting no more than `most`. */
  function HexRun(s: string, most: nat): (n: nat)
    ensures n <= most && n <= |s| && forall k | 0 <= k < n :: IsHex(s[k])
    ensures n < most && n < |s| ==> !IsHex(s[n])
  {
    if most == 0 || s == "" || !IsHex(s[0]) then 0 else 1 + HexRun(s[1..], most - 1)
  }

  predicate IsCssSpace(c: char) {
    c == ' ' || c == '\t' || c == '\n' || c == '\r' || c == '\U{000C}'
  }

  const REPLACEMENT: char := '\U{FFFD}'

  /** A number as a character: zero, surrogates and what lies past the last scalar are replaced. */
  function Scalar(n: nat): char {
    if n == 0 || 0xD800 <= n <= 0xDFFF || n > 0x10FFFF then REPLACEMENT else n as char
  }

  /** The content of a CSS string with its escapes consumed: section 4.3.7 of CSS Syntax Module Level 3. */
  function ReadString(s: string): string
    decreases |s|
  {
    if s == "" then ""
    else if s[0] != '\\' then [s[0]] + ReadString(s[1..])
    else if |s| == 1 then ""
    else if s[1] == '\n' then ReadString(s[2..])
    else if !IsHex(s[1]) then [s[1]] + ReadString(s[2..])
    else
      var n := HexRun(s[1..], 6);
      var after := s[1 + n..];
      [Scalar(HexValue(s[1..][..n]))] + ReadString(if after != "" && IsCssSpace(after[0]) then after[1..] else after)
  }

  function NulReplaced(s: string): (r: string)
    ensures |r| == |s|
  {
    seq(|s|, k requires 0 <= k < |s| => if s[k] as int == 0 then REPLACEMENT else s[k])
  }

  lemma {:induction false} HexReadsBack(n: nat)
    ensures HexValue(HexText(n)) == n
  {
    var s := HexText(n);
    assert DigitOf(DigitChar(n % 16)) == n % 16;
    if n >= 16 {
      assert s[..|s| - 1] == HexText(n / 16);
      HexReadsBack(n / 16);
    } else {
      assert s[..|s| - 1] == "";
    }
  }

  function Power16(digits: nat): nat {
    if digits == 0 then 1 else 16 * Power16(digits - 1)
  }

  lemma {:induction false} HexLength(n: nat, digits: nat)
    requires digits > 0 && n < Power16(digits)
    ensures |HexText(n)| <= digits
    decreases digits
  {
    if n >= 16 {
      var below := Power16(digits - 1);
      assert n < 16 * below;
      assert n / 16 < below;
      assert digits > 1;
      HexLength(n / 16, digits - 1);
    }
  }

  lemma {:induction false} HexRunStops(digits: string, rest: string, most: nat)
    requires |digits| <= most && forall k | 0 <= k < |digits| :: IsHex(digits[k])
    ensures HexRun(digits + " " + rest, most) == |digits|
    decreases |digits|
  {
    var s := digits + " " + rest;
    if digits != "" {
      assert s[0] == digits[0] && s[1..] == digits[1..] + " " + rest;
      HexRunStops(digits[1..], rest, most - 1);
    }
  }

  lemma {:induction false} ReadOneEscape(c: char, rest: string)
    ensures ReadString("\\" + HexText(c as int) + " " + rest)
         == [if c as int == 0 then REPLACEMENT else c] + ReadString(rest)
  {
    var digits := HexText(c as int);
    var s := "\\" + digits + " " + rest;
    assert Power16(6) == 0x100_0000;
    HexLength(c as int, 6);
    HexReadsBack(c as int);
    assert s[1..] == digits + " " + rest;
    assert s[1] == digits[0];
    HexRunStops(digits, rest, 6);
    assert s[1..][..|digits|] == digits;
    assert s[1 + |digits|..] == " " + rest;
    assert (" " + rest)[1..] == rest;
  }

  /** The identity reads back as written, except that a NUL becomes the replacement character. */
  lemma {:induction false} IdentityReadsBack(identity: string)
    ensures ReadString(EscapeIdentity(identity)) == NulReplaced(identity)
  {
    if identity != "" {
      ReadOneEscape(identity[0], EscapeIdentity(identity[1..]));
      IdentityReadsBack(identity[1..]);
      assert NulReplaced(identity) == NulReplaced(identity)[..1] + NulReplaced(identity[1..]);
    }
  }

  /** So it is unchanged exactly when it holds no NUL. */
  lemma {:induction false} IdentityIsKept(identity: string)
    ensures ReadString(EscapeIdentity(identity)) == identity <==> forall k | 0 <= k < |identity| :: identity[k] as int != 0
  {
    IdentityReadsBack(identity);
    var read := NulReplaced(identity);
    if read == identity {
      forall k | 0 <= k < |identity| ensures identity[k] as int != 0 { assert read[k] == identity[k]; }
    }
  }

  predicate StringChar(c: char) {
    IsHex(c) || c == '\\' || c == ' '
  }

  /** Nothing in it ends the string, the line or the surrounding style element. */
  lemma {:induction false} IdentityStaysInside(identity: string)
    ensures forall k | 0 <= k < |EscapeIdentity(identity)| :: StringChar(EscapeIdentity(identity)[k])
  {
    if identity != "" {
      IdentityStaysInside(identity[1..]);
    }
  }
}
