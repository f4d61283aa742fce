/** Bytes as hexadecimal text, and the comparison of byte strings that never leaves early. */
module Hex {
  import opened Clock
  import opened Text

  /** The lower-case digit of a nibble. */
  function HexDigit(d: bv8): char
    requires d < 16
  {
    if d == 0 then '0' else if d == 1 then '1' else if d == 2 then '2' else if d == 3 then '3'
    else if d == 4 then '4' else if d == 5 then '5' else if d == 6 then '6' else if d == 7 then '7'
    else if d == 8 then '8' else if d == 9 then '9' else if d == 10 then 'a' else if d == 11 then 'b'
    else if d == 12 then 'c' else if d == 13 then 'd' else if d == 14 then 'e' else 'f'
  }

  /** The value of a digit of either case. */
  function Nibble(c: char): (r: Option<bv8>)
    ensures r.Some? ==> r.value < 16
  {
    var l := LowerChar(c);
    if l == '0' then Some(0) else if l == '1' then Some(1) else if l == '2' then Some(2) else if l == '3' then Some(3)
    else if l == '4' then Some(4) else if l == '5' then Some(5) else if l == '6' then Some(6) else if l == '7' then Some(7)
    else if l == '8' then Some(8) else if l == '9' then Some(9) else if l == 'a' then Some(10) else if l == 'b' then Some(11)
    else if l == 'c' then Some(12) else if l == 'd' then Some(13) else if l == 'e' then Some(14) else if l == 'f' then Some(15)
    else None
  }

  /** `u8::from_str_radix` on two characters: a leading plus sign is taken as a sign, not refused. */
  function ReadPair(a: char, b: char): Option<bv8> {
    match (if a == '+' then Some(0) else Nibble(a), Nibble(b))
    case (Some(high), Some(low)) => Some((high << 4) | low)
    case _ => None
  }

  function DecodeHex(text: string): Option<seq<bv8>> {
    if |text| % 2 != 0 then None
    else if text == "" then Some([])
    else
      match (ReadPair(text[0], text[1]), DecodeHex(text[2..]))
      case (Some(byte), Some(rest)) => Some([byte] + rest)
      case _ => None
  }

  /** Two lower-case digits a byte: what a sender writes. */
  function EncodeHex(bytes: seq<bv8>): (text: string)
    ensures |text| == 2 * |bytes|
  {
    if bytes == [] then ""
    else [HexDigit(bytes[0] >> 4), HexDigit(bytes[0] & 15)] + EncodeHex(bytes[1..])
  }

  /** How the decoder reads a text: case does not matter, and a plus sign before a digit counts as a zero. */
  function Plain(text: string): (r: string)
    ensures |r| == |text|
  {
    seq(|text|, k requires 0 <= k < |text| => if k % 2 == 0 && text[k] == '+' then '0' else LowerChar(text[k]))
  }

  lemma DigitIsItsNibble(c: char, d: bv8)
    requires d < 16
    ensures Nibble(c) == Some(d) <==> LowerChar(c) == HexDigit(d)
  {
  }

  lemma PairIsItsNibbles(byte: bv8)
    ensures byte >> 4 < 16 && byte & 15 < 16
    ensures ((byte >> 4) << 4) | (byte & 15) == byte
  {
  }

  lemma NibblesOfPair(high: bv8, low: bv8)
    requires high < 16 && low < 16
    ensures ((high << 4) | low) >> 4 == high && ((high << 4) | low) & 15 == low
  {
  }

  lemma {:induction false} PairDecodes(a: char, b: char, byte: bv8)
    ensures ReadPair(a, b) == Some(byte)
      <==> (if a == '+' then '0' else LowerChar(a)) == HexDigit(byte >> 4) && LowerChar(b) == HexDigit(byte & 15)
  {
    PairIsItsNibbles(byte);
    DigitIsItsNibble(a, byte >> 4);
    DigitIsItsNibble(b, byte & 15);
    DigitIsItsNibble('0', byte >> 4);
    var high := if a == '+' then Some(0) else Nibble(a);
    if high.Some? && Nibble(b).Some? {
      NibblesOfPair(high.value, Nibble(b).value);
    }
  }

  /** Exactly the texts that decode to given bytes: those read as the bytes' own lower-case encoding. */
  lemma {:induction false} DecodesExactlyItsEncoding(text: string, bytes: seq<bv8>)
    ensures DecodeHex(text) == Some(bytes) <==> Plain(text) == EncodeHex(bytes)
  {
    if |text| == 2 * |bytes| && bytes != [] {
      var rest, tail := text[2..], bytes[1..];
      PairDecodes(text[0], text[1], bytes[0]);
      DecodesExactlyItsEncoding(rest, tail);
      PlainOfRest(text);
      var front := [HexDigit(bytes[0] >> 4), HexDigit(bytes[0] & 15)];
      assert EncodeHex(bytes) == front + EncodeHex(tail);
      assert Plain(text) == Plain(text)[..2] + Plain(rest);
      assert Plain(text) == EncodeHex(bytes) <==> Plain(text)[..2] == front && Plain(rest) == EncodeHex(tail);
      assert bytes == [bytes[0]] + tail;
    } else {
      DecodedLength(text);
    }
  }

  lemma {:induction false} PlainOfRest(text: string)
    requires |text| >= 2
    ensures Plain(text)[2..] == Plain(text[2..])
    ensures Plain(text)[..2] == [if text[0] == '+' then '0' else LowerChar(text[0]), LowerChar(text[1])]
  {
    assert forall k | 0 <= k < |text| - 2 :: (k + 2) % 2 == k % 2;
  }

  lemma {:induction false} DecodedLength(text: string)
    ensures DecodeHex(text).Some? ==> |text| == 2 * |DecodeHex(text).value|
    decreases |text|
  {
    if |text| >= 2 { DecodedLength(text[2..]); }
  }

  /** Decoding undoes encoding. */
  lemma {:induction false} DecodeUndoesEncode(bytes: seq<bv8>)
    ensures DecodeHex(EncodeHex(bytes)) == Some(bytes)
  {
    if bytes != [] {
      DecodeUndoesEncode(bytes[1..]);
      PairIsItsNibbles(bytes[0]);
      var text := EncodeHex(bytes);
      assert text[2..] == EncodeHex(bytes[1..]);
      PairDecodes(text[0], text[1], bytes[0]);
      assert bytes == [bytes[0]] + bytes[1..];
    }
  }

  lemma OrOfXor(d: bv8, a: bv8, b: bv8)
    ensures d | (a ^ b) == 0 <==> d == 0 && a == b
  {
  }

  /** Bytes compared over the shorter length; on equal lengths this is equality. */
  method ConstantTimeEq(left: seq<bv8>, right: seq<bv8>) returns (same: bool)
    ensures |left| == |right| ==> (same <==> left == right)
    ensures same <==> left <= right || right <= left
  {
    var difference: bv8 := 0;
    var n := if |left| < |right| then |left| else |right|;
    for i := 0 to n
      invariant difference == 0 <==> left[..i] == right[..i]
    {
      OrOfXor(difference, left[i], right[i]);
      difference := difference | (left[i] ^ right[i]);
      assert left[..i + 1] == left[..i] + [left[i]] && right[..i + 1] == right[..i] + [right[i]];
    }
    assert left[..n] == left || right[..n] == right;
    same := difference == 0;
  }
}
