// Base16 (section 8 of RFC 4648): the lower-case encoder of the memory-introspection
// PTA and the decoder that the receiver applies to audit proctitles.
module Hex {
  import opened Wrappers

  newtype byte = b: int | 0 <= b < 256

  const HEX_LOOKUP: string := "0123456789abcdef"

  /** The digit of a value. */
  function Digit(v: nat): (c: char)
    requires v < 16
    ensures DigitValue(c) == Some(v)
  {
    HEX_LOOKUP[v]
  }

  /** The two digits of one byte. */
  function Digits(b: byte): (pair: string)
    ensures |pair| == 2
  {
    [Digit(b as int / 16), Digit(b as int % 16)]
  }

  function Encode(bytes: seq<byte>): (digits: string)
    ensures |digits| == 2 * |bytes|
  {
    if bytes == [] then "" else Digits(bytes[0]) + Encode(bytes[1..])
  }

  /** The value of one digit; both letter cases are accepted, as `binascii.a2b_hex` does. */
  function DigitValue(c: char): (v: Option<nat>)
    ensures v.Some? ==> v.value < 16
  {
    if '0' <= c <= '9' then Some(c as int - '0' as int)
    else if 'a' <= c <= 'f' then Some(c as int - 'a' as int + 10)
    else if 'A' <= c <= 'F' then Some(c as int - 'A' as int + 10)
    else None
  }

  /** `binascii.a2b_hex`: None where Python raises an exception. */
  function Decode(digits: string): Option<seq<byte>> {
    if digits == "" then Some([])
    else if |digits| == 1 then None
    else
      var hi :- DigitValue(digits[0]);
      var lo :- DigitValue(digits[1]);
      var rest :- Decode(digits[2..]);
      Some([(16 * hi + lo) as byte] + rest)
  }

  lemma DecodePair(c: char, d: char, rest: string)
    requires DigitValue(c).Some? && DigitValue(d).Some? && Decode(rest).Some?
    ensures Decode([c, d] + rest)
        == Some([(16 * DigitValue(c).value + DigitValue(d).value) as byte] + Decode(rest).value)
  {
    var all := [c, d] + rest;
    assert all[0] == c && all[1] == d && all[2..] == rest;
  }

  /** Decoding an encoding returns the bytes. */
  lemma {:induction false} DecodeEncode(bytes: seq<byte>)
    ensures Decode(Encode(bytes)) == Some(bytes)
  {
    if bytes != [] {
      DecodeEncode(bytes[1..]);
      var v := bytes[0] as int;
      DecodePair(Digit(v / 16), Digit(v % 16), Encode(bytes[1..]));
      assert 16 * (v / 16) + v % 16 == v;
      assert [bytes[0]] + bytes[1..] == bytes;
    }
  }

  // ------------------------------------------------- what decodes, and to what

  const LOWER: string := "0123456789abcdef"
  const UPPER: string := "0123456789ABCDEF"

  /** The character is the hex digit of `v`, in either letter case. */
  predicate IsDigitOf(c: char, v: int) {
    0 <= v < 16 && (c == LOWER[v] || c == UPPER[v])
  }

  /** Two digits per byte, each in either letter case. */
  predicate Spells(digits: string, bytes: seq<byte>) {
    && |digits| == 2 * |bytes|
    && (forall i :: 0 <= i < |bytes| ==>
          IsDigitOf(digits[2 * i], bytes[i] as int / 16) && IsDigitOf(digits[2 * i + 1], bytes[i] as int % 16))
  }

  predicate IsHexChar(c: char) {
    '0' <= c <= '9' || 'a' <= c <= 'f' || 'A' <= c <= 'F'
  }

  lemma DigitValueExactly(c: char, v: nat)
    ensures DigitValue(c) == Some(v) <==> IsDigitOf(c, v)
    ensures DigitValue(c).Some? <==> IsHexChar(c)
  {
  }

  lemma SpellsStep(digits: string, b: byte, bytes: seq<byte>)
    requires |digits| >= 2
    ensures Spells(digits, [b] + bytes)
       <==> IsDigitOf(digits[0], b as int / 16) && IsDigitOf(digits[1], b as int % 16) && Spells(digits[2..], bytes)
  {
    var all, tail := [b] + bytes, digits[2..];
    assert forall i :: 0 <= i < |bytes| ==> all[i + 1] == bytes[i];
    assert forall i :: 0 <= i < |tail| ==> tail[i] == digits[i + 2];
    if Spells(digits, all) {
      forall i | 0 <= i < |bytes|
        ensures IsDigitOf(tail[2 * i], bytes[i] as int / 16) && IsDigitOf(tail[2 * i + 1], bytes[i] as int % 16)
      {
        assert IsDigitOf(digits[2 * (i + 1)], all[i + 1] as int / 16);
      }
      assert IsDigitOf(digits[2 * 0], all[0] as int / 16);
    }
    if IsDigitOf(digits[0], b as int / 16) && IsDigitOf(digits[1], b as int % 16) && Spells(tail, bytes) {
      forall i | 0 <= i < |all|
        ensures IsDigitOf(digits[2 * i], all[i] as int / 16) && IsDigitOf(digits[2 * i + 1], all[i] as int % 16)
      {
        if i > 0 {
          assert IsDigitOf(tail[2 * (i - 1)], bytes[i - 1] as int / 16);
        }
      }
    }
  }

  lemma Nibbles(hi: nat, lo: nat, b: nat)
    requires hi < 16 && lo < 16 && b < 256
    ensures 16 * hi + lo == b <==> hi == b / 16 && lo == b % 16
  {
  }

  /** The byte that two digits make. */
  lemma ByteOfDigits(c: char, d: char, b: byte)
    requires DigitValue(c).Some? && DigitValue(d).Some?
    ensures (16 * DigitValue(c).value + DigitValue(d).value) as byte == b
       <==> DigitValue(c).value == b as int / 16 && DigitValue(d).value == b as int % 16
  {
    Nibbles(DigitValue(c).value, DigitValue(d).value, b as int);
  }

  /** Decoding gives exactly the bytes that the digits spell, whatever the letter case of each. */
  lemma {:induction false} DecodeExactly(digits: string, bytes: seq<byte>)
    ensures Decode(digits) == Some(bytes) <==> Spells(digits, bytes)
    decreases |digits|
  {
    if |digits| >= 2 && bytes != [] {
      var b, rest := bytes[0], bytes[1..];
      assert [b] + rest == bytes;
      DecodeExactly(digits[2..], rest);
      SpellsStep(digits, b, rest);
      DigitValueExactly(digits[0], b as int / 16);
      DigitValueExactly(digits[1], b as int % 16);
      if DigitValue(digits[0]).Some? && DigitValue(digits[1]).Some? {
        ByteOfDigits(digits[0], digits[1], b);
      }
    }
  }

  /** An even number of hex digits. */
  predicate IsHexText(digits: string) {
    |digits| % 2 == 0 && forall i :: 0 <= i < |digits| ==> IsHexChar(digits[i])
  }

  /** Decoding raises exactly on everything else. */
  lemma {:induction false} DecodeFailsExactly(digits: string)
    ensures Decode(digits).None? <==> !IsHexText(digits)
    decreases |digits|
  {
    if |digits| >= 2 {
      var tail := digits[2..];
      DecodeFailsExactly(tail);
      DigitValueExactly(digits[0], 0);
      DigitValueExactly(digits[1], 0);
      assert forall i :: 0 <= i < |tail| ==> tail[i] == digits[i + 2];
      assert IsHexText(tail) && IsHexChar(digits[0]) && IsHexChar(digits[1]) ==> IsHexText(digits);
    }
  }

  lemma SpelledIsHexText(digits: string, bytes: seq<byte>)
    requires Spells(digits, bytes)
    ensures IsHexText(digits)
  {
    DecodeExactly(digits, bytes);
    DecodeFailsExactly(digits);
  }

  /** Encoding writes lower-case digits, two per byte. */
  lemma {:induction false} EncodeAt(bytes: seq<byte>, i: nat)
    requires i < |bytes|
    ensures Encode(bytes)[2 * i] == LOWER[bytes[i] as int / 16]
    ensures Encode(bytes)[2 * i + 1] == LOWER[bytes[i] as int % 16]
  {
    if i > 0 {
      EncodeAt(bytes[1..], i - 1);
      assert Encode(bytes)[2 * i] == Encode(bytes[1..])[2 * (i - 1)];
      assert Encode(bytes)[2 * i + 1] == Encode(bytes[1..])[2 * (i - 1) + 1];
    }
  }

  lemma {:induction false} EncodeSnoc(bytes: seq<byte>, b: byte)
    ensures Encode(bytes + [b]) == Encode(bytes) + Digits(b)
  {
    var all := bytes + [b];
    if bytes == [] {
      assert all[1..] == [];
    } else {
      assert all[0] == bytes[0] && all[1..] == bytes[1..] + [b];
      EncodeSnoc(bytes[1..], b);
      Regroup(Digits(bytes[0]), Encode(bytes[1..]), Digits(b));
    }
  }

  lemma Regroup(a: string, b: string, c: string)
    ensures a + (b + c) == (a + b) + c
  {
  }

  /**
   * The PTA's encoder: writes exactly two digits per byte and a terminator, and nothing else;
   * what it wrote decodes to the source bytes.
   */
  method Bytes2Hex(src: array<byte>, out: array<char>, len: nat)
    requires len <= src.Length
    requires 2 * len < out.Length
    modifies out
    ensures out[..2 * len] == Encode(src[..len])
    ensures Decode(out[..2 * len]) == Some(src[..len])
    ensures forall i :: 0 <= i < len ==>
              && out[2 * i] == "0123456789abcdef"[src[i] as int / 16]
              && out[2 * i + 1] == "0123456789abcdef"[src[i] as int % 16]
    ensures out[2 * len] == '\0'
    ensures out[2 * len + 1..] == old(out[2 * len + 1..])
  {
    var i := 0;
    while i < len
      invariant 0 <= i <= len
      invariant out[..2 * i] == Encode(src[..i])
      invariant out[2 * len + 1..] == old(out[2 * len + 1..])
    {
      out[2 * i] := Digit(src[i] as int / 16);
      out[2 * i + 1] := Digit(src[i] as int % 16);
      EncodeSnoc(src[..i], src[i]);
      assert src[..i + 1] == src[..i] + [src[i]];
      assert out[..2 * i + 2] == out[..2 * i] + Digits(src[i]);
      i := i + 1;
    }
    out[2 * len] := '\0';
    DecodeEncode(src[..len]);
    forall k | 0 <= k < len
      ensures out[2 * k] == LOWER[src[k] as int / 16] && out[2 * k + 1] == LOWER[src[k] as int % 16]
    {
      EncodeAt(src[..len], k);
      assert out[..2 * len][2 * k] == out[2 * k] && out[..2 * len][2 * k + 1] == out[2 * k + 1];
    }
  }
}
