/** Hexadecimal text for keys, as the `hex` crate writes and reads it. */
module Hex {
  import opened Base

  const DIGITS := "0123456789abcdef"

  function Value(c: char): (v: Option<nat>)
    ensures v.Some? ==> v.value < 16
  {
    if '0' <= c <= '9' then Some(c as int - '0' as int)
    else if 'a' <= c <= 'f' then Some(c as int - 'a' as int + 10)
    else if 'A' <= c <= 'F' then Some(c as int - 'A' as int + 10)
    else None
  }

  function Encode(b: seq<byte>): string {
    if b == [] then ""
    else [DIGITS[b[0] as int / 16], DIGITS[b[0] as int % 16]] + Encode(b[1..])
  }

  /** Either letter case is read; odd length or any other character is refused. */
  function Decode(s: string): Option<seq<byte>> {
    if s == "" then Some([])
    else if |s| == 1 then None
    else
      match (Value(s[0]), Value(s[1]), Decode(s[2..]))
      case (Some(hi), Some(lo), Some(rest)) => Some([(16 * hi + lo) as byte] + rest)
      case _ => None
  }

  lemma DigitValue(v: nat)
    requires v < 16
    ensures Value(DIGITS[v]) == Some(v)
  {
  }

  lemma {:induction false} DecodeEncode(b: seq<byte>)
    ensures Decode(Encode(b)) == Some(b)
  {
    if b != [] {
      var hi, lo := b[0] as int / 16, b[0] as int % 16;
      DigitValue(hi);
      DigitValue(lo);
      DecodeEncode(b[1..]);
      var s := Encode(b);
      assert s == [DIGITS[hi], DIGITS[lo]] + Encode(b[1..]);
      assert s[2..] == Encode(b[1..]);
      assert Decode(s) == Some([(16 * hi + lo) as byte] + b[1..]);
      assert [(16 * hi + lo) as byte] + b[1..] == b;
    }
  }
}
