/**
 The desktop shell's base64 decoder (`apps/desktop/src/transfers.rs`) against
 the encoding of RFC 4648, section 4.
 */
module Base64 {
  import opened Base

  /** The source's `u32`: every operation on it is checked not to overflow. */
  newtype u32 = x: int | 0 <= x < 0x1_0000_0000

  const PAD: byte := 61

  type Digit = d: nat | d < 64

  function Value(c: byte): Option<Digit> {
    if 65 <= c <= 90 then Some((c - 65) as nat)
    else if 97 <= c <= 122 then Some((c - 97) as nat + 26)
    else if 48 <= c <= 57 then Some((c - 48) as nat + 52)
    else if c == 43 then Some(62)
    else if c == 47 then Some(63)
    else None
  }

  /** Padding, space, tab, line feed, form feed or carriage return. */
  predicate Skipped(c: byte) {
    c == PAD || c == 32 || c == 9 || c == 10 || c == 12 || c == 13
  }

  /** `1 << bits` for the shifts that occur. */
  function Pow2(bits: u32): (p: u32)
    requires bits in {0, 2, 4, 6}
  {
    if bits == 0 then 1 else if bits == 2 then 4 else if bits == 4 then 16 else 64
  }

  // The three bytes of a group, each from two neighbouring digits.

  function High(x: Digit, y: Digit): byte {
    (x as int * 4 + y as int / 16) as byte
  }

  function Middle(x: Digit, y: Digit): byte {
    (x as int % 16 * 16 + y as int / 4) as byte
  }

  function Low(x: Digit, y: Digit): byte {
    (x as int % 4 * 64 + y as int) as byte
  }

  // ---- what the digits mean ----------------------------------------------------------

  /** The digits of the text, in order; a byte that is no digit and not skipped spoils it. */
  function Digits(text: seq<byte>): Result<seq<Digit>> {
    if text == [] then Ok([])
    else
      var c, before := text[|text| - 1], Digits(text[..|text| - 1]);
      if Skipped(c) || before.Err? then before
      else if Value(c).Some? then Ok(before.value + [Value(c).value])
      else Err
  }

  /** Four digits are three bytes; of a shorter last group, the whole bytes. */
  function FromDigits(d: seq<Digit>): seq<byte> {
    if |d| < 2 then []
    else if |d| == 2 then [High(d[0], d[1])]
    else if |d| == 3 then [High(d[0], d[1]), Middle(d[1], d[2])]
    else [High(d[0], d[1]), Middle(d[1], d[2]), Low(d[2], d[3])] + FromDigits(d[4..])
  }

  /** The byte that one more digit completes, if it completes one. */
  function Completed(d: seq<Digit>, v: Digit): seq<byte> {
    match |d| % 4
    case 0 => []
    case 1 => [High(d[|d| - 1], v)]
    case 2 => [Middle(d[|d| - 1], v)]
    case _ => [Low(d[|d| - 1], v)]
  }

  lemma CompletedLater(d: seq<Digit>, v: Digit)
    requires |d| >= 4
    ensures Completed(d[4..], v) == Completed(d, v)
  {
    assert |d[4..]| % 4 == |d| % 4;
  }

  lemma {:induction false} OneMoreDigit(d: seq<Digit>, v: Digit)
    ensures FromDigits(d + [v]) == FromDigits(d) + Completed(d, v)
  {
    if |d| >= 4 {
      OneMoreDigit(d[4..], v);
      var group := [High(d[0], d[1]), Middle(d[1], d[2]), Low(d[2], d[3])];
      assert (d + [v])[4..] == d[4..] + [v];
      assert FromDigits(d + [v]) == group + FromDigits(d[4..] + [v]);
      CompletedLater(d, v);
    } else {
      assert (d + [v])[..|d|] == d;
      assert |d| == 3 ==> (d + [v])[4..] == [];
    }
  }

  // ---- the loop -----------------------------------------------------------------------

  /** The bits not yet handed out are the low ones of the last digit. */
  predicate Pending(d: seq<Digit>, acc: u32, bits: u32) {
    match |d| % 4
    case 0 => bits == 0 && acc == 0
    case 1 => bits == 6 && acc as int == d[|d| - 1]
    case 2 => bits == 4 && acc as int == d[|d| - 1] % 16
    case _ => bits == 2 && acc as int == d[|d| - 1] % 4
  }

  lemma PendingIsSmall(d: seq<Digit>, acc: u32, bits: u32)
    requires Pending(d, acc, bits)
    ensures bits in {0, 2, 4, 6} && acc < Pow2(bits)
  {
  }

  /** One turn of the loop: shift the digit in, and hand out a byte when there are eight bits. */
  method Feed(acc: u32, bits: u32, v: Digit, ghost d: seq<Digit>) returns (acc': u32, bits': u32, out: seq<byte>)
    requires Pending(d, acc, bits)
    ensures Pending(d + [v], acc', bits') && out == Completed(d, v)
  {
    PendingIsSmall(d, acc, bits);
    acc', bits', out := acc * 64 + v as u32, bits + 6, [];
    if bits' >= 8 {
      bits' := bits' - 8;
      ShiftedOut(d, acc, bits, v);
      out := [(acc' / Pow2(bits')) as byte];
      acc' := acc' % Pow2(bits');
    }
    PendingAfter(d, v, acc', bits');
  }

  lemma {:induction false} PendingAfter(d: seq<Digit>, v: Digit, acc: u32, bits: u32)
    requires match |d| % 4
             case 0 => bits == 6 && acc as int == v
             case 1 => bits == 4 && acc as int == v % 16
             case 2 => bits == 2 && acc as int == v % 4
             case _ => bits == 0 && acc == 0
    ensures Pending(d + [v], acc, bits)
  {
    assert |d + [v]| == |d| + 1 && (d + [v])[|d|] == v;
  }

  lemma ShiftedOut(d: seq<Digit>, acc: u32, bits: u32, v: Digit)
    requires Pending(d, acc, bits) && bits in {2, 4, 6}
    ensures (acc * 64 + v as u32) / Pow2(bits - 2) < 256
    ensures [((acc * 64 + v as u32) / Pow2(bits - 2)) as byte] == Completed(d, v)
    ensures ((acc * 64 + v as u32) % Pow2(bits - 2)) as int == v as int % Pow2(bits - 2) as int
    ensures |d| % 4 == if bits == 6 then 1 else if bits == 4 then 2 else 3
  {
    if bits == 6 {
    } else if bits == 4 {
    } else {
    }
  }

  /** `decode_base64`. */
  method DecodeBase64(text: seq<byte>) returns (r: Result<seq<byte>>)
    ensures r == match Digits(text)
                 case Ok(d) => Ok(FromDigits(d))
                 case Err => Err
  {
    var out: seq<byte> := [];
    var acc: u32, bits: u32 := 0, 0;
    for i := 0 to |text|
      invariant Digits(text[..i]).Ok? && out == FromDigits(Digits(text[..i]).value)
      invariant Pending(Digits(text[..i]).value, acc, bits)
    {
      var c := text[i];
      assert text[..i + 1][..i] == text[..i];
      if !Skipped(c) {
        var v := Value(c);
        if v.None? {
          ErrStays(text, i + 1);
          return Err;
        }
        var more;
        OneMoreDigit(Digits(text[..i]).value, v.value);
        acc, bits, more := Feed(acc, bits, v.value, Digits(text[..i]).value);
        out := out + more;
      }
    }
    assert text[..|text|] == text;
    return Ok(out);
  }

  lemma {:induction false} ErrStays(text: seq<byte>, i: nat)
    requires i <= |text| && Digits(text[..i]).Err?
    ensures Digits(text).Err?
    decreases |text|
  {
    if i == |text| {
      assert text[..i] == text;
    } else {
      assert text[..|text| - 1][..i] == text[..i];
      ErrStays(text[..|text| - 1], i);
    }
  }

  // ---- the encoding ----------------------------------------------------------------------

  function EncodedDigits(b: seq<byte>): seq<Digit> {
    if b == [] then []
    else
      var x := b[0] as int;
      if |b| == 1 then [x / 4, x % 4 * 16]
      else
        var y := b[1] as int;
        if |b| == 2 then [x / 4, x % 4 * 16 + y / 16, y % 16 * 4]
        else
          var z := b[2] as int;
          [x / 4, x % 4 * 16 + y / 16, y % 16 * 4 + z / 64, z % 64] + EncodedDigits(b[3..])
  }

  function Character(d: Digit): byte {
    if d < 26 then d as byte + 65
    else if d < 52 then (d - 26) as byte + 97
    else if d < 62 then (d - 52) as byte + 48
    else if d == 62 then 43 else 47
  }

  function Characters(d: seq<Digit>): (text: seq<byte>)
    ensures |text| == |d| && forall i :: 0 <= i < |d| ==> text[i] == Character(d[i])
  {
    seq(|d|, i requires 0 <= i < |d| => Character(d[i]))
  }

  function Padding(b: seq<byte>): seq<byte> {
    if |b| % 3 == 1 then [PAD, PAD] else if |b| % 3 == 2 then [PAD] else []
  }

  /** RFC 4648, section 4. */
  function Encode(b: seq<byte>): seq<byte> {
    Characters(EncodedDigits(b)) + Padding(b)
  }

  /** The two tables agree. */
  lemma ValueOfCharacter(d: Digit)
    ensures Value(Character(d)) == Some(d) && !Skipped(Character(d))
  {
  }

  lemma {:induction false} FromEncoded(b: seq<byte>)
    ensures FromDigits(EncodedDigits(b)) == b
  {
    if |b| == 1 {
      ThreeBytes(b[0], 0, 0);
    } else if |b| == 2 {
      ThreeBytes(b[0], b[1], 0);
    } else if |b| >= 3 {
      FromEncoded(b[3..]);
      ThreeBytes(b[0], b[1], b[2]);
      assert EncodedDigits(b)[4..] == EncodedDigits(b[3..]);
      assert b == [b[0], b[1], b[2]] + b[3..];
    }
  }

  lemma ThreeBytes(x: byte, y: byte, z: byte)
    ensures var d0, d1, d2, d3 :=
        x as int / 4, x as int % 4 * 16 + y as int / 16, y as int % 16 * 4 + z as int / 64, z as int % 64;
      && d0 < 64 && d1 < 64 && d2 < 64 && d3 < 64
      && d0 * 4 + d1 / 16 == x as int && d1 % 16 * 16 + d2 / 4 == y as int && d2 % 4 * 64 + d3 == z as int
  {
  }

  /** What is left of a text when padding and whitespace are taken out, wherever they were. */
  function Significant(text: seq<byte>): seq<byte> {
    if text == [] then []
    else
      Significant(text[..|text| - 1]) + if Skipped(text[|text| - 1]) then [] else [text[|text| - 1]]
  }

  lemma {:induction false} DigitsOf(text: seq<byte>, d: seq<Digit>)
    requires Significant(text) == Characters(d)
    ensures Digits(text) == Ok(d)
    decreases |text|
  {
    if text == [] {
      assert |d| == |Characters(d)|;
    } else {
      var c, before := text[|text| - 1], text[..|text| - 1];
      if Skipped(c) {
        DigitsOf(before, d);
      } else {
        var n := |d| - 1;
        assert |Significant(text)| == |Significant(before)| + 1 == |d|;
        assert Significant(text)[n] == c == Character(d[n]);
        assert Significant(before) == Significant(text)[..n] == Characters(d)[..n] == Characters(d[..n]);
        DigitsOf(before, d[..n]);
        ValueOfCharacter(d[n]);
        assert d[..n] + [d[n]] == d;
      }
    }
  }

  /**
   Round trip. Any text whose letters are the encoding of `b`, however
   whitespace and padding are strewn through it, decodes to `b`.
   */
  lemma DecodesWhatWasEncoded(text: seq<byte>, b: seq<byte>)
    requires Significant(text) == Characters(EncodedDigits(b))
    ensures Digits(text).Ok? && FromDigits(Digits(text).value) == b
  {
    DigitsOf(text, EncodedDigits(b));
    FromEncoded(b);
  }

  lemma {:induction false} SignificantJoins(a: seq<byte>, b: seq<byte>)
    ensures Significant(a + b) == Significant(a) + Significant(b)
    decreases |b|
  {
    if b == [] {
      assert a + b == a;
    } else {
      var n := |b| - 1;
      SignificantJoins(a, b[..n]);
      assert (a + b)[..|a + b| - 1] == a + b[..n];
    }
  }

  lemma {:induction false} LettersAreSignificant(d: seq<Digit>)
    ensures Significant(Characters(d)) == Characters(d)
  {
    if d != [] {
      var n := |d| - 1;
      LettersAreSignificant(d[..n]);
      assert Characters(d)[..n] == Characters(d[..n]);
      ValueOfCharacter(d[n]);
    }
  }

  lemma EncodedIsSignificant(text: seq<byte>, b: seq<byte>)
    requires text == Encode(b) || text == Characters(EncodedDigits(b))
    ensures Significant(text) == Characters(EncodedDigits(b))
  {
    LettersAreSignificant(EncodedDigits(b));
    SignificantJoins(Characters(EncodedDigits(b)), Padding(b));
    PaddingIsSkipped(b);
  }

  /** A blank anywhere leaves the letters as they were. */
  lemma BlankInserted(left: seq<byte>, blank: byte, right: seq<byte>)
    requires Skipped(blank)
    ensures Significant(left + [blank] + right) == Significant(left + right)
  {
    assert [blank][..0] == [];
    assert Significant([blank]) == [];
    SignificantJoins(left, right);
    SignificantJoins(left, [blank]);
    SignificantJoins(left + [blank], right);
  }

  /** Both the padded and the unpadded encoding are decoded, and with blanks inserted anywhere in them. */
  lemma EncodingsAreRead(b: seq<byte>, left: seq<byte>, blank: byte, right: seq<byte>)
    requires left + right == Encode(b) || left + right == Characters(EncodedDigits(b))
    requires Skipped(blank)
    ensures Digits(left + right).Ok? && FromDigits(Digits(left + right).value) == b
    ensures Digits(left + [blank] + right).Ok? && FromDigits(Digits(left + [blank] + right).value) == b
  {
    EncodedIsSignificant(left + right, b);
    BlankInserted(left, blank, right);
    DecodesWhatWasEncoded(left + right, b);
    DecodesWhatWasEncoded(left + [blank] + right, b);
  }

  lemma PaddingIsSkipped(b: seq<byte>)
    ensures Significant(Padding(b)) == []
  {
    assert [PAD][..0] == [] && [PAD, PAD][..1] == [PAD];
    assert Significant([PAD]) == Significant([PAD][..0]) == [];
    assert Significant([PAD, PAD]) == Significant([PAD, PAD][..1]) == [];
  }

  /** Exactly when a text is refused: some byte is neither a digit nor skipped. */
  lemma {:induction false} RefusedExactlyWhen(text: seq<byte>)
    ensures Digits(text).Err? <==> exists i :: 0 <= i < |text| && !Skipped(text[i]) && Value(text[i]).None?
  {
    if text != [] {
      var n := |text| - 1;
      RefusedExactlyWhen(text[..n]);
      if Digits(text[..n]).Err? {
        var i :| 0 <= i < n && !Skipped(text[..n][i]) && Value(text[..n][i]).None?;
        assert !Skipped(text[i]) && Value(text[i]).None?;
      }
      if i :| 0 <= i < |text| && !Skipped(text[i]) && Value(text[i]).None? {
        assert i < n ==> !Skipped(text[..n][i]) && Value(text[..n][i]).None?;
      }
    }
  }
}
