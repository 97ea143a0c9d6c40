/** binkp blocks (`crates/legacy-binkp/src/frame.rs`): a 16-bit header, its top bit the kind, the rest the length. */
module BinkpFrame {
  import opened Base

  const BLOCK_MAX := 0x7FFF
  const COMMAND_BIT := 0x8000

  datatype RawBlock = Command(id: byte, args: seq<byte>) | Data(payload: seq<byte>)

  datatype Decoded = Block(block: RawBlock, used: nat) | Incomplete | EmptyCommand

  function Body(b: RawBlock): seq<byte> {
    match b
    case Command(id, args) => [id] + args
    case Data(payload) => payload
  }

  function Encode(b: RawBlock): Result<seq<byte>> {
    var body := Body(b);
    if |body| > BLOCK_MAX then Err
    else
      var header := |body| + if b.Command? then COMMAND_BIT else 0;
      Ok([(header / 256) as byte, (header % 256) as byte] + body)
  }

  function Header(input: seq<byte>): nat
    requires |input| >= 2
  {
    input[0] as nat * 256 + input[1] as nat
  }

  /** One block from the front of the input, and how much of it that took. */
  function Decode(input: seq<byte>): (d: Decoded)
    ensures d.Block? ==> 2 <= d.used <= |input|
  {
    if |input| < 2 then Incomplete
    else
      var len := Header(input) % COMMAND_BIT;
      if |input| < 2 + len then Incomplete
      else
        var body := input[2..2 + len];
        if Header(input) < COMMAND_BIT then Block(Data(body), 2 + len)
        else if body == [] then EmptyCommand
        else Block(Command(body[0], body[1..]), 2 + len)
  }

  /** Blocks delimit themselves: once a front is decided, what follows cannot change it. */
  lemma DecodeIgnoresTheRest(input: seq<byte>, rest: seq<byte>)
    requires !Decode(input).Incomplete?
    ensures Decode(input + rest) == Decode(input)
  {
    var len := Header(input) % COMMAND_BIT;
    assert Header(input + rest) == Header(input);
    assert (input + rest)[2..2 + len] == input[2..2 + len];
  }

  /** Round trip, whatever comes after. */
  lemma DecodeEncoded(b: RawBlock, rest: seq<byte>)
    requires Encode(b).Ok?
    ensures Decode(Encode(b).value + rest) == Block(b, |Encode(b).value|)
  {
    var e := Encode(b).value;
    var input := e + rest;
    var len := |Body(b)|;
    assert input[..2] == e[..2];
    assert input[0] == e[0] && input[1] == e[1];
    assert Header(input) == len + if b.Command? then COMMAND_BIT else 0;
    assert input[2..2 + len] == Body(b);
  }
}
