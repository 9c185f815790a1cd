/** Request ids: four little-endian bytes, decoded by signed 32-bit shifts and written back by `sendResponse`. */
module RequestIds {

  type Byte = b: bv32 | b < 256

  /** A JavaScript 32-bit integer, as its two's complement bits. */
  type Int32 = bv32

  function Negative(x: Int32): bool {
    x & 0x8000_0000 != 0
  }

  // JavaScript `>>`: copies of the sign bit come in from the left.

  function SignedShift8(x: Int32): Int32 {
    if Negative(x) then (x >> 8) | 0xFF00_0000 else x >> 8
  }

  function SignedShift16(x: Int32): Int32 {
    if Negative(x) then (x >> 16) | 0xFFFF_0000 else x >> 16
  }

  function SignedShift24(x: Int32): Int32 {
    if Negative(x) then (x >> 24) | 0xFFFF_FF00 else x >> 24
  }

  function Or4(b0: Byte, b1: Byte, b2: Byte, b3: Byte): Int32 {
    b0 | (b1 << 8) | (b2 << 16) | (b3 << 24)
  }

  function Decode(payload: seq<Byte>): Int32
    requires |payload| >= 4
  {
    Or4(payload[0], payload[1], payload[2], payload[3])
  }

  function LowByte(x: Int32): Byte {
    x & 0xFF
  }

  function Encode(id: Int32): seq<Byte> {
    [LowByte(id), LowByte(SignedShift8(id)), LowByte(SignedShift16(id)), LowByte(SignedShift24(id))]
  }

  /** The frame that `sendResponse` hands to the socket. */
  function Frame(opcode: Byte, id: Int32, payload: seq<Byte>): seq<Byte> {
    [opcode] + Encode(id) + payload
  }

  lemma HighBytes(b0: Byte, b1: Byte, b2: Byte, b3: Byte)
    ensures LowByte(SignedShift16(Or4(b0, b1, b2, b3))) == b2 && LowByte(SignedShift24(Or4(b0, b1, b2, b3))) == b3
  {
  }

  /** Every four bytes come back unchanged, whatever the sign bit. */
  lemma BytesRoundTrip(payload: seq<Byte>)
    requires |payload| >= 4
    ensures Encode(Decode(payload)) == payload[..4]
  {
    var b0, b1, b2, b3 := payload[0], payload[1], payload[2], payload[3];
    HighBytes(b0, b1, b2, b3);
    assert payload[..4] == [b0, b1, b2, b3];
  }

  lemma Masks(id: Int32)
    ensures LowByte(SignedShift8(id)) << 8 == id & 0xFF00
    ensures LowByte(SignedShift16(id)) << 16 == id & 0xFF_0000
    ensures LowByte(SignedShift24(id)) << 24 == id & 0xFF00_0000
  {
  }

  /** The bytes are read least significant first. */
  lemma LeastFirst(payload: seq<Byte>)
    requires |payload| >= 4
    ensures var id := Decode(payload);
      id & 0xFF == payload[0] && (id >> 8) & 0xFF == payload[1] && (id >> 16) & 0xFF == payload[2] && id >> 24 == payload[3]
  {
    Digits(payload[0], payload[1], payload[2], payload[3]);
  }

  lemma Digits(b0: Byte, b1: Byte, b2: Byte, b3: Byte)
    ensures var id := Or4(b0, b1, b2, b3); id & 0xFF == b0 && (id >> 8) & 0xFF == b1 && (id >> 16) & 0xFF == b2 && id >> 24 == b3
  {
  }

  /** Every id is the decoding of the bytes it is written as, so distinct ids have distinct bytes. */
  lemma IdRoundTrip(id: Int32)
    ensures |Encode(id)| == 4 && Decode(Encode(id)) == id
  {
    Masks(id);
  }

  /** A client finds the bytes it sent at positions 1 to 4 of the reply, and the payload behind them. */
  lemma ReplyEchoesId(request: seq<Byte>, opcode: Byte, payload: seq<Byte>)
    requires |request| >= 4
    ensures var reply := Frame(opcode, Decode(request), payload);
      |reply| == 5 + |payload| && reply[0] == opcode && reply[1..5] == request[..4] && reply[5..] == payload
  {
    BytesRoundTrip(request);
  }
}
