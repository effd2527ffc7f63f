// Shared OBEX vocabulary used by the Object Push and Phone Book Access
// managers: request opcodes and response codes of IrOBEX 1.2, the final
// bit, the packet-size constants, and big-endian integer reading.
//
// The header codec (ObexBase) is not part of this model; callers receive
// an already parsed header set as an input value.

module Obex {

  newtype byte = x: int | 0 <= x < 256

  // Request opcodes, IrOBEX 1.2 section 3.3.
  const Connect: byte := 0x80
  const Disconnect: byte := 0x81
  const Put: byte := 0x02
  const PutFinal: byte := 0x82
  const Get: byte := 0x03
  const GetFinal: byte := 0x83
  const SetPath: byte := 0x85
  const Abort: byte := 0xFF

  // Response codes, IrOBEX 1.2 section 3.2.1 (all carry the final bit).
  const Continue: byte := 0x90
  const Success: byte := 0xA0
  const BadRequest: byte := 0xC0
  const Unauthorized: byte := 0xC1
  const Forbidden: byte := 0xC3
  const NotFound: byte := 0xC4
  const NotAcceptable: byte := 0xC6
  const PreconditionFailed: byte := 0xCC
  const InternalServerError: byte := 0xD0
  const NotImplemented: byte := 0xD1

  /** The high bit of an opcode or response code. */
  const FinalBit: byte := 0x80

  // Packet-size constants of the OBEX base layer (IrOBEX 1.2 values).
  const LeastMaxSize: int := 255
  const RespHeaderSize: int := 3
  const BodyHeaderSize: int := 3

  /** `b & ~FINAL_BIT`: the code with its high bit cleared. */
  function ClearFinalBit(b: byte): (r: byte)
    ensures r < 0x80 && r as int % 0x80 == b as int % 0x80
  {
    if b >= 0x80 then b - 0x80 else b
  }

  predicate HasFinalBit(b: byte) {
    b >= 0x80
  }

  /** BigEndian::readUint16 */
  function ReadUint16(hi: byte, lo: byte): (r: int)
    ensures 0 <= r < 0x1_0000
    ensures r / 256 == hi as int && r % 256 == lo as int
  {
    hi as int * 256 + lo as int
  }

  /** BigEndian::readUint32 over four bytes */
  function ReadUint32(s: seq<byte>): (r: int)
    requires |s| == 4
    ensures 0 <= r < 0x1_0000_0000
    ensures r / 0x100_0000 == s[0] as int && (r / 0x1_0000) % 256 == s[1] as int
    ensures (r / 256) % 256 == s[2] as int && r % 256 == s[3] as int
  {
    ((s[0] as int * 256 + s[1] as int) * 256 + s[2] as int) * 256 + s[3] as int
  }
}
