/** The parts of an RTP packet the recorder reads (RFC 3550 section 5.1). */
module Rtp {
  import opened SequenceNumbers

  type byte = x: int | 0 <= x < 0x100
  type uint32 = x: int | 0 <= x < 0x1_0000_0000

  datatype RtpPacket = RtpPacket(number: uint16, timestamp: uint32, marker: bool, payload: seq<byte>)
}
