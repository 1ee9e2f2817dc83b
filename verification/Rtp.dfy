/**
Values shared by the H.264 receive path: RTP packets, access units, limits and
the errors of `internal/video/types.go`. Fixed-width integers are subset types
of `int`; every wrap-around is written out where the source relies on it.
*/
module Rtp {
  import opened Basics

  type Seq16 = x: int | 0 <= x < 0x1_0000
  type Time32 = x: int | 0 <= x < 0x1_0000_0000

  datatype VideoError =
    | InvalidConfig | InvalidPacket | UnsupportedPacket | PacketLoss | PacketTooLarge
    | AccessUnitTooLarge | GenerationMismatch | DecodeFailed | DimensionsExceeded
    | VideoUnavailable | PipelineClosed

  /** `receivedAt == 0` stands for Go's zero time. */
  datatype RawPacket = RawPacket(
    generation: nat, sequence: Seq16, timestamp: Time32, marker: bool, receivedAt: nat, payload: seq<Byte>)

  type Payload = s: seq<Byte> | s != [] witness [1]

  /** A packet that passed the emptiness check of `Push`. */
  type Packet = p: RawPacket | p.payload != [] witness RawPacket(1, 0, 0, false, 1, [1])

  /** Limits after `withDefaults` and `validate`: all positive. */
  datatype LimitValues = LimitValues(maxPacketBytes: nat, maxUnitBytes: nat, maxPackets: nat)
  type Limits = l: LimitValues | l.maxPacketBytes > 0 && l.maxUnitBytes > 0 && l.maxPackets > 0
    witness LimitValues(0x1_0000, 0x80_0000, 8192)

  /**
  One access unit. `chain` is stamped by the pipeline. Two fields serve the
  specification only: `picture` keeps a local of `assemble`, and `serial` is the
  position of the unit among all units the pipeline's depacketizer emitted.
  */
  datatype AccessUnit = AccessUnit(
    generation: nat, rtpTime: Time32, firstSequence: Seq16, lastSequence: Seq16, receivedAt: nat,
    annexB: seq<Byte>, hasSPS: bool, hasPPS: bool, keyframe: bool, decodable: bool,
    reused: bool, discontinuity: bool, chain: nat, picture: bool, serial: nat)

  /** Go's `int32(a - b)` on unsigned 32-bit operands. */
  function SignedDifference(a: Time32, b: Time32): (d: int)
    ensures -0x8000_0000 <= d < 0x8000_0000
    ensures (a - b - d) % 0x1_0000_0000 == 0
  {
    var d := (a - b) % 0x1_0000_0000;
    if d >= 0x8000_0000 then d - 0x1_0000_0000 else d
  }

  function NextSequence(s: Seq16): Seq16 { (s + 1) % 0x1_0000 }

  const START_CODE: seq<Byte> := [0, 0, 0, 1]

  /** The low five bits of a NAL unit header. */
  function TypeOf(header: Byte): (t: int)
    ensures 0 <= t < 32
  {
    header % 32
  }
}
