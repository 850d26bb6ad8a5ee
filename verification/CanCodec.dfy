/** The CAN frame encoder of virtio_can_start_xmit and the decoder of virtio_can_read_rx_queue,
    down to the bytes in the shared buffers (virtio_can.h).

    Words are integers in their C range. The masks involved are single bits and low bit
    groups, so `x & mask` is written as the division and remainder it stands for. */
module VirtioCanCodec {

  import opened Words

  const VIRTIO_CAN_TX: U16 := 0x0001
  const VIRTIO_CAN_RX: U16 := 0x0101

  const CAN_MAX_DLEN: nat := 8
  const CANFD_MAX_DLEN: nat := 64
  const HEADER_SIZE: nat := 12
  const RX_BUFFER_SIZE: nat := 76

  // Identifier word of the CAN stack: flags in bits 31..29, identifier below.
  const CAN_EFF_FLAG: U32 := 0x8000_0000
  const CAN_RTR_FLAG: U32 := 0x4000_0000
  const CAN_ERR_FLAG: U32 := 0x2000_0000

  predicate IsEff(id: U32) { id / CAN_EFF_FLAG % 2 == 1 }
  predicate IsRtr(id: U32) { id / CAN_RTR_FLAG % 2 == 1 }
  predicate IsErr(id: U32) { id / CAN_ERR_FLAG % 2 == 1 }
  function EffBits(id: U32): U32 { id % 0x2000_0000 }   // & CAN_EFF_MASK
  function SffBits(id: U32): U32 { id % 0x800 }         // & CAN_SFF_MASK

  // Flags word of a virtio CAN message.
  const FLAGS_EXTENDED: U32 := 0x8000
  const FLAGS_FD: U32 := 0x4000
  const FLAGS_RTR: U32 := 0x2000

  predicate Extended(flags: U32) { flags / FLAGS_EXTENDED % 2 == 1 }
  predicate Fd(flags: U32) { flags / FLAGS_FD % 2 == 1 }
  predicate Rtr(flags: U32) { flags / FLAGS_RTR % 2 == 1 }
  predicate UnknownFlags(flags: U32) { flags % 0x2000 != 0 || flags >= 0x1_0000 }   // & ~CAN_KNOWN_FLAGS

  /** A socket buffer holding a struct canfd_frame; `fd` is can_is_canfd_skb. */
  datatype Frame = Frame(id: U32, fd: bool, len: nat, data: Bytes)

  datatype Features = Features(classic: bool, fd: bool, rtr: bool)

  datatype Decoded = TooSmall | UnknownType | Dropped | Delivered(frame: Frame)

  function Zeros(n: nat): (b: Bytes)
    ensures |b| == n && forall i :: 0 <= i < n ==> b[i] == 0
  {
    seq(n, _ => 0)
  }

  function AtMost(n: nat, limit: nat): nat { if n > limit then limit else n }

  // Transmit side.

  function TxFlags(id: U32, fd: bool): U32 {
    (if IsEff(id) then FLAGS_EXTENDED else 0) + (if IsRtr(id) then FLAGS_RTR else 0) + (if fd then FLAGS_FD else 0)
  }

  /** The device-readable bytes of one transmission: header, then the payload without padding. */
  function Encode(f: Frame): (wire: Bytes)
    requires |f.data| == CANFD_MAX_DLEN
    ensures |wire| == HEADER_SIZE + AtMost(f.len, CANFD_MAX_DLEN)
  {
    var len := AtMost(f.len, CANFD_MAX_DLEN);
    Le16(VIRTIO_CAN_TX) + [0, 0] + Le32(TxFlags(f.id, f.fd)) + Le32(EffBits(f.id))
    + if IsRtr(f.id) then Zeros(len) else f.data[..len]
  }

  /** The encoder as the driver writes it, field by field. */
  method BuildTxMessage(f: Frame) returns (wire: Bytes)
    requires |f.data| == CANFD_MAX_DLEN
    ensures wire == Encode(f)
  {
    var sdu := Zeros(CANFD_MAX_DLEN);
    var flags: U32 := 0;
    if IsEff(f.id) {
      flags := flags + FLAGS_EXTENDED;
    }
    if IsRtr(f.id) {
      flags := flags + FLAGS_RTR;
    }
    if f.fd {
      flags := flags + FLAGS_FD;
    }
    var len := f.len;
    if len > |f.data| {
      len := |f.data|;
    }
    if len > |sdu| {
      len := |sdu|;
    }
    if !Rtr(flags) {
      sdu := f.data[..len] + sdu[len..];
    }
    assert sdu[..len] == if IsRtr(f.id) then Zeros(len) else f.data[..len];
    wire := Le16(VIRTIO_CAN_TX) + [0, 0] + Le32(flags) + Le32(EffBits(f.id)) + sdu[..len];
  }

  // Receive side.

  /** The identifier a receiver puts together from the flags and the raw identifier field. */
  function JoinId(raw: U32, extended: bool, rtr: bool): U32 {
    (if extended then EffBits(raw) + CAN_EFF_FLAG else SffBits(raw)) + if rtr then CAN_RTR_FLAG else 0
  }

  /** Why a message with these flags and payload length is not delivered. */
  predicate Refused(flags: U32, payload: nat, feat: Features) {
    || UnknownFlags(flags)
    || (Rtr(flags) && (!feat.rtr || Fd(flags) || payload > 0xF))
    || !(if Fd(flags) then feat.fd else feat.classic)
  }

  /** What a filled receive buffer means; usedLen is the length the device claims to have written. */
  function Decode(buffer: Bytes, usedLen: nat, feat: Features): Decoded
    requires |buffer| == RX_BUFFER_SIZE
  {
    if usedLen < HEADER_SIZE then TooSmall
    else if ReadLe16(buffer, 0) != VIRTIO_CAN_RX then UnknownType
    else
      var payload, flags := usedLen - HEADER_SIZE, ReadLe32(buffer, 4);
      if Refused(flags, payload, feat) then Dropped
      else
        var len := AtMost(payload, if Fd(flags) then CANFD_MAX_DLEN else CAN_MAX_DLEN);
        Delivered(Frame(
          JoinId(ReadLe32(buffer, 8), Extended(flags), Rtr(flags)), Fd(flags), len,
          if Rtr(flags) then Zeros(CANFD_MAX_DLEN)
          else buffer[HEADER_SIZE..HEADER_SIZE + len] + Zeros(CANFD_MAX_DLEN - len)))
  }

  /** The checks on flags and length, adjusting can_id and len on the way as the driver does. */
  method CheckHeader(flags: U32, rawId: U32, payload: nat, feat: Features)
    returns (ok: bool, id: U32, len: nat)
    ensures ok == !Refused(flags, payload, feat)
    ensures ok ==> id == JoinId(rawId, Extended(flags), Rtr(flags))
    ensures ok ==> len == AtMost(payload, if Fd(flags) then CANFD_MAX_DLEN else CAN_MAX_DLEN)
  {
    ok, id, len := false, rawId, payload;
    if UnknownFlags(flags) {
      return;
    }
    if Extended(flags) {
      id := EffBits(id);
      id := id + CAN_EFF_FLAG;
    } else {
      id := SffBits(id);
    }
    if Rtr(flags) {
      if !feat.rtr {
        return;
      }
      if Fd(flags) {
        return;
      }
      if len > 0xF {
        return;
      }
      if len > 8 {
        len := 8;
      }
      id := id + CAN_RTR_FLAG;
    }
    if Fd(flags) {
      if !feat.fd {
        return;
      }
      if len > CANFD_MAX_DLEN {
        len := CANFD_MAX_DLEN;
      }
    } else {
      if !feat.classic {
        return;
      }
      if len > CAN_MAX_DLEN {
        len := CAN_MAX_DLEN;
      }
    }
    ok := true;
  }

  /** The decoder as the driver writes it. */
  method ParseRxMessage(buffer: Bytes, usedLen: nat, feat: Features) returns (d: Decoded)
    requires |buffer| == RX_BUFFER_SIZE
    ensures d == Decode(buffer, usedLen, feat)
  {
    if usedLen < HEADER_SIZE {
      return TooSmall;
    }
    if ReadLe16(buffer, 0) != VIRTIO_CAN_RX {
      return UnknownType;
    }
    var flags := ReadLe32(buffer, 4);
    var ok, id, len := CheckHeader(flags, ReadLe32(buffer, 8), usedLen - HEADER_SIZE, feat);
    if !ok {
      return Dropped;
    }
    var data := Zeros(CANFD_MAX_DLEN);
    if !Rtr(flags) {
      assert data[len..] == Zeros(CANFD_MAX_DLEN - len);
      data := buffer[HEADER_SIZE..HEADER_SIZE + len] + data[len..];
    }
    d := Delivered(Frame(id, Fd(flags), len, data));
  }

  // What both sides promise.

  /** Not an error frame, and nothing above bit 10 unless it is extended. */
  predicate ConsistentId(id: U32) { !IsErr(id) && (IsEff(id) || EffBits(id) < 0x800) }

  /** The frames the CAN stack hands to the driver, of a type that was negotiated. */
  predicate Valid(f: Frame, feat: Features) {
    && |f.data| == CANFD_MAX_DLEN
    && ConsistentId(f.id)
    && (IsRtr(f.id) ==> feat.rtr && !f.fd)
    && (if f.fd then feat.fd && f.len <= CANFD_MAX_DLEN else feat.classic && f.len <= CAN_MAX_DLEN)
  }

  /** The receive buffer after the device wrote that message into it under the receive type. */
  function AsReceived(wire: Bytes, before: Bytes): (b: Bytes)
    requires HEADER_SIZE <= |wire| <= RX_BUFFER_SIZE == |before|
    ensures |b| == RX_BUFFER_SIZE
  {
    Le16(VIRTIO_CAN_RX) + wire[2..] + before[|wire|..]
  }

  lemma ReadWithin(b: Bytes, at: nat, x: U32)
    requires at + 4 <= |b| && b[at..at + 4] == Le32(x)
    ensures ReadLe32(b, at) == x
  {
    assert b[at] == b[at..at + 4][0] && b[at + 1] == b[at..at + 4][1];
    assert b[at + 2] == b[at..at + 4][2] && b[at + 3] == b[at..at + 4][3];
    Le32RoundTrip(x);
  }

  lemma ReceivedFields(f: Frame, before: Bytes)
    requires |f.data| == CANFD_MAX_DLEN && |before| == RX_BUFFER_SIZE
    ensures var b := AsReceived(Encode(f), before);
            && ReadLe16(b, 0) == VIRTIO_CAN_RX
            && ReadLe32(b, 4) == TxFlags(f.id, f.fd) && ReadLe32(b, 8) == EffBits(f.id)
            && (!IsRtr(f.id) ==>
                  var len := AtMost(f.len, CANFD_MAX_DLEN);
                  b[HEADER_SIZE..HEADER_SIZE + len] == f.data[..len])
  {
    var b := AsReceived(Encode(f), before);
    var wire := Encode(f);
    assert wire[4..8] == Le32(TxFlags(f.id, f.fd)) && b[4..8] == wire[4..8];
    assert wire[8..12] == Le32(EffBits(f.id)) && b[8..12] == wire[8..12];
    ReadWithin(b, 4, TxFlags(f.id, f.fd));
    ReadWithin(b, 8, EffBits(f.id));
  }

  lemma FlagsSurvive(id: U32, fd: bool)
    ensures var flags := TxFlags(id, fd);
            && !UnknownFlags(flags)
            && (Extended(flags) <==> IsEff(id)) && (Rtr(flags) <==> IsRtr(id)) && (Fd(flags) <==> fd)
  {
  }

  lemma IdSplitAndJoined(id: U32)
    requires ConsistentId(id)
    ensures JoinId(EffBits(id), IsEff(id), IsRtr(id)) == id
  {
  }

  lemma JoinedIdIsConsistent(raw: U32, extended: bool, rtr: bool)
    ensures var id := JoinId(raw, extended, rtr);
            ConsistentId(id) && (IsEff(id) <==> extended) && (IsRtr(id) <==> rtr)
  {
  }

  /** Sent and received back, a valid frame keeps its id, type and length, and its data unless it
      is a remote request. */
  lemma RoundTrip(f: Frame, feat: Features, before: Bytes)
    requires Valid(f, feat) && |before| == RX_BUFFER_SIZE
    ensures var d := Decode(AsReceived(Encode(f), before), |Encode(f)|, feat);
            && d.Delivered?
            && d.frame.id == f.id && d.frame.fd == f.fd && d.frame.len == f.len
            && (!IsRtr(f.id) ==> d.frame.data[..f.len] == f.data[..f.len])
  {
    ReceivedFields(f, before);
    FlagsSurvive(f.id, f.fd);
    IdSplitAndJoined(f.id);
  }

  /** Whatever the device writes and claims, a delivered frame is a valid one. */
  lemma DeliveredIsValid(buffer: Bytes, usedLen: nat, feat: Features)
    requires |buffer| == RX_BUFFER_SIZE && Decode(buffer, usedLen, feat).Delivered?
    ensures Valid(Decode(buffer, usedLen, feat).frame, feat)
  {
    var flags := ReadLe32(buffer, 4);
    JoinedIdIsConsistent(ReadLe32(buffer, 8), Extended(flags), Rtr(flags));
  }

  /** Exactly the valid frames come back under their own id, type and length. */
  lemma ExactlyValidFramesReturn(f: Frame, feat: Features, before: Bytes)
    requires |f.data| == CANFD_MAX_DLEN && |before| == RX_BUFFER_SIZE
    ensures Valid(f, feat) <==>
              var d := Decode(AsReceived(Encode(f), before), |Encode(f)|, feat);
              d.Delivered? && d.frame.id == f.id && d.frame.fd == f.fd && d.frame.len == f.len
  {
    var d := Decode(AsReceived(Encode(f), before), |Encode(f)|, feat);
    if Valid(f, feat) {
      RoundTrip(f, feat, before);
    } else if d.Delivered? {
      DeliveredIsValid(AsReceived(Encode(f), before), |Encode(f)|, feat);
    }
  }

  // Byte by byte, in the numbers of virtio_can.h.

  /** A transmission on the wire: type 1, the flags in byte 5, the identifier in bytes 8 to 11, the
      payload from byte 12. */
  lemma EncodeLayout(f: Frame, i: nat)
    requires |f.data| == 64
    ensures var w, rtr := Encode(f), f.id / 0x4000_0000 % 2 == 1;
            && |w| == 12 + (if f.len < 64 then f.len else 64)
            && w[0] == 1 && w[1] == w[2] == w[3] == w[4] == w[6] == w[7] == 0
            && w[5] == (if f.id >= 0x8000_0000 then 0x80 else 0) + (if f.fd then 0x40 else 0)
                       + (if rtr then 0x20 else 0)
            && w[8] as int + 256 * w[9] as int + 65536 * w[10] as int + 16777216 * w[11] as int == f.id % 0x2000_0000
            && (12 <= i < |w| ==> w[i] == if rtr then 0 else f.data[i - 12])
  {
    var w, id, flags := Encode(f), Le32(EffBits(f.id)), Le32(TxFlags(f.id, f.fd));
    assert w[4..8] == flags && w[8..12] == id;
    assert w[4] == w[4..8][0] && w[5] == w[4..8][1] && w[6] == w[4..8][2] && w[7] == w[4..8][3];
    assert w[8] == w[8..12][0] && w[9] == w[8..12][1] && w[10] == w[8..12][2] && w[11] == w[8..12][3];
    WordsAreLittleEndian(0, EffBits(f.id), id, 0);
    FlagsByte(f.id, f.fd);
  }

  lemma FlagsByte(id: U32, fd: bool)
    ensures var b := Le32(TxFlags(id, fd));
            && b[0] == b[2] == b[3] == 0
            && b[1] == (if id >= 0x8000_0000 then 0x80 else 0) + (if fd then 0x40 else 0)
                       + (if id / 0x4000_0000 % 2 == 1 then 0x20 else 0)
  {
  }

  /** What becomes of a receive buffer, by its bytes. */
  lemma DecodeLayout(b: Bytes, usedLen: nat, feat: Features)
    requires |b| == 76
    ensures var fd, rtr := b[5] / 0x40 % 2 == 1, b[5] / 0x20 % 2 == 1;
            && (Decode(b, usedLen, feat) == TooSmall <==> usedLen < 12)
            && (Decode(b, usedLen, feat) == UnknownType <==> usedLen >= 12 && !(b[0] == 1 && b[1] == 1))
            && (Decode(b, usedLen, feat).Delivered?
                <==> && usedLen >= 12 && b[0] == 1 && b[1] == 1
                     && b[4] == 0 && b[5] % 0x20 == 0 && b[6] == 0 && b[7] == 0
                     && (rtr ==> feat.rtr && !fd && usedLen <= 12 + 15)
                     && if fd then feat.fd else feat.classic)
  {
    FlagsOfBytes(b);
  }

  lemma FlagsOfBytes(b: Bytes)
    requires |b| >= 8
    ensures var flags := ReadLe32(b, 4);
            && (Extended(flags) <==> b[5] >= 0x80) && (Fd(flags) <==> b[5] / 0x40 % 2 == 1)
            && (Rtr(flags) <==> b[5] / 0x20 % 2 == 1)
            && (UnknownFlags(flags) <==> b[4] != 0 || b[5] % 0x20 != 0 || b[6] != 0 || b[7] != 0)
  {
    FlagInByte(ReadLe32(b, 4), b[4], b[5], b[6] as int + 0x100 * b[7] as int);
  }

  lemma FlagInByte(flags: nat, b0: Byte, b1: Byte, high: nat)
    requires flags == b0 as int + 0x100 * b1 as int + 0x1_0000 * high
    ensures flags / 0x8000 % 2 == b1 / 0x80 && flags / 0x4000 % 2 == b1 / 0x40 % 2
    ensures flags / 0x2000 % 2 == b1 / 0x20 % 2
    ensures flags % 0x2000 == b0 as int + 0x100 * (b1 % 0x20)
  {
    BitInWord(flags, 0x8000, b1 / 0x80, high, b0 + 0x100 * (b1 % 0x80));
    BitInWord(flags, 0x4000, b1 / 0x40, 2 * high, b0 + 0x100 * (b1 % 0x40));
    BitInWord(flags, 0x2000, b1 / 0x20, 4 * high, b0 + 0x100 * (b1 % 0x20));
  }

  lemma BitInWord(x: nat, p: nat, a: nat, k: nat, r: nat)
    requires p > 0 && x == (a + 2 * k) * p + r && r < p
    ensures x / p % 2 == a % 2 && x % p == r
  {
    QuotientIs(x, p, a + 2 * k, r);
  }

  /** And the frame that is delivered. */
  lemma DeliveredLayout(b: Bytes, usedLen: nat, feat: Features, i: nat)
    requires |b| == 76 && Decode(b, usedLen, feat).Delivered?
    ensures var f, raw := Decode(b, usedLen, feat).frame, ReadLe32(b, 8);
            var fd, rtr := b[5] / 0x40 % 2 == 1, b[5] / 0x20 % 2 == 1;
            var most := if fd then 64 else 8;
            && f.fd == fd && f.len == (if usedLen - 12 < most then usedLen - 12 else most)
            && f.id == (if b[5] >= 0x80 then 0x8000_0000 + raw % 0x2000_0000 else raw % 0x800)
                       + (if rtr then 0x4000_0000 else 0)
            && (i < f.len ==> i < |f.data| && 12 + i < |b| && f.data[i] == if rtr then 0 else b[12 + i])
  {
    FlagsOfBytes(b);
  }
}
