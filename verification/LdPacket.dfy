/** The LD19 UART protocol of body/lib/ldrobot_ldpacket.py: CRC, 47-byte frames and the incremental decoder. */
module LdPacket {
  import opened Options

  const PKG_HEADER: bv8 := 0x54
  const PKG_VER_LEN: bv8 := 0x2C
  const FRAME_LEN: nat := 47
  const POINT_COUNT: nat := 12

  // ── CRC ──

  /** One bit of an MSB-first CRC-8 with generator 0x4D. */
  function CrcBit(c: bv8): bv8 {
    if c & 0x80 != 0 then (c << 1) ^ 0x4D else c << 1
  }

  function CrcByte(c: bv8): bv8 {
    CrcBit(CrcBit(CrcBit(CrcBit(CrcBit(CrcBit(CrcBit(CrcBit(c))))))))
  }

  function CrcStep(c: bv8, b: bv8): bv8 {
    CrcByte(c ^ b)
  }

  /** The bitwise CRC of `data`, starting from `crc`. */
  function Crc(crc: bv8, data: seq<bv8>): bv8
    decreases |data|
  {
    if data == [] then crc else Crc(CrcStep(crc, data[0]), data[1..])
  }

  // `_CRC_TABLE`, sixteen entries to a row.
  const ROW_0: seq<bv8> :=
    [ 0x00, 0x4D, 0x9A, 0xD7, 0x79, 0x34, 0xE3, 0xAE, 0xF2, 0xBF, 0x68, 0x25, 0x8B, 0xC6, 0x11, 0x5C ]
  const ROW_1: seq<bv8> :=
    [ 0xA9, 0xE4, 0x33, 0x7E, 0xD0, 0x9D, 0x4A, 0x07, 0x5B, 0x16, 0xC1, 0x8C, 0x22, 0x6F, 0xB8, 0xF5 ]
  const ROW_2: seq<bv8> :=
    [ 0x1F, 0x52, 0x85, 0xC8, 0x66, 0x2B, 0xFC, 0xB1, 0xED, 0xA0, 0x77, 0x3A, 0x94, 0xD9, 0x0E, 0x43 ]
  const ROW_3: seq<bv8> :=
    [ 0xB6, 0xFB, 0x2C, 0x61, 0xCF, 0x82, 0x55, 0x18, 0x44, 0x09, 0xDE, 0x93, 0x3D, 0x70, 0xA7, 0xEA ]
  const ROW_4: seq<bv8> :=
    [ 0x3E, 0x73, 0xA4, 0xE9, 0x47, 0x0A, 0xDD, 0x90, 0xCC, 0x81, 0x56, 0x1B, 0xB5, 0xF8, 0x2F, 0x62 ]
  const ROW_5: seq<bv8> :=
    [ 0x97, 0xDA, 0x0D, 0x40, 0xEE, 0xA3, 0x74, 0x39, 0x65, 0x28, 0xFF, 0xB2, 0x1C, 0x51, 0x86, 0xCB ]
  const ROW_6: seq<bv8> :=
    [ 0x21, 0x6C, 0xBB, 0xF6, 0x58, 0x15, 0xC2, 0x8F, 0xD3, 0x9E, 0x49, 0x04, 0xAA, 0xE7, 0x30, 0x7D ]
  const ROW_7: seq<bv8> :=
    [ 0x88, 0xC5, 0x12, 0x5F, 0xF1, 0xBC, 0x6B, 0x26, 0x7A, 0x37, 0xE0, 0xAD, 0x03, 0x4E, 0x99, 0xD4 ]
  const ROW_8: seq<bv8> :=
    [ 0x7C, 0x31, 0xE6, 0xAB, 0x05, 0x48, 0x9F, 0xD2, 0x8E, 0xC3, 0x14, 0x59, 0xF7, 0xBA, 0x6D, 0x20 ]
  const ROW_9: seq<bv8> :=
    [ 0xD5, 0x98, 0x4F, 0x02, 0xAC, 0xE1, 0x36, 0x7B, 0x27, 0x6A, 0xBD, 0xF0, 0x5E, 0x13, 0xC4, 0x89 ]
  const ROW_A: seq<bv8> :=
    [ 0x63, 0x2E, 0xF9, 0xB4, 0x1A, 0x57, 0x80, 0xCD, 0x91, 0xDC, 0x0B, 0x46, 0xE8, 0xA5, 0x72, 0x3F ]
  const ROW_B: seq<bv8> :=
    [ 0xCA, 0x87, 0x50, 0x1D, 0xB3, 0xFE, 0x29, 0x64, 0x38, 0x75, 0xA2, 0xEF, 0x41, 0x0C, 0xDB, 0x96 ]
  const ROW_C: seq<bv8> :=
    [ 0x42, 0x0F, 0xD8, 0x95, 0x3B, 0x76, 0xA1, 0xEC, 0xB0, 0xFD, 0x2A, 0x67, 0xC9, 0x84, 0x53, 0x1E ]
  const ROW_D: seq<bv8> :=
    [ 0xEB, 0xA6, 0x71, 0x3C, 0x92, 0xDF, 0x08, 0x45, 0x19, 0x54, 0x83, 0xCE, 0x60, 0x2D, 0xFA, 0xB7 ]
  const ROW_E: seq<bv8> :=
    [ 0x5D, 0x10, 0xC7, 0x8A, 0x24, 0x69, 0xBE, 0xF3, 0xAF, 0xE2, 0x35, 0x78, 0xD6, 0x9B, 0x4C, 0x01 ]
  const ROW_F: seq<bv8> :=
    [ 0xF4, 0xB9, 0x6E, 0x23, 0x8D, 0xC0, 0x17, 0x5A, 0x06, 0x4B, 0x9C, 0xD1, 0x7F, 0x32, 0xE5, 0xA8 ]

  const CRC_TABLE: seq<seq<bv8>> :=
    [ ROW_0, ROW_1, ROW_2, ROW_3, ROW_4, ROW_5, ROW_6, ROW_7, ROW_8, ROW_9, ROW_A, ROW_B, ROW_C, ROW_D, ROW_E, ROW_F ]

  lemma TableShape(x: bv8)
    ensures (x >> 4) as int < |CRC_TABLE| && (x & 0x0F) as int < |CRC_TABLE[(x >> 4) as int]|
  {
  }

  /** `_CRC_TABLE[x]` */
  function TableAt(x: bv8): bv8 {
    TableShape(x);
    CRC_TABLE[(x >> 4) as int][(x & 0x0F) as int]
  }

  lemma Row0(x: bv8)
    requires x >> 4 == 0
    ensures ROW_0[(x & 0x0F) as int] == CrcByte(x)
  {
  }

  lemma Row1(x: bv8)
    requires x >> 4 == 1
    ensures ROW_1[(x & 0x0F) as int] == CrcByte(x)
  {
  }

  lemma Row2(x: bv8)
    requires x >> 4 == 2
    ensures ROW_2[(x & 0x0F) as int] == CrcByte(x)
  {
  }

  lemma Row3(x: bv8)
    requires x >> 4 == 3
    ensures ROW_3[(x & 0x0F) as int] == CrcByte(x)
  {
  }

  lemma Row4(x: bv8)
    requires x >> 4 == 4
    ensures ROW_4[(x & 0x0F) as int] == CrcByte(x)
  {
  }

  lemma Row5(x: bv8)
    requires x >> 4 == 5
    ensures ROW_5[(x & 0x0F) as int] == CrcByte(x)
  {
  }

  lemma Row6(x: bv8)
    requires x >> 4 == 6
    ensures ROW_6[(x & 0x0F) as int] == CrcByte(x)
  {
  }

  lemma Row7(x: bv8)
    requires x >> 4 == 7
    ensures ROW_7[(x & 0x0F) as int] == CrcByte(x)
  {
  }

  lemma Row8(x: bv8)
    requires x >> 4 == 8
    ensures ROW_8[(x & 0x0F) as int] == CrcByte(x)
  {
  }

  lemma Row9(x: bv8)
    requires x >> 4 == 9
    ensures ROW_9[(x & 0x0F) as int] == CrcByte(x)
  {
  }

  lemma RowA(x: bv8)
    requires x >> 4 == 10
    ensures ROW_A[(x & 0x0F) as int] == CrcByte(x)
  {
  }

  lemma RowB(x: bv8)
    requires x >> 4 == 11
    ensures ROW_B[(x & 0x0F) as int] == CrcByte(x)
  {
  }

  lemma RowC(x: bv8)
    requires x >> 4 == 12
    ensures ROW_C[(x & 0x0F) as int] == CrcByte(x)
  {
  }

  lemma RowD(x: bv8)
    requires x >> 4 == 13
    ensures ROW_D[(x & 0x0F) as int] == CrcByte(x)
  {
  }

  lemma RowE(x: bv8)
    requires x >> 4 == 14
    ensures ROW_E[(x & 0x0F) as int] == CrcByte(x)
  {
  }

  lemma RowF(x: bv8)
    requires x >> 4 == 15
    ensures ROW_F[(x & 0x0F) as int] == CrcByte(x)
  {
  }

  /** All 256 entries of the table are the eight bitwise steps. */
  lemma TableIsBitwise(x: bv8)
    ensures TableAt(x) == CrcByte(x)
  {
    hide CrcByte;
    if x >> 4 == 0 { Row0(x); }
    else if x >> 4 == 1 { Row1(x); }
    else if x >> 4 == 2 { Row2(x); }
    else if x >> 4 == 3 { Row3(x); }
    else if x >> 4 == 4 { Row4(x); }
    else if x >> 4 == 5 { Row5(x); }
    else if x >> 4 == 6 { Row6(x); }
    else if x >> 4 == 7 { Row7(x); }
    else if x >> 4 == 8 { Row8(x); }
    else if x >> 4 == 9 { Row9(x); }
    else if x >> 4 == 10 { RowA(x); }
    else if x >> 4 == 11 { RowB(x); }
    else if x >> 4 == 12 { RowC(x); }
    else if x >> 4 == 13 { RowD(x); }
    else if x >> 4 == 14 { RowE(x); }
    else if x >> 4 == 15 { RowF(x); }
  }

  /** `crc8_ld`: the table-driven loop computes the bitwise CRC. */
  method Crc8Ld(data: seq<bv8>) returns (crc: bv8)
    ensures crc == Crc(0, data)
  {
    crc := 0;
    for i := 0 to |data|
      invariant Crc(crc, data[i..]) == Crc(0, data)
    {
      TableIsBitwise(crc ^ data[i]);
      assert data[i..][1..] == data[i + 1..];
      crc := TableAt(crc ^ data[i]);
    }
  }

  lemma CrcByteInjective(x: bv8, y: bv8)
    requires x != y
    ensures CrcByte(x) != CrcByte(y)
  {
  }

  lemma CrcStepInjective(x: bv8, y: bv8, b: bv8)
    requires x != y
    ensures CrcStep(x, b) != CrcStep(y, b) && CrcStep(b, x) != CrcStep(b, y)
  {
    hide CrcByte;
    CrcByteInjective(x ^ b, y ^ b);
    CrcByteInjective(b ^ x, b ^ y);
  }

  /** Different registers stay different over the same data. */
  lemma {:induction false} CrcKeepsApart(c: bv8, c': bv8, data: seq<bv8>)
    requires c != c'
    ensures Crc(c, data) != Crc(c', data)
    decreases |data|
  {
    hide CrcStep;
    if data != [] {
      CrcStepInjective(c, c', data[0]);
      CrcKeepsApart(CrcStep(c, data[0]), CrcStep(c', data[0]), data[1..]);
    }
  }

  /** Changing any one byte changes the CRC. */
  lemma {:induction false} CrcSeesChange(c: bv8, data: seq<bv8>, i: nat, b: bv8)
    requires i < |data| && data[i] != b
    ensures Crc(c, data[i := b]) != Crc(c, data)
    decreases i
  {
    hide CrcStep;
    if i == 0 {
      assert data[i := b][1..] == data[1..];
      CrcStepInjective(b, data[0], c);
      CrcKeepsApart(CrcStep(c, b), CrcStep(c, data[0]), data[1..]);
    } else {
      assert data[i := b][1..] == data[1..][i - 1 := b];
      CrcSeesChange(CrcStep(c, data[0]), data[1..], i - 1, b);
    }
  }

  // ── frames ──

  /** `LdLidarPacket` */
  datatype Packet = Packet(speed: bv16, startAngle: bv16, endAngle: bv16, timestamp: bv16,
                           distances: seq<bv16>, intensities: seq<bv8>)

  /** A little-endian 16-bit field. */
  function Field(frame: seq<bv8>, at: nat): bv16
    requires at + 1 < |frame|
  {
    (frame[at] as bv16) | ((frame[at + 1] as bv16) << 8)
  }

  /** A frame with the header, the right length and a matching CRC. */
  predicate ValidFrame(frame: seq<bv8>) {
    |frame| == FRAME_LEN && frame[0] == PKG_HEADER && frame[1] == PKG_VER_LEN
    && Crc(0, frame[..FRAME_LEN - 1]) == frame[FRAME_LEN - 1]
  }

  function Fields(frame: seq<bv8>): Packet
    requires |frame| == FRAME_LEN
  {
    Packet(Field(frame, 2), Field(frame, 4), Field(frame, 42), Field(frame, 44),
           seq(POINT_COUNT, k requires 0 <= k < POINT_COUNT => Field(frame, 6 + 3 * k)),
           seq(POINT_COUNT, k requires 0 <= k < POINT_COUNT => frame[8 + 3 * k]))
  }

  function Parse(frame: seq<bv8>): Option<Packet> {
    if ValidFrame(frame) then Some(Fields(frame)) else None
  }

  /** `parse_ld_packet`: check the header, then the CRC, then read the fields point by point. */
  method ParseLdPacket(frame: seq<bv8>) returns (pkt: Option<Packet>)
    ensures pkt == Parse(frame)
  {
    hide Field, Crc;
    if |frame| != FRAME_LEN { return None; }
    if frame[0] != PKG_HEADER || frame[1] != PKG_VER_LEN { return None; }
    var crc := Crc8Ld(frame[..|frame| - 1]);
    if crc != frame[|frame| - 1] { return None; }
    var dist, ints := [], [];
    var off := 6;
    for k := 0 to POINT_COUNT
      invariant off == 6 + 3 * k && |dist| == |ints| == k
      invariant forall m :: 0 <= m < k ==> dist[m] == Field(frame, 6 + 3 * m) && ints[m] == frame[8 + 3 * m]
    {
      dist := dist + [Field(frame, off)];
      ints := ints + [frame[off + 2]];
      off := off + 3;
    }
    assert dist == Fields(frame).distances && ints == Fields(frame).intensities;
    return Some(Packet(Field(frame, 2), Field(frame, 4), Field(frame, 42), Field(frame, 44), dist, ints));
  }

  /** Changing any single byte of a valid frame makes the parser reject it. */
  lemma CorruptionRejected(frame: seq<bv8>, i: nat, b: bv8)
    requires Parse(frame).Some? && i < |frame| && frame[i] != b
    ensures Parse(frame[i := b]).None?
  {
    hide Crc, Fields;
    var n := FRAME_LEN - 1;
    if 2 <= i < n {
      assert frame[i := b][..n] == frame[..n][i := b];
      CrcSeesChange(0, frame[..n], i, b);
    } else if i == n {
      assert frame[i := b][..n] == frame[..n];
    }
  }

  // ── encoding, for the round trip ──

  function Bytes(x: bv16): seq<bv8>
    ensures |Bytes(x)| == 2
  {
    [(x & 0xFF) as bv8, (x >> 8) as bv8]
  }

  lemma BytesRoundTrip(x: bv16)
    ensures ((x & 0xFF) as bv8 as bv16) | (((x >> 8) as bv8 as bv16) << 8) == x
  {
  }

  predicate WellShaped(p: Packet) {
    |p.distances| == POINT_COUNT && |p.intensities| == POINT_COUNT
  }

  /** The twelve points of three bytes each. */
  function PointBytes(p: Packet, k: nat): seq<bv8>
    requires WellShaped(p) && k <= POINT_COUNT
    ensures |PointBytes(p, k)| == 3 * k
  {
    if k == 0 then [] else PointBytes(p, k - 1) + Bytes(p.distances[k - 1]) + [p.intensities[k - 1]]
  }

  function Body(p: Packet): seq<bv8>
    requires WellShaped(p)
    ensures |Body(p)| == FRAME_LEN - 1
  {
    [PKG_HEADER, PKG_VER_LEN] + Bytes(p.speed) + Bytes(p.startAngle) + PointBytes(p, POINT_COUNT)
    + Bytes(p.endAngle) + Bytes(p.timestamp)
  }

  /** The frame a sensor would send. */
  function Encode(p: Packet): seq<bv8>
    requires WellShaped(p)
  {
    Body(p) + [Crc(0, Body(p))]
  }

  lemma {:induction false} PointsAt(p: Packet, k: nat, m: nat)
    requires WellShaped(p) && m < k <= POINT_COUNT
    ensures PointBytes(p, k)[3 * m] == Bytes(p.distances[m])[0]
    ensures PointBytes(p, k)[3 * m + 1] == Bytes(p.distances[m])[1]
    ensures PointBytes(p, k)[3 * m + 2] == p.intensities[m]
  {
    if m < k - 1 {
      PointsAt(p, k - 1, m);
    }
  }

  /** What the frame of `p` holds at each offset. */
  lemma EncodeLayout(p: Packet)
    requires WellShaped(p)
    ensures var f := Encode(p);
      && |f| == FRAME_LEN && f[0] == PKG_HEADER && f[1] == PKG_VER_LEN
      && f[..FRAME_LEN - 1] == Body(p) && f[FRAME_LEN - 1] == Crc(0, Body(p))
      && f[6..42] == PointBytes(p, POINT_COUNT)
  {
    hide Crc, Bytes, PointBytes;
  }

  lemma FieldOf(frame: seq<bv8>, at: nat, x: bv16)
    requires at + 1 < |frame| && frame[at] == Bytes(x)[0] && frame[at + 1] == Bytes(x)[1]
    ensures Field(frame, at) == x
  {
    BytesRoundTrip(x);
  }

  lemma ScalarFields(p: Packet)
    requires WellShaped(p)
    ensures var f := Encode(p);
      && |f| == FRAME_LEN
      && Field(f, 2) == p.speed && Field(f, 4) == p.startAngle && Field(f, 42) == p.endAngle && Field(f, 44) == p.timestamp
  {
    hide Crc, Bytes, PointBytes, Field;
    var f := Encode(p);
    FieldOf(f, 2, p.speed);
    FieldOf(f, 4, p.startAngle);
    FieldOf(f, 42, p.endAngle);
    FieldOf(f, 44, p.timestamp);
  }

  lemma PointFields(p: Packet, k: nat)
    requires WellShaped(p) && k < POINT_COUNT
    ensures var f := Encode(p);
      && |f| == FRAME_LEN && Field(f, 6 + 3 * k) == p.distances[k] && f[8 + 3 * k] == p.intensities[k]
  {
    hide Crc, Bytes, PointBytes, Field, Encode, Body;
    EncodeLayout(p);
    PointsAt(p, POINT_COUNT, k);
    var f := Encode(p);
    assert forall m :: 0 <= m < 36 ==> f[6..42][m] == f[6 + m];
    FieldOf(f, 6 + 3 * k, p.distances[k]);
  }

  /** A frame decodes to the packet it was encoded from. */
  lemma FrameRoundTrip(p: Packet)
    requires WellShaped(p)
    ensures |Encode(p)| == FRAME_LEN && Parse(Encode(p)) == Some(p)
  {
    hide Encode, Body, Crc, Field;
    EncodeLayout(p);
    ScalarFields(p);
    forall k: nat | k < POINT_COUNT ensures Fields(Encode(p)).distances[k] == p.distances[k] {
      PointFields(p, k);
    }
    forall k: nat | k < POINT_COUNT ensures Fields(Encode(p)).intensities[k] == p.intensities[k] {
      PointFields(p, k);
    }
    assert Fields(Encode(p)).distances == p.distances;
    assert Fields(Encode(p)).intensities == p.intensities;
  }
}

/** The incremental decoder, `LdPacketDecoder`, and what a stream decodes to. */
module LdStream {
  import opened Options
  import opened LdPacket

  /** What a byte stream decodes to: a frame at the front is taken whole, anything else loses one byte. */
  function Packets(buf: seq<bv8>): seq<Packet>
    decreases |buf|
  {
    if |buf| < FRAME_LEN then []
    else match Parse(buf[..FRAME_LEN])
      case Some(p) => [p] + Packets(buf[FRAME_LEN..])
      case None => Packets(buf[1..])
  }

  /** The bytes left waiting for more input. */
  function Rest(buf: seq<bv8>): seq<bv8>
    decreases |buf|
  {
    if |buf| < FRAME_LEN then buf
    else if Parse(buf[..FRAME_LEN]).Some? then Rest(buf[FRAME_LEN..])
    else Rest(buf[1..])
  }

  /** One turn of the loop, at index `i`. */
  lemma ScanStep(buf: seq<bv8>, i: nat)
    requires i + FRAME_LEN <= |buf|
    ensures var pkt := Parse(buf[i..i + FRAME_LEN]);
      && (buf[i] != PKG_HEADER || buf[i + 1] != PKG_VER_LEN ==> pkt.None?)
      && (pkt.None? ==> Packets(buf[i..]) == Packets(buf[i + 1..]) && Rest(buf[i..]) == Rest(buf[i + 1..]))
      && (pkt.Some? ==> Packets(buf[i..]) == [pkt.value] + Packets(buf[i + FRAME_LEN..]))
      && (pkt.Some? ==> Rest(buf[i..]) == Rest(buf[i + FRAME_LEN..]))
  {
    hide Fields, Crc;
    var tail := buf[i..];
    assert tail[..FRAME_LEN] == buf[i..i + FRAME_LEN];
    assert tail[1..] == buf[i + 1..] && tail[FRAME_LEN..] == buf[i + FRAME_LEN..];
  }

  lemma ScanShort(buf: seq<bv8>)
    requires |buf| < FRAME_LEN
    ensures Packets(buf) == [] && Rest(buf) == buf
  {
  }

  class LdPacketDecoder {
    var buf: seq<bv8>

    constructor ()
      ensures buf == []
    {
      buf := [];
    }

    /** `feed`: append, walk an index over the buffer, cut off what was walked. */
    method Feed(data: seq<bv8>) returns (out: seq<Packet>)
      modifies this
      ensures out == Packets(old(buf) + data) && buf == Rest(old(buf) + data)
    {
      hide Parse, Packets, Rest;
      buf := buf + data;
      out := [];
      var i := 0;
      while i + FRAME_LEN <= |buf|
        invariant 0 <= i <= |buf| && buf == old(buf) + data
        invariant out + Packets(buf[i..]) == Packets(buf)
        invariant Rest(buf[i..]) == Rest(buf)
      {
        ghost var was, at := out, i;
        ScanStep(buf, i);
        if buf[i] != PKG_HEADER {
          i := i + 1;
          continue;
        }
        if buf[i + 1] != PKG_VER_LEN {
          i := i + 1;
          continue;
        }
        var pkt := ParseLdPacket(buf[i..i + FRAME_LEN]);
        if pkt.None? {
          i := i + 1;
          continue;
        }
        out := out + [pkt.value];
        i := i + FRAME_LEN;
        assert out + Packets(buf[i..]) == was + Packets(buf[at..]);
      }
      assert buf[0..] == buf;
      ScanShort(buf[i..]);
      buf := buf[i..];
    }
  }

  /** Fewer than 47 bytes ever wait, and they are the end of what came in. */
  lemma {:induction false} RestIsSuffix(buf: seq<bv8>)
    ensures |Rest(buf)| < FRAME_LEN && |Rest(buf)| <= |buf|
    ensures Rest(buf) == buf[|buf| - |Rest(buf)|..]
    decreases |buf|
  {
    hide Parse;
    if |buf| >= FRAME_LEN {
      RestIsSuffix(buf[FRAME_LEN..]);
      RestIsSuffix(buf[1..]);
    }
  }

  /** Scanning a stream in two goes: the waiting bytes carry over. */
  lemma {:induction false} ScanSplits(a: seq<bv8>, b: seq<bv8>)
    ensures Packets(a + b) == Packets(a) + Packets(Rest(a) + b)
    ensures Rest(a + b) == Rest(Rest(a) + b)
    decreases |a|
  {
    hide Parse;
    if |a| >= FRAME_LEN {
      assert (a + b)[..FRAME_LEN] == a[..FRAME_LEN];
      assert (a + b)[FRAME_LEN..] == a[FRAME_LEN..] + b && (a + b)[1..] == a[1..] + b;
      ScanSplits(a[FRAME_LEN..], b);
      ScanSplits(a[1..], b);
    }
  }

  function Joined(chunks: seq<seq<bv8>>): seq<bv8> {
    if chunks == [] then [] else chunks[0] + Joined(chunks[1..])
  }

  /** The packets of successive `feed` calls, starting from a buffer. */
  function FeedPackets(buf: seq<bv8>, chunks: seq<seq<bv8>>): seq<Packet>
    decreases |chunks|
  {
    if chunks == [] then []
    else Packets(buf + chunks[0]) + FeedPackets(Rest(buf + chunks[0]), chunks[1..])
  }

  function FeedRest(buf: seq<bv8>, chunks: seq<seq<bv8>>): seq<bv8>
    decreases |chunks|
  {
    if chunks == [] then buf else FeedRest(Rest(buf + chunks[0]), chunks[1..])
  }

  lemma {:induction false} ChunkingFrom(buf: seq<bv8>, chunks: seq<seq<bv8>>)
    requires |buf| < FRAME_LEN
    ensures FeedPackets(buf, chunks) == Packets(buf + Joined(chunks))
    ensures FeedRest(buf, chunks) == Rest(buf + Joined(chunks))
    decreases |chunks|
  {
    hide Packets, Rest;
    if chunks == [] {
      assert buf + Joined(chunks) == buf;
      ScanShort(buf);
    } else {
      var now := buf + chunks[0];
      RestIsSuffix(now);
      ChunkingFrom(Rest(now), chunks[1..]);
      ScanSplits(now, Joined(chunks[1..]));
      assert buf + Joined(chunks) == now + Joined(chunks[1..]);
    }
  }

  /** However a stream is cut into chunks, the packets and the waiting bytes are those of one call. */
  lemma ChunkingIndependent(chunks: seq<seq<bv8>>, chunks': seq<seq<bv8>>)
    requires Joined(chunks) == Joined(chunks')
    ensures FeedPackets([], chunks) == FeedPackets([], chunks') == Packets(Joined(chunks))
    ensures FeedRest([], chunks) == FeedRest([], chunks') == Rest(Joined(chunks))
  {
    hide Packets, Rest;
    ChunkingFrom([], chunks);
    ChunkingFrom([], chunks');
    assert [] + Joined(chunks) == Joined(chunks);
  }

  function EncodeAll(ps: seq<Packet>): seq<bv8>
    requires forall p :: p in ps ==> WellShaped(p)
  {
    if ps == [] then [] else Encode(ps[0]) + EncodeAll(ps[1..])
  }

  /** A stream of frames, behind any bytes that hold no header byte, decodes to its packets. */
  lemma {:induction false} StreamDecodes(noise: seq<bv8>, ps: seq<Packet>)
    requires PKG_HEADER !in noise
    requires forall p :: p in ps ==> WellShaped(p)
    ensures Packets(noise + EncodeAll(ps)) == ps
    ensures ps != [] ==> Rest(noise + EncodeAll(ps)) == []
    decreases |noise| + |ps|
  {
    hide Crc, Fields, Encode;
    var buf := noise + EncodeAll(ps);
    if noise != [] {
      assert buf[1..] == noise[1..] + EncodeAll(ps);
      StreamDecodes(noise[1..], ps);
      if ps != [] {
        FrameRoundTrip(ps[0]);
      }
    } else if ps != [] {
      FrameRoundTrip(ps[0]);
      assert buf[..FRAME_LEN] == Encode(ps[0]) && buf[FRAME_LEN..] == [] + EncodeAll(ps[1..]);
      StreamDecodes([], ps[1..]);
      assert ps == [ps[0]] + ps[1..];
    }
  }

  /** The same stream, cut anyhow, still yields exactly its packets. */
  lemma StreamRoundTrip(noise: seq<bv8>, ps: seq<Packet>, chunks: seq<seq<bv8>>)
    requires PKG_HEADER !in noise
    requires forall p :: p in ps ==> WellShaped(p)
    requires Joined(chunks) == noise + EncodeAll(ps)
    ensures FeedPackets([], chunks) == ps
  {
    hide *;
    ChunkingIndependent(chunks, chunks);
    StreamDecodes(noise, ps);
  }

  /** Where in a stream, from `at` on, the decoded frames start. */
  function Starts(buf: seq<bv8>, at: nat): seq<nat>
    requires at <= |buf|
    decreases |buf| - at
  {
    if at + FRAME_LEN > |buf| then []
    else if Parse(buf[at..at + FRAME_LEN]).Some? then [at] + Starts(buf, at + FRAME_LEN)
    else Starts(buf, at + 1)
  }

  predicate FrameAt(buf: seq<bv8>, at: nat) {
    at + FRAME_LEN <= |buf| && Parse(buf[at..at + FRAME_LEN]).Some?
  }

  /** Every start holds a frame, and the packets are those frames, in order. */
  lemma {:induction false} StartsAreFrames(buf: seq<bv8>, at: nat)
    requires at <= |buf|
    ensures |Packets(buf[at..])| == |Starts(buf, at)|
    ensures forall k :: 0 <= k < |Starts(buf, at)| ==>
      at <= Starts(buf, at)[k] && FrameAt(buf, Starts(buf, at)[k])
      && Some(Packets(buf[at..])[k]) == Parse(buf[Starts(buf, at)[k]..Starts(buf, at)[k] + FRAME_LEN])
    decreases |buf| - at
  {
    hide Parse, Packets;
    if at + FRAME_LEN > |buf| {
      ScanShort(buf[at..]);
    } else {
      ScanStep(buf, at);
      if Parse(buf[at..at + FRAME_LEN]).Some? {
        StartsAreFrames(buf, at + FRAME_LEN);
      } else {
        StartsAreFrames(buf, at + 1);
      }
    }
  }

  /** Decoded frames never overlap. */
  lemma {:induction false} StartsApart(buf: seq<bv8>, at: nat)
    requires at <= |buf|
    ensures forall k :: 0 <= k < |Starts(buf, at)| ==> at <= Starts(buf, at)[k]
    ensures forall k :: 0 < k < |Starts(buf, at)| ==> Starts(buf, at)[k - 1] + FRAME_LEN <= Starts(buf, at)[k]
    decreases |buf| - at
  {
    hide Parse;
    if at + FRAME_LEN <= |buf| {
      StartsApart(buf, at + 1);
      StartsApart(buf, at + FRAME_LEN);
    }
  }

  /** No valid frame is missed: each starts where one was decoded, or inside one that was. */
  lemma {:induction false} NoFrameMissed(buf: seq<bv8>, at: nat, j: nat)
    requires at <= j && FrameAt(buf, j)
    ensures exists s :: s in Starts(buf, at) && s <= j < s + FRAME_LEN
    decreases |buf| - at
  {
    hide Parse;
    if Parse(buf[at..at + FRAME_LEN]).Some? {
      if j >= at + FRAME_LEN {
        NoFrameMissed(buf, at + FRAME_LEN, j);
        var s :| s in Starts(buf, at + FRAME_LEN) && s <= j < s + FRAME_LEN;
        assert s in Starts(buf, at);
      } else {
        assert at in Starts(buf, at);
      }
    } else {
      NoFrameMissed(buf, at + 1, j);
      var s :| s in Starts(buf, at + 1) && s <= j < s + FRAME_LEN;
      assert s in Starts(buf, at);
    }
  }
}
