/** firmware/mcp2515.c: how a frame is packed into the transmit buffer of the
    CAN controller, and unpacked from its receive buffer. */
module Mcp2515Codec {
  import opened Wire

  // Masks of firmware/can.h: 0x80000000 extended frame (EFF), 0x40000000 remote
  // frame (RTR), 0x20000000 error frame (ERR); identifiers have 11 (0x7ff) or
  // 29 (0x1fffffff) bits.

  /** The first five registers of a transmit or receive buffer. */
  datatype Header = Header(sidh: byte, sidl: byte, eid8: byte, eid0: byte, dlc: byte)

  // ----- transmit registers -----------------------------------------------------------

  predicate Extended(id: bv32) {
    id & 0x80000000 != 0
  }

  predicate IsRemote(id: bv32) {
    id & 0x40000000 != 0
  }

  function Sid(id: bv32): bv32 {
    if Extended(id) then (id & 0x1fffffff) >> 18 else id & 0x7ff
  }

  function Eid(id: bv32): bv32 {
    id & 0x1fffffff
  }

  function TxSidh(id: bv32): byte {
    ((Sid(id) >> 3) & 0xff) as byte
  }

  function TxSidl(id: bv32): byte {
    var exide: bv32 := if Extended(id) then 1 else 0;
    ((((Sid(id) & 7) << 5) | (exide << 3) | ((Eid(id) >> 16) & 3)) & 0xff) as byte
  }

  function TxDlc(id: bv32, len: byte): byte {
    ((if IsRemote(id) then 1 else 0) << 6) | len
  }

  /** mcp2515_tx: the bytes that follow INSTRUCTION_LOAD_TXB(0). */
  function TxHeader(id: bv32, len: byte): Header {
    Header(TxSidh(id), TxSidl(id), ((Eid(id) >> 8) & 0xff) as byte, (Eid(id) & 0xff) as byte, TxDlc(id, len))
  }

  /** Which bits of an identifier stand where: the standard part in SIDH and the
      upper three bits of SIDL, the rest of an extended one in the lower two
      bits of SIDL, EID8 and EID0. */
  lemma RegisterLayout(id: bv32, len: byte)
    requires len <= 8
    ensures var h := TxHeader(id, len); var standard := 8 * (h.sidh as bv32) + (h.sidl / 32) as bv32;
            && (h.sidl / 8 % 2 == 1 <==> id / 0x8000_0000 == 1)
            && (h.dlc / 64 == 1 <==> id / 0x4000_0000 % 2 == 1) && h.dlc % 64 == len
            && (id / 0x8000_0000 == 0 ==> standard == id % 0x800)
            && (id / 0x8000_0000 == 1 ==>
                  id % 0x2000_0000 ==
                  0x4_0000 * standard + 0x1_0000 * ((h.sidl % 4) as bv32) + 0x100 * (h.eid8 as bv32) + (h.eid0 as bv32))
  {
    if id / 0x8000_0000 == 0 {
      StandardLayout(id);
    } else {
      ExtendedLayout(id);
    }
    FlagLayout(id, len);
  }

  lemma FlagLayout(id: bv32, len: byte)
    requires len <= 8
    ensures TxSidl(id) / 8 % 2 == 1 <==> id / 0x8000_0000 == 1
    ensures (TxDlc(id, len) / 64 == 1 <==> id / 0x4000_0000 % 2 == 1) && TxDlc(id, len) % 64 == len
  {
  }

  lemma StandardLayout(id: bv32)
    requires id / 0x8000_0000 == 0
    ensures 8 * (TxSidh(id) as bv32) + (TxSidl(id) / 32) as bv32 == id % 0x800
  {
  }

  lemma ExtendedLayout(id: bv32)
    requires id / 0x8000_0000 == 1
    ensures var h := TxHeader(id, 0);
            id % 0x2000_0000 ==
            0x4_0000 * (8 * (h.sidh as bv32) + (h.sidl / 32) as bv32) + 0x1_0000 * ((h.sidl % 4) as bv32) +
            0x100 * (h.eid8 as bv32) + (h.eid0 as bv32)
  {
  }

  // ----- receive registers ------------------------------------------------------------

  /** IDE is set for an extended frame; SRR shows the RTR bit of a standard
      one. Other bits are what the data sheet leaves open. */
  function RxSidl(sidl: byte, dlc: byte, junk: byte): byte {
    if sidl & 0x08 != 0 then (sidl & 0xeb) | (junk & 0x14)
    else (sidl & 0xe0) | ((dlc & 0x40) >> 2) | (junk & 0x07)
  }

  /** Bit 6 shows the RTR bit of an extended frame. */
  function RxDlcReg(sidl: byte, dlc: byte, junk: byte): byte {
    if sidl & 0x08 != 0 then (dlc & 0x4f) | (junk & 0x30) else (dlc & 0x0f) | (junk & 0xf0)
  }

  /** What the controller of another node shows in its receive buffer for a
      frame sent from these registers. */
  function RxHeader(h: Header, junk: Header): Header {
    Header(h.sidh, RxSidl(h.sidl, h.dlc, junk.sidl),
           if h.sidl & 0x08 != 0 then h.eid8 else junk.eid8,
           if h.sidl & 0x08 != 0 then h.eid0 else junk.eid0,
           RxDlcReg(h.sidl, h.dlc, junk.dlc))
  }

  /** mcp2515_rx: the identifier word from the registers. */
  function JoinId(sidh: byte, sidl: byte, eid8: byte, eid0: byte, dlc: byte): bv32 {
    var id: bv32 := ((sidh as bv32) << 3) | ((sidl >> 5) as bv32);
    if sidl & 0x08 != 0 then
      (id << 18) | 0x80000000 | (((sidl & 3) as bv32) << 16) | ((eid8 as bv32) << 8) | (eid0 as bv32) |
      (if dlc & 0x40 != 0 then 0x40000000 else 0)
    else
      id | (if sidl & 0x10 != 0 then 0x40000000 else 0)
  }

  function RxId(h: Header): bv32 {
    JoinId(h.sidh, h.sidl, h.eid8, h.eid0, h.dlc)
  }

  function RxDlc(h: Header): byte {
    h.dlc & 0x0f
  }

  // ----- round trip -------------------------------------------------------------------

  /** The identifier word without what the frame format does not carry. */
  function OnTheBus(id: bv32): bv32 {
    if Extended(id) then id & (0x80000000 | 0x40000000 | 0x1fffffff)
    else id & (0x40000000 | 0x7ff)
  }

  lemma SidlBits(id: bv32)
    ensures TxSidl(id) & 0x08 != 0 <==> Extended(id)
  {
  }

  lemma DlcBits(id: bv32, len: byte)
    requires len <= 8
    ensures TxDlc(id, len) & 0x40 != 0 <==> IsRemote(id)
    ensures TxDlc(id, len) & 0x0f == len
  {
  }

  lemma ExtendedBits(id: bv32, dlc: byte, junk: byte, junkDlc: byte)
    requires Extended(id) && (dlc & 0x40 != 0 <==> IsRemote(id))
    ensures JoinId(TxSidh(id), RxSidl(TxSidl(id), dlc, junk), ((Eid(id) >> 8) & 0xff) as byte, (Eid(id) & 0xff) as byte,
                   RxDlcReg(TxSidl(id), dlc, junkDlc)) == OnTheBus(id)
  {
  }

  lemma StandardBits(id: bv32, dlc: byte, junk: byte, eid8: byte, eid0: byte, any: byte)
    requires !Extended(id) && (dlc & 0x40 != 0 <==> IsRemote(id))
    ensures JoinId(TxSidh(id), RxSidl(TxSidl(id), dlc, junk), eid8, eid0, any) == OnTheBus(id)
  {
  }

  lemma LengthBits(sidl: byte, dlc: byte, junk: byte)
    ensures RxDlcReg(sidl, dlc, junk) & 0x0f == dlc & 0x0f
  {
  }

  /** Identifier and flags survive the trip through both register layouts, for
      every identifier word; only the ERR flag and, in standard frames, bits
      above the eleventh are lost. */
  lemma IdRoundTrip(id: bv32, len: byte, junk: Header)
    requires len <= 8
    ensures RxId(RxHeader(TxHeader(id, len), junk)) == OnTheBus(id)
  {
    if Extended(id) {
      ExtendedHeader(id, len, junk);
    } else {
      StandardHeader(id, len, junk);
    }
  }

  lemma ExtendedHeader(id: bv32, len: byte, junk: Header)
    requires len <= 8 && Extended(id)
    ensures RxId(RxHeader(TxHeader(id, len), junk)) == OnTheBus(id)
  {
    DlcBits(id, len);
    SidlBits(id);
    ExtendedBits(id, TxDlc(id, len), junk.sidl, junk.dlc);
  }

  lemma StandardHeader(id: bv32, len: byte, junk: Header)
    requires len <= 8 && !Extended(id)
    ensures RxId(RxHeader(TxHeader(id, len), junk)) == OnTheBus(id)
  {
    DlcBits(id, len);
    SidlBits(id);
    StandardBits(id, TxDlc(id, len), junk.sidl, junk.eid8, junk.eid0, RxDlcReg(TxSidl(id), TxDlc(id, len), junk.dlc));
  }

  /** So does the data length. */
  lemma DlcRoundTrip(id: bv32, len: byte, junk: Header)
    requires len <= 8
    ensures RxDlc(RxHeader(TxHeader(id, len), junk)) == len
  {
    DlcBits(id, len);
    LengthBits(TxSidl(id), TxDlc(id, len), junk.dlc);
  }

  /** An 11-bit or 29-bit identifier with any RTR flag comes back unchanged,
      and no other word does. */
  predicate Normal(id: bv32) {
    id & 0x20000000 == 0 && (Extended(id) || id & 0x1fffffff == id & 0x7ff)
  }

  lemma NormalExtended(id: bv32)
    requires id & 0x80000000 != 0
    ensures id & (0x80000000 | 0x40000000 | 0x1fffffff) == id <==> id & 0x20000000 == 0
  {
  }

  lemma NormalStandard(id: bv32)
    requires id & 0x80000000 == 0
    ensures id & (0x40000000 | 0x7ff) == id <==> id & 0x20000000 == 0 && id & 0x1fffffff == id & 0x7ff
  {
  }

  lemma NormalIds(id: bv32)
    ensures OnTheBus(id) == id <==> Normal(id)
  {
    if Extended(id) {
      NormalExtended(id);
    } else {
      NormalStandard(id);
    }
  }

  // ----- byte streams ---------------------------------------------------------------

  /** The SPI bytes of mcp2515_tx after the instruction. */
  function TxBytes(f: CanFrame): seq<byte>
    requires ValidFrame(f)
  {
    var h := TxHeader(f.id, |f.data| as byte);
    [h.sidh, h.sidl, h.eid8, h.eid0, h.dlc] + f.data
  }

  /** The receive buffer of another node: the registers, and the data field,
      which a remote frame does not have. */
  function OnReceive(tx: seq<byte>, junk: Header, junkData: seq<byte>): seq<byte>
    requires |tx| >= 5
  {
    var h := RxHeader(Header(tx[0], tx[1], tx[2], tx[3], tx[4]), junk);
    [h.sidh, h.sidl, h.eid8, h.eid0, h.dlc] + if tx[4] & 0x40 != 0 then junkData else tx[5..]
  }

  /** mcp2515_rx on a receive buffer. */
  function Decode(rx: seq<byte>): CanFrame
    requires |rx| >= 5 && |rx| >= 5 + (rx[4] & 0x0f) as int
  {
    var h := Header(rx[0], rx[1], rx[2], rx[3], rx[4]);
    CanFrame(RxId(h), rx[5..5 + RxDlc(h) as int])
  }

  lemma StreamThroughTheBus(h: Header, data: seq<byte>, junk: Header, junkData: seq<byte>)
    requires |data| == |junkData| == RxDlc(RxHeader(h, junk)) as int
    ensures var rx := OnReceive([h.sidh, h.sidl, h.eid8, h.eid0, h.dlc] + data, junk, junkData);
            && |rx| >= 5 && |rx| >= 5 + (rx[4] & 0x0f) as int
            && Decode(rx) == CanFrame(RxId(RxHeader(h, junk)), if h.dlc & 0x40 != 0 then junkData else data)
  {
    var tx := [h.sidh, h.sidl, h.eid8, h.eid0, h.dlc] + data;
    assert tx[5..] == data;
    assert Header(tx[0], tx[1], tx[2], tx[3], tx[4]) == h;
    DecodeStream(RxHeader(h, junk), if h.dlc & 0x40 != 0 then junkData else data);
  }

  lemma DecodeStream(h: Header, data: seq<byte>)
    requires |data| == RxDlc(h) as int
    ensures var rx := [h.sidh, h.sidl, h.eid8, h.eid0, h.dlc] + data;
            |rx| == 5 + (rx[4] & 0x0f) as int && Decode(rx) == CanFrame(RxId(h), data)
  {
    var rx := [h.sidh, h.sidl, h.eid8, h.eid0, h.dlc] + data;
    assert Header(rx[0], rx[1], rx[2], rx[3], rx[4]) == h;
    assert rx[5..5 + |data|] == data;
  }

  /** The frame another node receives is the frame that was sent. A remote
      frame keeps identifier, flags and length; it has no data to compare. */
  lemma FrameThroughTheBus(f: CanFrame, junk: Header, junkData: seq<byte>)
    requires ValidFrame(f) && |junkData| == |f.data|
    ensures var rx := OnReceive(TxBytes(f), junk, junkData);
            && |rx| >= 5 && |rx| >= 5 + (rx[4] & 0x0f) as int
            && Decode(rx).id == OnTheBus(f.id)
            && |Decode(rx).data| == |f.data|
            && (!IsRemote(f.id) ==> Decode(rx).data == f.data)
            && (Normal(f.id) && !IsRemote(f.id) ==> Decode(rx) == f)
  {
    var len := |f.data| as byte;
    assert len as int == |f.data| && len <= 8;
    IdRoundTrip(f.id, len, junk);
    DlcRoundTrip(f.id, len, junk);
    DlcBits(f.id, len);
    NormalIds(f.id);
    StreamThroughTheBus(TxHeader(f.id, len), f.data, junk, junkData);
  }

  /** What mcp2515_rx of another node makes of a packet given to mcp2515_tx. */
  function Received(p: Packet, bits: Header, bus: seq<byte>): (f: CanFrame)
    requires HasDlc(p) && |bus| == p[4] as int
    ensures ValidFrame(f)
  {
    FrameThroughTheBus(DecodeFrame(p), bits, bus);
    Decode(OnReceive(TxBytes(DecodeFrame(p)), bits, bus))
  }

  /** The frames of a report, as the read callback passes them on. */
  function Delivered(bytes: seq<byte>): seq<CanFrame> {
    match ParseReport(bytes)
    case Malformed => []
    case Report(_, frames) => if forall p | p in frames :: HasDlc(p) then DecodeAll(frames) else []
  }

  /** From the socket of one host to the socket of another: start_xmit's
      packet, the ring, the two controllers, the report. */
  lemma EndToEnd(f: CanFrame, junk: seq<byte>, bits: Header, bus: seq<byte>, junk2: seq<byte>, free: nat)
    requires ValidFrame(f) && Normal(f.id) && !IsRemote(f.id)
    requires |junk| == |junk2| == 8 && |bus| == |f.data| && free <= TX_SLOTS
    ensures var p := EncodeFrame(f, junk);
            && HasDlc(p) && p[4] as int == |f.data|
            && Delivered(ReportBytes(free, [EncodeFrame(Received(p, bits, bus), junk2)])) == [f]
  {
    FrameRoundTrip(f, junk);
    FrameThroughTheBus(f, bits, bus);
    FrameRoundTrip(f, junk2);
    var p := EncodeFrame(f, junk2);
    ReportRoundTrip(free, [p]);
    assert DecodeAll([p]) == [f];
  }

  // ----- the loops --------------------------------------------------------------------

  /** mcp2515_tx byte by byte: what spi_io is called with. */
  method Tx(f: CanFrame) returns (spi: seq<byte>)
    requires ValidFrame(f)
    ensures spi == TxBytes(f)
  {
    var h := TxHeader(f.id, |f.data| as byte);
    spi := [h.sidh] + [h.sidl] + [h.eid8] + [h.eid0] + [h.dlc];
    var i := 0;
    while i < |f.data|
      invariant 0 <= i <= |f.data|
      invariant spi == [h.sidh, h.sidl, h.eid8, h.eid0, h.dlc] + f.data[..i]
    {
      spi := spi + [f.data[i]];
      i := i + 1;
    }
    assert f.data[..i] == f.data;
  }

  /** mcp2515_rx byte by byte: `spi` is what spi_io returns. */
  method Rx(spi: seq<byte>) returns (f: CanFrame)
    requires |spi| >= 5 && |spi| >= 5 + (spi[4] & 0x0f) as int
    ensures f == Decode(spi)
  {
    var id := JoinId(spi[0], spi[1], spi[2], spi[3], spi[4]);
    var data := RxData(spi, (spi[4] & 0x0f) as int);
    f := CanFrame(id, data);
  }

  /** The data loop of mcp2515_rx. */
  method RxData(spi: seq<byte>, len: nat) returns (data: seq<byte>)
    requires |spi| >= 5 + len
    ensures data == spi[5..5 + len]
  {
    data := [];
    var i := 0;
    while i < len
      invariant 0 <= i <= len
      invariant data == spi[5..5 + i]
    {
      data := data + [spi[5 + i]];
      i := i + 1;
    }
  }
}
