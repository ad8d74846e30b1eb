/** The packed structures that cross the USB bulk pipes: a 13-byte CAN frame
    (firmware/can.h, struct can_frame) and the receive report that carries up
    to four of them behind a 4-byte header (firmware/buffer.h). Both ends of
    the pipe use the same layout; multi-byte fields are little endian. */
module Wire {
  type byte = bv8

  const FRAME_SIZE := 13
  const HEADER_SIZE := 4
  const RX_MAX_FRAMES := 4
  const TX_SLOTS := 32

  /** The memory of one struct can_frame. */
  type Packet = p: seq<byte> | |p| == FRAME_SIZE witness seq(FRAME_SIZE, _ => 0)

  /** What a frame means to the layers above: identifier word (with its EFF,
      RTR and ERR flags) and data; the DLC is the length of the data. */
  datatype CanFrame = CanFrame(id: bv32, data: seq<byte>)

  predicate ValidFrame(f: CanFrame) {
    |f.data| <= 8
  }

  // ----- 32-bit words ------------------------------------------------------

  function Le32(x: bv32): (bytes: seq<byte>)
    ensures |bytes| == 4
  {
    [(x & 0xff) as byte, ((x >> 8) & 0xff) as byte, ((x >> 16) & 0xff) as byte, (x >> 24) as byte]
  }

  function Join32(a: byte, b: byte, c: byte, d: byte): bv32 {
    (a as bv32) | ((b as bv32) << 8) | ((c as bv32) << 16) | ((d as bv32) << 24)
  }

  lemma SplitJoin(x: bv32)
    ensures var w := Le32(x); Join32(w[0], w[1], w[2], w[3]) == x
  {
  }

  /** The least significant byte comes first. */
  lemma LittleEndian(x: bv32, a: byte, b: byte, c: byte, d: byte)
    ensures var w := Le32(x);
            w[0] as bv32 == x % 0x100 && w[1] as bv32 == x / 0x100 % 0x100 &&
            w[2] as bv32 == x / 0x1_0000 % 0x100 && w[3] as bv32 == x / 0x100_0000
    ensures Join32(a, b, c, d) == a as bv32 + 0x100 * (b as bv32) + 0x1_0000 * (c as bv32) + 0x100_0000 * (d as bv32)
  {
  }

  // ----- one frame ---------------------------------------------------------

  /** open_usb_can_start_xmit fills identifier, DLC and the first DLC data
      bytes of a freshly allocated buffer; `junk` is what the allocator left
      in the data field. */
  function EncodeFrame(f: CanFrame, junk: seq<byte>): Packet
    requires ValidFrame(f) && |junk| == 8
  {
    Le32(f.id) + [|f.data| as byte] + f.data + junk[|f.data|..]
  }

  /** A DLC field the copy loops of both ends can handle. */
  predicate HasDlc(p: Packet) {
    p[4] <= 8
  }

  function DecodeFrame(p: Packet): CanFrame
    requires HasDlc(p)
  {
    CanFrame(Join32(p[0], p[1], p[2], p[3]), p[5..5 + p[4] as int])
  }

  lemma FrameRoundTrip(f: CanFrame, junk: seq<byte>)
    requires ValidFrame(f) && |junk| == 8
    ensures HasDlc(EncodeFrame(f, junk))
    ensures DecodeFrame(EncodeFrame(f, junk)) == f
  {
    var n := |f.data|;
    assert (n as byte) as int == n && n as byte <= 8;
    SplitJoin(f.id);
    var p := EncodeFrame(f, junk);
    assert p[..4] == Le32(f.id);
    assert p[0] == Le32(f.id)[0] && p[1] == Le32(f.id)[1] && p[2] == Le32(f.id)[2] && p[3] == Le32(f.id)[3];
    assert p[4] == n as byte;
    assert p[5..5 + n] == f.data;
  }

  /** Where the fields of struct can_frame are. */
  lemma FrameLayout(f: CanFrame, junk: seq<byte>)
    requires ValidFrame(f) && |junk| == 8
    ensures var p := EncodeFrame(f, junk);
            p[0..4] == Le32(f.id) && p[4] as int == |f.data| && p[5..5 + |f.data|] == f.data
  {
    FrameRoundTrip(f, junk);
  }

  function DecodeAll(ps: seq<Packet>): (fs: seq<CanFrame>)
    requires forall p | p in ps :: HasDlc(p)
    ensures |fs| == |ps|
  {
    seq(|ps|, i requires 0 <= i < |ps| => DecodeFrame(ps[i]))
  }

  // ----- one report --------------------------------------------------------

  function Concat(ps: seq<seq<byte>>): seq<byte> {
    if ps == [] then [] else ps[0] + Concat(ps[1..])
  }

  lemma {:induction false} ConcatAppend(ps: seq<seq<byte>>, qs: seq<seq<byte>>)
    ensures Concat(ps + qs) == Concat(ps) + Concat(qs)
  {
    if ps == [] {
      assert ps + qs == qs;
    } else {
      assert (ps + qs)[1..] == ps[1..] + qs;
      ConcatAppend(ps[1..], qs);
    }
  }

  lemma ConcatSnoc(ps: seq<seq<byte>>, p: seq<byte>)
    ensures Concat(ps + [p]) == Concat(ps) + p
  {
    ConcatAppend(ps, [p]);
    assert [p][1..] == [];
    assert Concat([p]) == p + Concat([]);
  }

  lemma {:induction false} ConcatPackets(ps: seq<Packet>)
    ensures |Concat(ps)| == FRAME_SIZE * |ps|
    ensures forall i | 0 <= i < |ps| :: Concat(ps)[FRAME_SIZE * i..FRAME_SIZE * i + FRAME_SIZE] == ps[i]
  {
    if ps != [] {
      ConcatPackets(ps[1..]);
      forall i | 0 <= i < |ps|
        ensures Concat(ps)[FRAME_SIZE * i..FRAME_SIZE * i + FRAME_SIZE] == ps[i]
      {
        if i > 0 {
          var rest := Concat(ps[1..]);
          var j := FRAME_SIZE * (i - 1);
          assert rest[j..j + FRAME_SIZE] == ps[1..][i - 1];
          assert (ps[0] + rest)[FRAME_SIZE + j..FRAME_SIZE + j + FRAME_SIZE] == rest[j..j + FRAME_SIZE];
        }
      }
    }
  }

  /** struct usb_rx_buffer as buffer_rx_process hands it to usb_send: frame
      count, two spare bytes that are always zero, free slots, frames. */
  function ReportBytes(free: nat, frames: seq<Packet>): (bytes: seq<byte>)
    requires free <= TX_SLOTS && |frames| <= RX_MAX_FRAMES
  {
    [|frames| as byte, 0, 0, free as byte] + Concat(frames)
  }

  datatype Report = Malformed | Report(free: int, frames: seq<Packet>)

  /** The length check and frame loop of open_usb_can_read_bulk_callback. */
  function ParseReport(bytes: seq<byte>): Report {
    if |bytes| < HEADER_SIZE || |bytes| < HEADER_SIZE + FRAME_SIZE * bytes[0] as int then Malformed
    else Report(bytes[3] as int,
                seq(bytes[0] as int, i requires 0 <= i < bytes[0] as int =>
                      bytes[HEADER_SIZE + FRAME_SIZE * i..HEADER_SIZE + FRAME_SIZE * i + FRAME_SIZE]))
  }

  lemma ReportHeader(free: nat, frames: seq<Packet>)
    requires free <= TX_SLOTS && |frames| <= RX_MAX_FRAMES
    ensures var bytes := ReportBytes(free, frames);
            |bytes| >= HEADER_SIZE && bytes[0] as int == |frames| && bytes[3] as int == free &&
            bytes[HEADER_SIZE..] == Concat(frames)
  {
    var n := |frames|;
    assert (n as byte) as int == n && (free as byte) as int == free;
  }

  lemma SliceInTwo(s: seq<byte>, a: nat, b: nat, c: nat)
    requires a <= b <= c <= |s|
    ensures s[a..c] == s[a..b] + s[b..c]
  {
  }

  lemma SliceOfSlice(s: seq<byte>, from: nat, a: nat, b: nat)
    requires from <= |s| && a <= b <= |s| - from
    ensures s[from..][a..b] == s[from + a..from + b]
  {
  }

  /** Parsing, once header and body are known. */
  lemma ParseFrames(bytes: seq<byte>, free: nat, frames: seq<Packet>)
    requires |bytes| == HEADER_SIZE + FRAME_SIZE * |frames|
    requires bytes[0] as int == |frames| && bytes[3] as int == free
    requires forall i | 0 <= i < |frames| ::
               bytes[HEADER_SIZE + FRAME_SIZE * i..HEADER_SIZE + FRAME_SIZE * i + FRAME_SIZE] == frames[i]
    ensures ParseReport(bytes) == Report(free, frames)
  {
    var parsed := ParseReport(bytes);
    assert parsed.Report? && |parsed.frames| == |frames|;
    forall i | 0 <= i < |frames|
      ensures parsed.frames[i] == frames[i]
    {
      assert parsed.frames[i] == bytes[HEADER_SIZE + FRAME_SIZE * i..HEADER_SIZE + FRAME_SIZE * i + FRAME_SIZE];
    }
    assert parsed.frames == frames && parsed.free == free;
    assert parsed == Report.Report(parsed.free, parsed.frames);
  }

  lemma ReportRoundTrip(free: nat, frames: seq<Packet>)
    requires free <= TX_SLOTS && |frames| <= RX_MAX_FRAMES
    ensures |ReportBytes(free, frames)| == HEADER_SIZE + FRAME_SIZE * |frames| <= 56
    ensures ParseReport(ReportBytes(free, frames)) == Report(free, frames)
  {
    ConcatPackets(frames);
    ReportHeader(free, frames);
    var bytes := ReportBytes(free, frames);
    forall i | 0 <= i < |frames|
      ensures bytes[HEADER_SIZE + FRAME_SIZE * i..HEADER_SIZE + FRAME_SIZE * i + FRAME_SIZE] == frames[i]
    {
      SliceOfSlice(bytes, HEADER_SIZE, FRAME_SIZE * i, FRAME_SIZE * i + FRAME_SIZE);
    }
    ParseFrames(bytes, free, frames);
  }

  /** Where the fields of struct usb_rx_buffer are. */
  lemma ReportLayout(free: nat, frames: seq<Packet>, k: nat)
    requires free <= TX_SLOTS && k < |frames| <= RX_MAX_FRAMES
    ensures var bytes := ReportBytes(free, frames);
            && |bytes| == 4 + 13 * |frames| && bytes[0] as int == |frames| && bytes[1] == bytes[2] == 0 && bytes[3] as int == free
            && bytes[4 + 13 * k..17 + 13 * k] == frames[k]
  {
    ConcatPackets(frames);
    ReportHeader(free, frames);
    SliceOfSlice(ReportBytes(free, frames), 4, 13 * k, 13 * k + 13);
  }

  /** The malformed branch is taken exactly when the packet is shorter than
      its own header announces. */
  lemma MalformedIff(bytes: seq<byte>)
    ensures ParseReport(bytes).Malformed? <==>
            |bytes| < HEADER_SIZE || |bytes| < HEADER_SIZE + FRAME_SIZE * bytes[0] as int
  {
  }
}
