/** The entry points of kernel-module/open-usb-can.c as the kernel calls them,
    each from beginning to end, over the driver's own fields. */
module CanDriver {
  import opened Wire
  import Spec = HostSpec

  /** urb->status of a read URB: none, one of -ENOENT, -ESHUTDOWN, -EILSEQ and
      -EPROTO, or any other. */
  datatype UrbStatus = Success | Gone | Aborted

  class OpenUsbCan {
    var bufferLevel: int
    var activeTxJobs: int
    var queueStopped: bool
    const echoIndex: array<nat>   // tx_contexts[i].echo_index

    /** probe */
    constructor ()
      ensures Valid() && Abs() == Spec.InitialHost(Spec.INITIAL_BUFFER_LEVEL) && fresh(echoIndex)
    {
      var contexts := new nat[Spec.MAX_TX_URBS](_ => Spec.MAX_TX_URBS);
      echoIndex := contexts;
      bufferLevel, activeTxJobs, queueStopped := Spec.INITIAL_BUFFER_LEVEL, 0, false;
    }

    ghost predicate Valid() {
      echoIndex.Length == Spec.MAX_TX_URBS
    }

    /** Between two entry points no callback is half way. */
    ghost function Abs(): Spec.Host
      reads this, echoIndex
    {
      Spec.Host(bufferLevel, activeTxJobs, queueStopped, echoIndex[..], Spec.NoXmit, [], [])
    }

    /** open_usb_can_start_xmit; `gotMemory` says that both the URB and its
        buffer could be had, `junk` is the content of the buffer as allocated,
        `submitOk` the result of usb_submit_urb. Returns the URB that was
        submitted, if any; in all other cases the frame is dropped. */
    method StartXmit(f: CanFrame, gotMemory: bool, junk: seq<byte>, submitOk: bool) returns (urb: seq<Spec.Urb>)
      requires Valid() && ValidFrame(f) && |junk| == 8
      modifies this, echoIndex
      ensures Abs() == if gotMemory then Spec.StartXmit(old(Abs()), EncodeFrame(f, junk), submitOk) else old(Abs())
      ensures urb != [] <==> gotMemory && submitOk && Spec.HasContext(old(Abs()))
      ensures urb != [] ==> urb == [Spec.Urb(Spec.FirstFree(old(echoIndex[..]), 0), EncodeFrame(f, junk))]
    {
      if !gotMemory {
        return [];
      }
      var msg := FillMessage(f, junk);
      var i := 0;
      while i < Spec.MAX_TX_URBS && echoIndex[i] != Spec.MAX_TX_URBS
        invariant 0 <= i <= Spec.MAX_TX_URBS
        invariant Spec.FirstFree(echoIndex[..], 0) == Spec.FirstFree(echoIndex[..], i)
      {
        i := i + 1;
      }
      if i == Spec.MAX_TX_URBS {
        return [];
      }
      echoIndex[i] := i;
      activeTxJobs := activeTxJobs + 1;
      if activeTxJobs >= Spec.MAX_TX_URBS || bufferLevel < Spec.MAX_TX_URBS + 3 {
        queueStopped := true;
      }
      bufferLevel := bufferLevel - 1;
      if submitOk {
        urb := [Spec.Urb(i, msg)];
      } else {
        activeTxJobs := activeTxJobs - 1;
        urb := [];
      }
    }

    /** The message buffer: identifier, DLC and a copy loop over the data. */
    static method FillMessage(f: CanFrame, junk: seq<byte>) returns (msg: Packet)
      requires ValidFrame(f) && |junk| == 8
      ensures msg == EncodeFrame(f, junk)
    {
      var data := new byte[8](i requires 0 <= i < 8 => junk[i]);
      var j := 0;
      while j < |f.data|
        invariant 0 <= j <= |f.data|
        invariant data[..] == f.data[..j] + junk[j..]
      {
        data[j] := f.data[j];
        j := j + 1;
      }
      assert f.data[..j] == f.data;
      msg := Le32(f.id) + [|f.data| as byte] + data[..];
    }

    /** One frame out of the transfer buffer, with its data copy loop. */
    static method CopyFrame(p: Packet) returns (cf: CanFrame)
      requires HasDlc(p)
      ensures cf == DecodeFrame(p)
    {
      var data := [];
      var j := 0;
      while j < p[4] as int
        invariant 0 <= j <= p[4] as int <= 8
        invariant data == p[5..5 + j]
      {
        data := data + [p[5 + j]];
        j := j + 1;
      }
      cf := CanFrame(Join32(p[0], p[1], p[2], p[3]), data);
    }

    /** The frame loop of the read callback; alloc_can_skb succeeds `skbs`
        times. */
    static method NetifRx(packet: seq<byte>, skbs: nat) returns (frames: seq<CanFrame>, ok: bool)
      requires ParseReport(packet).Report? && forall q | q in Spec.Passed(packet, skbs) :: HasDlc(q)
      ensures frames == DecodeAll(Spec.Passed(packet, skbs))
      ensures ok == (|ParseReport(packet).frames| <= skbs)
    {
      ghost var ps := Spec.Passed(packet, skbs);
      ghost var n, all := |ParseReport(packet).frames|, DecodeAll(ps);
      frames := [];
      var i := 0;
      while i < packet[0] as int && i < skbs
        invariant 0 <= i <= |ps| && n == packet[0] as int && |frames| == i
        invariant frames == all[..i]
      {
        PassedAt(packet, skbs, i);
        var p: Packet := packet[HEADER_SIZE + FRAME_SIZE * i..HEADER_SIZE + FRAME_SIZE * i + FRAME_SIZE];
        assert p in ps;
        var cf := CopyFrame(p);
        assert cf == all[i];
        frames := frames + [cf];
        i := i + 1;
      }
      assert i == |ps| && all[..i] == all;
      ok := i == packet[0] as int;
    }

    static lemma PassedAt(packet: seq<byte>, skbs: nat, i: nat)
      requires ParseReport(packet).Report? && i < |ParseReport(packet).frames| && i < skbs
      ensures i < |Spec.Passed(packet, skbs)|
      ensures Spec.Passed(packet, skbs)[i] == packet[HEADER_SIZE + FRAME_SIZE * i..HEADER_SIZE + FRAME_SIZE * i + FRAME_SIZE]
    {
    }

    /** A well-formed report: credit and queue are touched only if all its frames
        could be passed on. */
    method TakeReport(packet: seq<byte>, skbs: nat) returns (frames: seq<CanFrame>)
      requires ParseReport(packet).Report? && forall q | q in Spec.Passed(packet, skbs) :: HasDlc(q)
      modifies this
      ensures frames == DecodeAll(Spec.Passed(packet, skbs))
      ensures Abs() == Spec.ReadCallback(old(Abs()), packet, skbs)
    {
      var ok;
      frames, ok := NetifRx(packet, skbs);
      if ok {
        SetCredit(FreeSlots(packet));
      }
    }

    static function FreeSlots(packet: seq<byte>): (free: int)
      requires ParseReport(packet).Report?
      ensures free == ParseReport(packet).free
    {
      packet[3] as int
    }

    /** The credit and the wake test. */
    method SetCredit(free: int)
      modifies this
      ensures Abs() == Spec.ReportWake(Spec.ReportSet(old(Abs()), free))
    {
      bufferLevel := free;
      if free > Spec.MAX_TX_URBS + 3 && queueStopped {
        queueStopped := false;
      }
    }

    /** open_usb_can_read_bulk_callback: the frames passed to netif_rx, decoded,
        and whether the URB is with the USB core again. */
    method ReadBulkCallback(present: bool, status: UrbStatus, packet: seq<byte>, skbs: nat, submitOk: bool)
      returns (frames: seq<CanFrame>, again: bool)
      requires forall q | q in Spec.Passed(packet, skbs) :: HasDlc(q)
      modifies this
      ensures again == (present && !status.Gone? && submitOk)
      ensures frames == if present && status.Success? then DecodeAll(Spec.Passed(packet, skbs)) else []
      ensures Abs() == if present && status.Success? then Spec.ReadCallback(old(Abs()), packet, skbs) else old(Abs())
    {
      if !present || status.Gone? {
        return [], false;
      }
      frames, again := [], submitOk;
      MalformedIff(packet);
      if status.Success? && |packet| >= HEADER_SIZE && |packet| >= HEADER_SIZE + FRAME_SIZE * packet[0] as int {
        frames := TakeReport(packet, skbs);
      }
    }

    /** open_usb_can_write_bulk_callback */
    method WriteBulkCallback(context: nat, present: bool)
      requires Valid() && context < Spec.MAX_TX_URBS
      modifies this, echoIndex
      ensures Abs() == Spec.WriteRelease(Spec.WriteDone(old(Abs()), context), present)
    {
      activeTxJobs := activeTxJobs - 1;
      if !present {
        return;
      }
      echoIndex[context] := Spec.MAX_TX_URBS;
    }

    /** unlink_all_urbs: every context is free afterwards, leaked ones too. */
    method UnlinkAllUrbs()
      requires Valid()
      modifies this`activeTxJobs, echoIndex
      ensures Abs() == Spec.InitialHost(bufferLevel).(stopped := queueStopped)
    {
      activeTxJobs := 0;
      var i := 0;
      while i < Spec.MAX_TX_URBS
        invariant 0 <= i <= Spec.MAX_TX_URBS
        invariant forall k | 0 <= k < i :: echoIndex[k] == Spec.MAX_TX_URBS
        modifies echoIndex
      {
        echoIndex[i] := Spec.MAX_TX_URBS;
        i := i + 1;
      }
    }
  }
}
