/** The endpoint transfer engine: usb_io (firmware/usb/usb.c) and ep_rx, ep_tx
    and handle_ep (firmware/usb/atu2.c, bootloader/usb/atu2.c). The value
    `Ep` is what an endpoint promises; the class `EndpointDescr` is struct
    ep_descr over real memory. */
module Endpoint {
  import opened Wire
  import opened Arithmetic

  /** The functions the firmware and the boot loader register with usb_io. */
  datatype Callback =
    | NoCallback
    | EnableAddr
    | BlockWrite
    | BufferTxDone
    | BufferRxDone
    | DoBufWrite(head: seq<byte>)   // with the bytes that stand in front of the data

  /** An OUT transfer knows the bytes stored so far and the room left; an IN
      transfer knows the bytes still to be sent. */
  datatype Transfer =
    | Idle
    | Receiving(got: seq<byte>, room: nat, rxDone: Callback)
    | Sending(rest: seq<byte>, txDone: Callback)

  /** `bug` latches the BUG_ON(ep->state) of usb_io, after which the device
      only blinks its LEDs. */
  datatype Ep = Ep(xfer: Transfer, truncate: bool, size: nat, bug: bool)

  function Recv(ep: Ep, length: nat, callback: Callback): Ep {
    if ep.xfer.Idle? then ep.(xfer := Receiving([], length, callback)) else ep.(bug := true)
  }

  function Send(ep: Ep, data: seq<byte>, callback: Callback): Ep {
    if ep.xfer.Idle? then ep.(xfer := Sending(data, callback)) else ep.(bug := true)
  }

  function Cancel(ep: Ep): Ep {
    ep.(xfer := Idle)
  }

  /** An OUT packet is refused (the stall label of handle_ep), stored, or
      stored as the last one, in which case the callback has to run. */
  datatype OutResult =
    | Stall(ep: Ep)
    | Stored(ep: Ep)
    | Complete(ep: Ep, data: seq<byte>, callback: Callback)

  function OutPacket(ep: Ep, packet: seq<byte>): OutResult {
    match ep.xfer
    case Receiving(got, room, callback) =>
      if |packet| > room then Stall(Cancel(ep))
      else if |packet| == room then Complete(Cancel(ep), got + packet, callback)
      else Stored(ep.(xfer := Receiving(got + packet, room - |packet|, callback)))
    case _ => Stall(Cancel(ep))
  }

  /** The IN interrupt either has nothing to send (and is masked), sends one
      packet, or sends the last one and runs the callback. */
  datatype InResult =
    | Masked(ep: Ep)
    | More(ep: Ep, packet: seq<byte>)
    | Last(ep: Ep, packet: seq<byte>, callback: Callback)

  function Min(a: nat, b: nat): nat {
    if a < b then a else b
  }

  function InPacket(ep: Ep): InResult {
    match ep.xfer
    case Sending(rest, callback) =>
      var n := Min(|rest|, ep.size);
      if !ep.truncate && n == ep.size then More(ep.(xfer := Sending(rest[n..], callback)), rest[..n])
      else Last(Cancel(ep), rest[..n], callback)
    case _ => Masked(ep)
  }

  // ----- packetisation ------------------------------------------------------

  /** Everything an endpoint sends, one IN interrupt after the other, until it
      is idle again. */
  function Drain(ep: Ep): seq<seq<byte>>
    requires ep.xfer.Sending? && 0 < ep.size
    decreases |ep.xfer.rest|
  {
    match InPacket(ep)
    case More(next, packet) => [packet] + Drain(next)
    case Last(_, packet, _) => [packet]
  }

  /** The callbacks run while draining. */
  function DrainCallbacks(ep: Ep): seq<Callback>
    requires ep.xfer.Sending? && 0 < ep.size
    decreases |ep.xfer.rest|
  {
    match InPacket(ep)
    case More(next, _) => DrainCallbacks(next)
    case Last(_, _, callback) => [callback]
  }

  /** L / size full packets, then one of L mod size bytes. */
  predicate Sized(packets: seq<seq<byte>>, L: nat, size: nat)
    requires size > 0
  {
    |packets| == L / size + 1 &&
    (forall i | 0 <= i < |packets| - 1 :: |packets[i]| == size) &&
    |packets[|packets| - 1]| == L % size
  }

  lemma SizedCons(packet: seq<byte>, packets: seq<seq<byte>>, L: nat, size: nat)
    requires 0 < size <= L && |packet| == size && Sized(packets, L - size, size)
    ensures Sized([packet] + packets, L, size)
  {
    DivStep(L, size);
  }

  lemma SizedOne(packet: seq<byte>, size: nat)
    requires |packet| < size
    ensures Sized([packet], |packet|, size)
  {
    DivUnique(|packet|, size, 0, |packet|);
  }

  lemma ConcatCons(packet: seq<byte>, packets: seq<seq<byte>>)
    ensures Concat([packet] + packets) == packet + Concat(packets)
  {
    assert ([packet] + packets)[1..] == packets;
  }

  /** Section 5.5.3 of USB 2.0: a transfer without EPF_TRUNCATE is L / size
      full packets and one packet of L mod size bytes (empty when size divides
      L), carrying the buffer in order, and its callback runs once. */
  lemma {:induction false} Packetisation(ep: Ep)
    requires ep.xfer.Sending? && 0 < ep.size && !ep.truncate
    ensures Sized(Drain(ep), |ep.xfer.rest|, ep.size)
    ensures Concat(Drain(ep)) == ep.xfer.rest
    ensures DrainCallbacks(ep) == [ep.xfer.txDone]
    decreases |ep.xfer.rest|
  {
    var rest, s := ep.xfer.rest, ep.size;
    if |rest| >= s {
      var next := InPacket(ep).ep;
      Packetisation(next);
      SizedCons(rest[..s], Drain(next), |rest|, s);
      ConcatCons(rest[..s], Drain(next));
      assert rest[..s] + rest[s..] == rest;
    } else {
      assert rest[..|rest|] == rest && Drain(ep) == [rest] + [];
      SizedOne(rest, s);
      ConcatCons(rest, []);
    }
  }

  /** The host gets `data`, in packets of at most the endpoint size, the last one
      short, and the callback runs. */
  ghost predicate Delivers(ep: Ep, data: seq<byte>, callback: Callback) {
    ep.xfer.Sending? && 0 < ep.size && !ep.truncate && !ep.bug &&
    Concat(Drain(ep)) == data && Sized(Drain(ep), |data|, ep.size) && DrainCallbacks(ep) == [callback]
  }

  lemma SendDelivers(ep: Ep, data: seq<byte>, callback: Callback)
    requires ep.xfer.Idle? && 0 < ep.size && !ep.truncate && !ep.bug
    ensures Delivers(Send(ep, data, callback), data, callback)
  {
    Packetisation(Send(ep, data, callback));
  }

  /** The BUG_ON of usb_io: a transfer started over another one, which goes on;
      nothing that happens to the endpoint afterwards undoes it. */
  lemma BusyIsBug(ep: Ep, length: nat, data: seq<byte>, callback: Callback, packet: seq<byte>)
    ensures Recv(ep, length, callback).bug == Send(ep, data, callback).bug == (ep.bug || !ep.xfer.Idle?)
    ensures !ep.xfer.Idle? ==> Recv(ep, length, callback).xfer == Send(ep, data, callback).xfer == ep.xfer
    ensures OutPacket(ep, packet).ep.bug == InPacket(ep).ep.bug == Cancel(ep).bug == ep.bug
  {
  }

  /** With EPF_TRUNCATE a transfer is one packet, whatever was asked for. */
  lemma TruncatedTransfer(ep: Ep)
    requires ep.xfer.Sending? && 0 < ep.size && ep.truncate
    ensures Drain(ep) == [ep.xfer.rest[..Min(|ep.xfer.rest|, ep.size)]]
    ensures |ep.xfer.rest| <= ep.size ==> Drain(ep) == [ep.xfer.rest]
    ensures InPacket(ep).ep.xfer.Idle? && DrainCallbacks(ep) == [ep.xfer.txDone]
  {
    if |ep.xfer.rest| <= ep.size {
      assert ep.xfer.rest[..Min(|ep.xfer.rest|, ep.size)] == ep.xfer.rest;
    }
  }

  // ----- reassembly ---------------------------------------------------------

  /** Feeds packets one by one. Records the buffers handed to callbacks and
      whether anything was refused. */
  datatype Fed = Fed(ep: Ep, completed: seq<seq<byte>>, stalled: bool)

  function Feed(ep: Ep, packets: seq<seq<byte>>): Fed
    decreases |packets|
  {
    if packets == [] then Fed(ep, [], false)
    else
      match OutPacket(ep, packets[0])
      case Stall(next) => var f := Feed(next, packets[1..]); f.(stalled := true)
      case Stored(next) => Feed(next, packets[1..])
      case Complete(next, data, _) => var f := Feed(next, packets[1..]); f.(completed := [data] + f.completed)
  }

  /** A split of a transfer into packets: the last packet completes it, none
      before does. */
  predicate IsSplit(packets: seq<seq<byte>>, length: nat) {
    packets != [] &&
    if |packets| == 1 then |packets[0]| == length
    else |packets[0]| < length && IsSplit(packets[1..], length - |packets[0]|)
  }

  lemma {:induction false} Reassembly(ep: Ep, packets: seq<seq<byte>>)
    requires ep.xfer.Receiving? && IsSplit(packets, ep.xfer.room)
    ensures Feed(ep, packets) == Fed(Cancel(ep), [ep.xfer.got + Concat(packets)], false)
    decreases packets
  {
    var got := ep.xfer.got;
    if |packets| == 1 {
      assert packets[1..] == [];
      assert Concat(packets) == packets[0];
    } else {
      var next := OutPacket(ep, packets[0]).ep;
      Reassembly(next, packets[1..]);
      assert got + packets[0] + Concat(packets[1..]) == got + Concat(packets);
    }
  }

  /** A packet that does not fit ends the transfer without its callback and leaves
      the endpoint idle: whatever follows is refused as well, even packets
      that would have fitted. */
  lemma {:induction false} OversizedPacket(ep: Ep, fit: seq<seq<byte>>, big: seq<byte>, rest: seq<seq<byte>>)
    requires ep.xfer.Receiving? && |Concat(fit)| < ep.xfer.room < |Concat(fit)| + |big|
    ensures Feed(ep, fit + [big] + rest) == Fed(Cancel(ep), [], true)
    decreases |fit|
  {
    var all := fit + [big] + rest;
    if fit == [] {
      assert all[1..] == rest;
      UnarmedRefuses(Cancel(ep), rest);
    } else {
      assert all[1..] == fit[1..] + [big] + rest;
      OversizedPacket(OutPacket(ep, fit[0]).ep, fit[1..], big, rest);
    }
  }

  lemma {:induction false} UnarmedRefuses(ep: Ep, packets: seq<seq<byte>>)
    requires ep.xfer.Idle?
    ensures Feed(ep, packets) == Fed(ep, [], packets != [])
  {
    if packets != [] {
      UnarmedRefuses(ep, packets[1..]);
    }
  }

  /** Whatever a transfer of n bytes is drained into, a receive of n bytes
      puts together again, provided the closing packet is not empty. */
  lemma {:induction false} DrainIsSplit(ep: Ep)
    requires ep.xfer.Sending? && 0 < ep.size && !ep.truncate
    requires |ep.xfer.rest| % ep.size != 0
    ensures IsSplit(Drain(ep), |ep.xfer.rest|)
    decreases |ep.xfer.rest|
  {
    var rest, s := ep.xfer.rest, ep.size;
    if |rest| >= s {
      DivStep(|rest|, s);
      if |rest| == s {
        DivUnique(|rest|, s, 1, 0);
      }
      var next := InPacket(ep).ep;
      DrainIsSplit(next);
      assert Drain(ep)[1..] == Drain(next);
    }
  }

  /** Otherwise a split of the data is followed by an empty packet. */
  lemma {:induction false} DrainEndsEmpty(ep: Ep) returns (full: seq<seq<byte>>)
    requires ep.xfer.Sending? && 0 < ep.size && !ep.truncate
    requires ep.xfer.rest != [] && |ep.xfer.rest| % ep.size == 0
    ensures Drain(ep) == full + [[]] && IsSplit(full, |ep.xfer.rest|)
    decreases |ep.xfer.rest|
  {
    var rest, s := ep.xfer.rest, ep.size;
    if |rest| < s {
      DivUnique(|rest|, s, 0, |rest|);
    }
    DivStep(|rest|, s);
    var next := InPacket(ep).ep;
    assert Drain(ep) == [rest[..s]] + Drain(next);
    if |rest| == s {
      full := [rest];
      assert rest[..s] == rest && next.xfer.rest == [];
      assert Drain(next) == [[]];
    } else {
      var more := DrainEndsEmpty(next);
      full := [rest[..s]] + more;
      assert full[1..] == more;
      assert [rest[..s]] + (more + [[]]) == full + [[]];
    }
  }

  /** The empty packet then meets an endpoint that has already completed. */
  lemma {:induction false} EmptyPacketStalls(ep: Ep, packets: seq<seq<byte>>)
    requires ep.xfer.Receiving? && IsSplit(packets, ep.xfer.room)
    ensures Feed(ep, packets + [[]]) == Fed(Cancel(ep), [ep.xfer.got + Concat(packets)], true)
    decreases packets
  {
    var got := ep.xfer.got;
    var all := packets + [[]];
    assert all[1..] == packets[1..] + [[]];
    if |packets| == 1 {
      assert packets[1..] == [] && Concat(packets) == packets[0];
      assert all[1..][1..] == [];
      assert Feed(Cancel(ep), [[]]) == Fed(Cancel(ep), [], true);
    } else {
      var next := OutPacket(ep, packets[0]).ep;
      EmptyPacketStalls(next, packets[1..]);
      assert got + packets[0] + Concat(packets[1..]) == got + Concat(packets);
    }
  }

  lemma NothingToDrain(tx: Ep, rx: Ep)
    requires tx.xfer.Sending? && 0 < tx.size && !tx.truncate && tx.xfer.rest == []
    requires rx.xfer.Receiving? && rx.xfer.got == [] && rx.xfer.room == 0
    ensures Feed(rx, Drain(tx)) == Fed(Cancel(rx), [[]], false)
  {
    var packets := Drain(tx);
    assert packets[0] == [] && packets[1..] == [];
    assert OutPacket(rx, []) == Complete(Cancel(rx), [], rx.xfer.rxDone);
  }

  lemma DrainWithEmptyEnd(tx: Ep, rx: Ep)
    requires tx.xfer.Sending? && 0 < tx.size && !tx.truncate && tx.xfer.rest != [] && |tx.xfer.rest| % tx.size == 0
    requires rx.xfer.Receiving? && rx.xfer.got == [] && rx.xfer.room == |tx.xfer.rest|
    ensures Feed(rx, Drain(tx)) == Fed(Cancel(rx), [Concat(Drain(tx))], true)
  {
    var full := DrainEndsEmpty(tx);
    EmptyPacketStalls(rx, full);
    ConcatSnoc(full, []);
    assert Concat(full) + [] == Concat(full) && [] + Concat(full) == Concat(full);
  }

  lemma DrainWithShortEnd(tx: Ep, rx: Ep)
    requires tx.xfer.Sending? && 0 < tx.size && !tx.truncate && |tx.xfer.rest| % tx.size != 0
    requires rx.xfer.Receiving? && rx.xfer.got == [] && rx.xfer.room == |tx.xfer.rest|
    ensures Feed(rx, Drain(tx)) == Fed(Cancel(rx), [Concat(Drain(tx))], false)
  {
    DrainIsSplit(tx);
    Reassembly(rx, Drain(tx));
    assert [] + Concat(Drain(tx)) == Concat(Drain(tx));
  }

  /** What one endpoint sends another one receives, whatever its length; but a
      transfer that ends with an empty packet (a multiple of the packet size
      other than zero) stalls the receiver after completing. */
  lemma DrainThenReassemble(tx: Ep, rx: Ep)
    requires tx.xfer.Sending? && 0 < tx.size && !tx.truncate
    requires rx.xfer.Receiving? && rx.xfer.got == [] && rx.xfer.room == |tx.xfer.rest|
    ensures Feed(rx, Drain(tx)) ==
            Fed(Cancel(rx), [tx.xfer.rest], tx.xfer.rest != [] && |tx.xfer.rest| % tx.size == 0)
  {
    Packetisation(tx);
    if tx.xfer.rest == [] {
      NothingToDrain(tx, rx);
    } else if |tx.xfer.rest| % tx.size == 0 {
      DrainWithEmptyEnd(tx, rx);
    } else {
      DrainWithShortEnd(tx, rx);
    }
  }

  // ----- struct ep_descr over memory ----------------------------------------

  datatype EpState = EP_IDLE | EP_RX | EP_TX

  class EndpointDescr {
    var state: EpState
    const truncate: bool
    const size: nat
    var buf: array<byte>
    var pos: nat            // ep->buf, as an index into the memory `buf`
    var end: nat            // ep->end
    var callback: Callback
    ghost var start: nat    // where the transfer began

    constructor (truncate: bool, size: nat, memory: array<byte>)
      ensures Valid() && Abs() == Ep(Idle, truncate, size, false)
      ensures buf == memory && state == EP_IDLE
    {
      this.state := EP_IDLE;
      this.truncate := truncate;
      this.size := size;
      this.buf := memory;
      this.pos, this.end, this.start := 0, 0, 0;
      this.callback := NoCallback;
    }

    ghost predicate Valid()
      reads this
    {
      start <= pos <= end <= buf.Length
    }

    ghost function Abs(): Ep
      requires Valid()
      reads this, buf
    {
      Ep(match state
         case EP_IDLE => Idle
         case EP_RX => Receiving(buf[start..pos], end - pos, callback)
         case EP_TX => Sending(buf[pos..end], callback),
         truncate, size, false)
    }

    /** usb_io; its BUG_ON is the precondition. The length is passed as a
        uint8_t. */
    method Io(newState: EpState, memory: array<byte>, from: nat, length: nat, done: Callback)
      requires Valid() && state == EP_IDLE && newState != EP_IDLE
      requires from + length % 0x100 <= memory.Length
      modifies this
      ensures Valid() && state == newState && buf == memory && start == pos == from && end == from + length % 0x100
      ensures callback == done
      ensures newState == EP_RX ==> Abs() == Recv(Ep(Idle, truncate, size, false), length % 0x100, done)
      ensures newState == EP_TX ==>
                Abs() == Send(Ep(Idle, truncate, size, false), memory[from..from + length % 0x100], done)
    {
      state := newState;
      buf := memory;
      pos, end, start := from, from + length % 0x100, from;
      callback := done;
      assert buf[start..pos] == [];
    }

    /** The RXOUTI branch of handle_ep with ep_rx: reads the packet out of the
        FIFO byte by byte. `ok` is false on the stall path, `done` says that
        the callback is to run. Only the memory of the transfer is written. */
    method Out(fifo: seq<byte>) returns (ok: bool, done: bool)
      requires Valid()
      modifies this, buf
      ensures Valid() && buf == old(buf) && start == old(start) && end == old(end) && callback == old(callback)
      ensures var r := OutPacket(old(Abs()), fifo);
              && ok == !r.Stall? && done == r.Complete? && Abs() == r.ep
              && (done ==> pos == end && r.data == buf[start..end] && r.callback == callback)
      ensures forall k | 0 <= k < buf.Length && (!ok || !(old(pos) <= k < old(pos) + |fifo|)) :: buf[k] == old(buf[k])
      ensures ok ==> pos == old(pos) + |fifo| && buf[old(pos)..pos] == fifo
    {
      if state != EP_RX || |fifo| > end - pos {
        state := EP_IDLE;
        return false, false;
      }
      ghost var got := buf[start..pos];
      var i := 0;
      while i < |fifo|
        invariant 0 <= i <= |fifo| && pos == old(pos) + i && start == old(start) && end == old(end)
        invariant state == EP_RX && buf == old(buf) && callback == old(callback)
        invariant forall k | 0 <= k < buf.Length && !(old(pos) <= k < pos) :: buf[k] == old(buf[k])
        invariant buf[old(pos)..pos] == fifo[..i]
      {
        buf[pos] := fifo[i];
        pos := pos + 1;
        i := i + 1;
      }
      assert fifo[..i] == fifo;
      assert buf[start..old(pos)] == got;
      SliceInTwo(buf[..], start, old(pos), pos);
      assert buf[..][start..pos] == buf[start..pos] && buf[..][start..old(pos)] == got && buf[..][old(pos)..pos] == fifo;
      ok, done := true, pos == end;
      if done {
        state := EP_IDLE;
      }
    }

    /** The TXINI branch of handle_ep with ep_tx: loads one packet into the
        FIFO. `sent` is false when there was nothing to send, `done` says that
        the callback is to run. */
    method In() returns (sent: bool, fifo: seq<byte>, done: bool)
      requires Valid()
      modifies this
      ensures Valid() && buf == old(buf) && start == old(start) && end == old(end) && callback == old(callback)
      ensures var r := InPacket(old(Abs()));
              && sent == !r.Masked? && done == r.Last? && Abs() == r.ep
              && (sent ==> fifo == r.packet)
    {
      if state != EP_TX {
        return false, [], false;
      }
      var n := Min(end - pos, size);
      ghost var rest := buf[pos..end];
      fifo := [];
      var left := n;
      while left > 0
        invariant 0 <= left <= n && pos == old(pos) + (n - left) && pos <= end
        invariant start == old(start) && end == old(end) && buf == old(buf) && state == EP_TX && callback == old(callback)
        invariant fifo == buf[old(pos)..pos]
      {
        fifo := fifo + [buf[pos]];
        pos := pos + 1;
        left := left - 1;
      }
      assert rest[..n] == fifo && rest[n..] == buf[pos..end];
      sent, done := true, truncate || n != size;
      if done {
        state := EP_IDLE;
      }
    }
  }
}
