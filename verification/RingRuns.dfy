/** Whole lives of the transmit ring: EP1 interrupts, the two critical sections
    of buffer_tx_process and buffer_reset in any order. */
module RingRuns {
  import opened Wire
  import opened Endpoint
  import opened BufferSpec
  import M = BufferMemory

  datatype Event =
    | Ep1(packet: seq<byte>)
    | Prepare
    | Send(txbufEmpty: bool)
    | Reset

  /** `at` are the indices of the ring as the code moves them. History:
      `arrived` are all frames that have come in, `since` says how many of
      them before the last reset; `sent` are the numbers of those given to
      mcp2515_tx, in that order, `loaded` the frames themselves, and `popped`
      those since the last reset. */
  datatype Ring = Ring(
    buffer: Buffer,
    at: M.Indices,
    arrived: seq<Packet>,
    since: nat,
    sent: seq<nat>,
    loaded: seq<Packet>,
    popped: seq<Packet>)

  predicate Init(s: Ring) {
    s == Ring(INITIAL_BUFFER, M.Indices(0, 0, 0), [], 0, [], [], [])
  }

  /** The number of the oldest frame in the ring. */
  function Oldest(s: Ring): int {
    |s.arrived| - |s.buffer.queue|
  }

  function Step(s: Ring, e: Event): Ring {
    match e
    case Ep1(packet) =>
      var (buffer, _) := Ep1Interrupt(s.buffer, packet);
      if |buffer.queue| == |s.buffer.queue| then s.(buffer := buffer)
      else s.(buffer := buffer, at := M.Push(s.at), arrived := s.arrived + buffer.queue[|buffer.queue| - 1..])
    case Prepare => s.(buffer := TxPrepare(s.buffer))
    case Send(txbufEmpty) =>
      if CanSend(s.buffer, txbufEmpty) && 0 <= Oldest(s) then
        s.(buffer := TxSend(s.buffer), at := M.Pop(s.at), sent := s.sent + [Oldest(s)],
           loaded := s.loaded + [s.buffer.queue[0]],
           popped := s.popped + [s.buffer.queue[0]])
      else s
    case Reset =>
      s.(buffer := BufferSpec.Reset(s.buffer), at := M.Rewind(s.at), since := |s.arrived|, popped := [])
  }

  function Exec(s: Ring, run: seq<Event>): Ring
    decreases |run|
  {
    if run == [] then s else Exec(Step(s, run[0]), run[1..])
  }

  /** Numbers below `oldest` have been sent, in growing order, each standing
      for its frame. */
  ghost predicate SentInOrder(sent: seq<nat>, loaded: seq<Packet>, arrived: seq<Packet>, oldest: int) {
    |loaded| == |sent| && oldest <= |arrived| &&
    (forall i | 0 <= i < |sent| :: sent[i] < oldest && loaded[i] == arrived[sent[i]]) &&
    (forall i, j | 0 <= i < j < |sent| :: sent[i] < sent[j])
  }

  /** In a segment between two resets: what has arrived is what has been sent,
      then what waits, in order. */
  predicate Segment(s: Ring) {
    s.since <= |s.arrived| && |s.buffer.queue| <= |s.arrived| && s.arrived[s.since..] == s.popped + s.buffer.queue
  }

  /** EP1 is idle, or receives a frame for which there is room. */
  predicate Ep1Fits(b: Buffer) {
    !b.ep1.bug && (b.ep1.xfer.Idle? || Short(b))
  }

  /** The indices follow the number of arrivals and that of the oldest frame. */
  predicate Follows(at: M.Indices, arrived: nat, oldest: int) {
    at == M.Indices(arrived % TX_SLOTS, oldest % TX_SLOTS, arrived - oldest)
  }

  lemma FollowsOn(at: M.Indices, arrived: nat, oldest: nat)
    requires Follows(at, arrived, oldest)
    ensures Follows(M.Push(at), arrived + 1, oldest)
    ensures Follows(M.Pop(at), arrived, oldest + 1)
    ensures Follows(M.Rewind(at), arrived, arrived)
  {
  }

  ghost predicate RingInv(s: Ring) {
    |s.buffer.queue| <= TX_SLOTS && Segment(s) && SentInOrder(s.sent, s.loaded, s.arrived, Oldest(s)) &&
    Follows(s.at, |s.arrived|, Oldest(s)) && Ep1Fits(s.buffer)
  }

  /** Part of a frame has arrived; the rest may follow. */
  predicate Short(b: Buffer) {
    b.ep1.xfer.Receiving? && b.ep1.xfer.rxDone == BufferTxDone && 0 < b.ep1.xfer.room &&
    |b.ep1.xfer.got| + b.ep1.xfer.room == FRAME_SIZE && |b.queue| < TX_SLOTS
  }

  lemma PushQueue(b: Buffer, packet: seq<byte>)
    requires Ep1Fits(b) && |b.queue| <= TX_SLOTS
    ensures var b' := Ep1Interrupt(b, packet).0;
            && (b'.queue == b.queue || (|b'.queue| == |b.queue| + 1 <= TX_SLOTS && b.queue <= b'.queue))
            && Ep1Fits(b')
  {
  }

  /** A frame joins the ring, and the numbers. */
  lemma Joined(arrived: seq<Packet>, since: nat, popped: seq<Packet>, q: seq<Packet>, q': seq<Packet>)
    requires since <= |arrived| && arrived[since..] == popped + q && q <= q' && |q'| == |q| + 1
    ensures (arrived + q'[|q'| - 1..])[since..] == popped + q'
  {
    assert q' == q + q'[|q|..];
  }

  lemma SentStays(sent: seq<nat>, loaded: seq<Packet>, arrived: seq<Packet>, more: seq<Packet>, oldest: int)
    requires SentInOrder(sent, loaded, arrived, oldest)
    ensures SentInOrder(sent, loaded, arrived + more, oldest)
  {
  }

  lemma Ep1Keeps(s: Ring, packet: seq<byte>)
    requires RingInv(s)
    ensures RingInv(Step(s, Ep1(packet)))
  {
    var b := Ep1Interrupt(s.buffer, packet).0;
    PushQueue(s.buffer, packet);
    if |b.queue| != |s.buffer.queue| {
      Arrives(s, b);
    }
  }

  lemma Arrives(s: Ring, b: Buffer)
    requires RingInv(s) && Ep1Fits(b) && |b.queue| == |s.buffer.queue| + 1 <= TX_SLOTS && s.buffer.queue <= b.queue
    ensures RingInv(s.(buffer := b, at := M.Push(s.at), arrived := s.arrived + b.queue[|b.queue| - 1..]))
  {
    FollowsOn(s.at, |s.arrived|, Oldest(s));
    Joined(s.arrived, s.since, s.popped, s.buffer.queue, b.queue);
    SentStays(s.sent, s.loaded, s.arrived, b.queue[|b.queue| - 1..], Oldest(s));
  }

  lemma SentGrows(sent: seq<nat>, loaded: seq<Packet>, arrived: seq<Packet>, oldest: nat, frame: Packet)
    requires SentInOrder(sent, loaded, arrived, oldest) && oldest < |arrived| && arrived[oldest] == frame
    ensures SentInOrder(sent + [oldest], loaded + [frame], arrived, oldest + 1)
  {
  }

  /** The oldest waiting frame goes from the ring to those sent. */
  lemma Sent(arrived: seq<Packet>, since: nat, popped: seq<Packet>, q: seq<Packet>)
    requires since <= |arrived| && arrived[since..] == popped + q && q != []
    ensures arrived[since..] == popped + [q[0]] + q[1..]
    ensures |arrived| - |q| == since + |popped| && arrived[|arrived| - |q|] == q[0]
  {
    assert arrived[since..][|popped|] == q[0];
  }

  lemma SendKeeps(s: Ring, ready: bool)
    requires RingInv(s)
    ensures RingInv(Step(s, Send(ready)))
  {
    if CanSend(s.buffer, ready) {
      Sent(s.arrived, s.since, s.popped, s.buffer.queue);
      SentGrows(s.sent, s.loaded, s.arrived, Oldest(s), s.buffer.queue[0]);
      FollowsOn(s.at, |s.arrived|, Oldest(s));
    }
  }

  lemma StepKeeps(s: Ring, e: Event)
    requires RingInv(s)
    ensures RingInv(Step(s, e))
  {
    match e
    case Ep1(packet) => Ep1Keeps(s, packet);
    case Send(ready) => SendKeeps(s, ready);
    case Prepare =>
    case Reset =>
      assert s.arrived[|s.arrived|..] == [];
      FollowsOn(s.at, |s.arrived|, Oldest(s));
  }

  lemma {:induction false} RunKeeps(s: Ring, run: seq<Event>)
    requires RingInv(s)
    ensures RingInv(Exec(s, run))
    decreases |run|
  {
    if run != [] {
      StepKeeps(s, run[0]);
      RunKeeps(Step(s, run[0]), run[1..]);
    }
  }

  /** The slots frames lie in: the one numbered i in slot i mod 32. */
  predicate InUse(s: Ring, slot: nat) {
    exists i | Oldest(s) <= i < |s.arrived| :: i % TX_SLOTS == slot
  }

  /** A receive that is armed, or half done, targets slot w, in which no waiting
      frame lies. */
  predicate TargetIsFree(t: Ring) {
    t.at.w == (t.at.r + t.at.count) % TX_SLOTS && t.at.count == |t.buffer.queue| <= TX_SLOTS &&
    (t.buffer.ep1.xfer.Receiving? ==> !InUse(t, t.at.w))
  }

  /** In every life of the ring: between resets it is a bounded FIFO, over resets
      order is kept, nothing is sent twice and nothing else is sent, and
      arriving frames never touch waiting ones. */
  lemma RingIsFifo(s: Ring, run: seq<Event>)
    requires Init(s)
    ensures var t := Exec(s, run);
            Segment(t) && SentInOrder(t.sent, t.loaded, t.arrived, Oldest(t)) && TargetIsFree(t)
  {
    InitInv(s);
    RunKeeps(s, run);
    ArmedSlot(Exec(s, run));
  }

  lemma InitInv(s: Ring)
    requires Init(s)
    ensures RingInv(s)
  {
    assert Follows(M.Indices(0, 0, 0), 0, 0);
  }

  lemma ArmedSlot(t: Ring)
    requires RingInv(t)
    ensures TargetIsFree(t)
  {
    forall i | Oldest(t) <= i < |t.arrived| && |t.buffer.queue| < TX_SLOTS
      ensures i % TX_SLOTS != |t.arrived| % TX_SLOTS
    {
      SlotsDiffer(i, |t.arrived|);
    }
    SlotSum(Oldest(t), |t.buffer.queue|);
  }

  lemma SlotsDiffer(i: nat, n: nat)
    requires 0 < n - i < TX_SLOTS
    ensures i % TX_SLOTS != n % TX_SLOTS
  {
  }

  lemma SlotSum(oldest: nat, count: nat)
    ensures (oldest % TX_SLOTS + count) % TX_SLOTS == (oldest + count) % TX_SLOTS
  {
  }
}
