/** Whole downloads and uploads, as a host carries them out. */
module DfuSessions {
  import opened Wire
  import opened Endpoint
  import opened FlashSpec
  import opened FlashImage
  import opened UsbRequests
  import opened DfuSpec
  import opened DfuInvariant

  /** Events between two requests: anything but SETUP and bus reset. */
  predicate Between(run: seq<Event>) {
    forall e | e in run :: !e.Setup? && !e.BusReset?
  }

  /** After an abandoned data stage no further packet of it arrives. */
  predicate Gap(run: seq<Event>) {
    forall e | e in run :: e.Stalled? || e.In?
  }

  /** What a host may do in the middle of a download: send the next block, in
      any number of packets; begin with the next block and abandon its data
      stage after some packets; send the previous block number again; or ask
      for anything that does not change the machine. `rest` and `gap` are
      whatever else happens until the next request. */
  datatype Act =
    | Block(packets: seq<seq<byte>>, rest: seq<Event>)
    | Abandon(data: seq<byte>, packets: seq<seq<byte>>, gap: seq<Event>)
    | Again(length: u16, rest: seq<Event>)
    | Ask(request: SetupRequest, rest: seq<Event>)

  predicate Harmless(d: Descriptors, r: SetupRequest)
    requires ValidDescriptors(d)
  {
    !Standard(d, r).Application? || Classify(r) !in {DNLOAD, UPLOAD, ABORT, CLRSTATUS}
  }

  predicate ValidAct(d: Descriptors, a: Act)
    requires ValidDescriptors(d)
  {
    match a
    case Block(packets, rest) =>
      1 <= |Concat(packets)| <= EP0_SIZE && IsSplit(packets, |Concat(packets)|) && Between(rest)
    case Abandon(data, packets, gap) => |data| <= EP0_SIZE && Concat(packets) < data && Gap(gap)
    case Again(_, rest) => Between(rest)
    case Ask(r, rest) => Harmless(d, r) && Between(rest)
  }

  function Packets(packets: seq<seq<byte>>): seq<Event> {
    seq(|packets|, i requires 0 <= i < |packets| => Out(packets[i]))
  }

  function DnloadRequest(block: u16, length: u16): SetupRequest {
    SetupRequest(DFU_OUT, 1, block, 0, length)
  }

  function Length(data: seq<byte>): u16 {
    if |data| < 0x1_0000 then |data| else 0
  }

  /** The events of an act, when the loader expects block `next`. */
  function EventsOf(a: Act, next: u16): seq<Event> {
    match a
    case Block(packets, rest) => [Setup(DnloadRequest(next, Length(Concat(packets))))] + Packets(packets) + rest
    case Abandon(data, packets, gap) => [Setup(DnloadRequest(next, Length(data)))] + Packets(packets) + gap
    case Again(length, rest) => [Setup(DnloadRequest(Before(next), length))] + rest
    case Ask(r, rest) => [Setup(r)] + rest
  }

  function NextOf(a: Act, next: u16): u16 {
    if a.Block? || a.Abandon? then After(next) else next
  }

  function SessionEvents(acts: seq<Act>, next: u16): seq<Event> {
    if acts == [] then [] else EventsOf(acts[0], next) + SessionEvents(acts[1..], NextOf(acts[0], next))
  }

  /** The bytes of an act that reach flash, and those meant to. */
  function StreamOf(a: Act): seq<byte> {
    if a.Block? then Concat(a.packets) else []
  }

  function IntendedOf(a: Act): seq<byte> {
    if a.Abandon? then a.data else StreamOf(a)
  }

  /** The stream of the completed blocks of a session, and of all blocks. */
  function Stream(acts: seq<Act>): seq<byte> {
    if acts == [] then [] else StreamOf(acts[0]) + Stream(acts[1..])
  }

  function Intended(acts: seq<Act>): seq<byte> {
    if acts == [] then [] else IntendedOf(acts[0]) + Intended(acts[1..])
  }

  function BlocksAfter(acts: seq<Act>, next: u16): u16 {
    if acts == [] then next else BlocksAfter(acts[1..], NextOf(acts[0], next))
  }

  // ----- single acts ---------------------------------------------------------------------

  /** Everything but the state of EP0, which is not receiving. */
  ghost predicate Same(l: Loader, m: Loader) {
    m == l.(ep0 := m.ep0) && !m.ep0.xfer.Receiving?
  }

  lemma {:induction false} BetweenIsQuiet(l: Loader, run: seq<Event>)
    requires Between(run) && !l.ep0.xfer.Receiving?
    ensures Same(l, Exec(l, run))
    decreases |run|
  {
    if run != [] && Ready(l) {
      assert run[0] in run;
      assert forall e | e in run[1..] :: e in run;
      BetweenIsQuiet(Step(l, run[0]), run[1..]);
    }
  }

  /** A data stage: the packets reach flash in one piece, whatever the split. */
  lemma {:induction false} DataStage(l: Loader, packets: seq<seq<byte>>)
    requires Ready(l) && !l.restarting && l.state == dfuDNLOAD_IDLE
    requires l.ep0.xfer.Receiving? && l.ep0.xfer.rxDone == BlockWrite && IsSplit(packets, l.ep0.xfer.room)
    ensures var m := Exec(l, Packets(packets));
            Same(l.(writer := WriteAll(l.writer, l.ep0.xfer.got + Concat(packets))), m)
    decreases |packets|
  {
    var evs := Packets(packets);
    assert evs[1..] == Packets(packets[1..]);
    var next := Step(l, evs[0]);
    if |packets| == 1 {
      assert Concat(packets) == packets[0];
      assert Exec(l, evs) == Exec(next, []);
    } else {
      DataStage(next, packets[1..]);
      assert l.ep0.xfer.got + packets[0] + Concat(packets[1..]) == l.ep0.xfer.got + Concat(packets);
    }
  }

  lemma DataAndRest(c0: Chip, l: Loader, packets: seq<seq<byte>>, rest: seq<Event>)
    requires LoaderInv(c0, l) && !l.restarting && l.state == dfuDNLOAD_IDLE && Between(rest)
    requires l.ep0.xfer == Receiving([], |Concat(packets)|, BlockWrite) && IsSplit(packets, |Concat(packets)|)
    ensures var m := Exec(l, Packets(packets) + rest);
            Same(l.(writer := WriteAll(l.writer, Concat(packets))), m) && LoaderInv(c0, m)
  {
    DataStage(l, packets);
    assert [] + Concat(packets) == Concat(packets);
    ExecAppend(c0, l, Packets(packets), rest);
    BetweenIsQuiet(Exec(l, Packets(packets)), rest);
    Runs(c0, l, Packets(packets) + rest);
  }

  /** A complete block is written; the machine expects the next number. */
  lemma BlockAct(c0: Chip, l: Loader, a: Act)
    requires LoaderInv(c0, l) && !l.restarting && l.state in {dfuIDLE, dfuDNLOAD_IDLE}
    requires ValidAct(l.desc, a) && a.Block?
    requires var at := if l.state == dfuIDLE then 0 else l.writer.payload; at + |Concat(a.packets)| <= BOOT_ADDR
    ensures var m, w := Exec(l, EventsOf(a, l.nextBlock)), if l.state == dfuIDLE then Start(l.writer) else l.writer;
            && Same(l.(writer := WriteAll(w, Concat(a.packets)), state := dfuDNLOAD_IDLE, nextBlock := After(l.nextBlock)), m)
            && LoaderInv(c0, m)
  {
    var n := |Concat(a.packets)|;
    var e := Setup(DnloadRequest(l.nextBlock, n));
    var evs := EventsOf(a, l.nextBlock);
    assert evs == [e] + (Packets(a.packets) + a.rest);
    assert evs[1..] == Packets(a.packets) + a.rest;
    StepKeeps(c0, l, e);
    BlockRequest(l, n);
    DataAndRest(c0, Step(l, e), a.packets, a.rest);
    ExecHead(c0, l, evs);
  }

  lemma ExecHead(c0: Chip, l: Loader, run: seq<Event>)
    requires LoaderInv(c0, l) && run != []
    ensures Exec(l, run) == Exec(Step(l, run[0]), run[1..])
  {
  }

  lemma BlockRequest(l: Loader, length: u16)
    requires Ready(l) && !l.restarting && l.state in {dfuIDLE, dfuDNLOAD_IDLE} && 1 <= length <= EP0_SIZE
    requires var at := if l.state == dfuIDLE then 0 else l.writer.payload; at + length <= BOOT_ADDR
    ensures Step(l, Setup(DnloadRequest(l.nextBlock, length))) ==
            l.(writer := if l.state == dfuIDLE then Start(l.writer) else l.writer, state := dfuDNLOAD_IDLE,
               nextBlock := After(l.nextBlock), ep0 := Cancel(l.ep0).(xfer := Receiving([], length, BlockWrite)))
  {
  }

  /** Repeating the previous block number changes nothing, data stage or not. */
  lemma AgainAct(c0: Chip, l: Loader, a: Act)
    requires LoaderInv(c0, l) && !l.restarting && l.state == dfuDNLOAD_IDLE && ValidAct(l.desc, a) && a.Again?
    ensures var m := Exec(l, EventsOf(a, l.nextBlock)); Same(l, m) && LoaderInv(c0, m)
  {
    var e := Setup(DnloadRequest(Before(l.nextBlock), a.length));
    QuietRequest(c0, l, e, a.rest);
  }

  lemma AskAct(c0: Chip, l: Loader, a: Act)
    requires LoaderInv(c0, l) && !l.restarting && ValidAct(l.desc, a) && a.Ask?
    ensures var m := Exec(l, EventsOf(a, l.nextBlock)); Same(l, m) && LoaderInv(c0, m)
  {
    QuietRequest(c0, l, Setup(a.request), a.rest);
  }

  lemma QuietRequest(c0: Chip, l: Loader, e: Event, rest: seq<Event>)
    requires LoaderInv(c0, l) && Same(l, Step(l, e)) && Between(rest)
    ensures var m := Exec(l, [e] + rest); Same(l, m) && LoaderInv(c0, m)
  {
    var evs := [e] + rest;
    assert evs[1..] == rest;
    StepKeeps(c0, l, e);
    BetweenIsQuiet(Step(l, e), rest);
    Runs(c0, l, evs);
  }

  /** Everything but the state of EP0. */
  ghost predicate Alike(l: Loader, m: Loader) {
    m == l.(ep0 := m.ep0)
  }

  lemma {:induction false} GapIsQuiet(l: Loader, gap: seq<Event>)
    requires Gap(gap)
    ensures Alike(l, Exec(l, gap))
    decreases |gap|
  {
    if gap != [] && Ready(l) {
      assert gap[0] in gap;
      assert forall e | e in gap[1..] :: e in gap;
      GapIsQuiet(Step(l, gap[0]), gap[1..]);
    }
  }

  /** Packets that do not complete a data stage reach no further than EP0. */
  lemma {:induction false} PartOfStage(l: Loader, packets: seq<seq<byte>>)
    requires Ready(l) && l.ep0.xfer.Receiving? && |Concat(packets)| < l.ep0.xfer.room
    ensures Alike(l, Exec(l, Packets(packets)))
    decreases |packets|
  {
    if packets != [] {
      var evs := Packets(packets);
      assert evs[1..] == Packets(packets[1..]);
      if !l.restarting {
        PartOfStage(Step(l, evs[0]), packets[1..]);
      } else {
        PartOfStage(l, packets[1..]);
      }
    }
  }

  /** An abandoned block moves the block counter on, like a complete one, and
      writes nothing. */
  lemma AbandonAct(c0: Chip, l: Loader, a: Act)
    requires LoaderInv(c0, l) && !l.restarting && l.state in {dfuIDLE, dfuDNLOAD_IDLE}
    requires ValidAct(l.desc, a) && a.Abandon?
    requires var at := if l.state == dfuIDLE then 0 else l.writer.payload; at + |a.data| <= BOOT_ADDR
    ensures var m, w := Exec(l, EventsOf(a, l.nextBlock)), if l.state == dfuIDLE then Start(l.writer) else l.writer;
            && Alike(l.(writer := w, state := dfuDNLOAD_IDLE, nextBlock := After(l.nextBlock)), m)
            && LoaderInv(c0, m)
  {
    var e := Setup(DnloadRequest(l.nextBlock, |a.data|));
    var evs := EventsOf(a, l.nextBlock);
    assert evs == [e] + (Packets(a.packets) + a.gap);
    assert evs[1..] == Packets(a.packets) + a.gap;
    BlockRequest(l, |a.data|);
    StepKeeps(c0, l, e);
    PartAndGap(c0, Step(l, e), a.packets, a.gap);
    ExecHead(c0, l, evs);
  }

  lemma PartAndGap(c0: Chip, l: Loader, packets: seq<seq<byte>>, gap: seq<Event>)
    requires LoaderInv(c0, l) && l.ep0.xfer.Receiving? && |Concat(packets)| < l.ep0.xfer.room && Gap(gap)
    ensures var m := Exec(l, Packets(packets) + gap); Alike(l, m) && LoaderInv(c0, m)
  {
    PartOfStage(l, packets);
    GapIsQuiet(Exec(l, Packets(packets)), gap);
    ExecAppend(c0, l, Packets(packets), gap);
    Runs(c0, l, Packets(packets) + gap);
  }

  // ----- sessions --------------------------------------------------------------------------

  lemma AnyAct(c0: Chip, l: Loader, a: Act)
    requires LoaderInv(c0, l) && !l.restarting && l.state == dfuDNLOAD_IDLE
    requires ValidAct(l.desc, a) && l.writer.payload + |IntendedOf(a)| <= BOOT_ADDR
    ensures var m := Exec(l, EventsOf(a, l.nextBlock));
            && Alike(l.(writer := WriteAll(l.writer, StreamOf(a)), nextBlock := NextOf(a, l.nextBlock)), m)
            && LoaderInv(c0, m)
  {
    match a
    case Block(_, _) => BlockAct(c0, l, a);
    case Abandon(_, _, _) => AbandonAct(c0, l, a);
    case Again(_, _) => AgainAct(c0, l, a);
    case Ask(_, _) => AskAct(c0, l, a);
  }

  lemma {:induction false} StreamIsShorter(acts: seq<Act>)
    ensures |Stream(acts)| <= |Intended(acts)|
    ensures |Stream(acts)| == |Intended(acts)| <==> forall a | a in acts :: a.Abandon? ==> a.data == []
  {
    if acts != [] {
      StreamIsShorter(acts[1..]);
      assert forall a :: a in acts <==> a == acts[0] || a in acts[1..];
    }
  }

  /** After a download has started, a session amounts to writing its stream. */
  lemma {:induction false} Session(c0: Chip, l: Loader, acts: seq<Act>)
    requires LoaderInv(c0, l) && !l.restarting && l.state == dfuDNLOAD_IDLE
    requires forall a | a in acts :: ValidAct(l.desc, a)
    requires l.writer.payload + |Intended(acts)| <= BOOT_ADDR
    ensures var m := Exec(l, SessionEvents(acts, l.nextBlock));
            && Alike(l.(writer := WriteAll(l.writer, Stream(acts)), nextBlock := BlocksAfter(acts, l.nextBlock)), m)
            && LoaderInv(c0, m)
    decreases |acts|
  {
    if acts != [] {
      SessionHead(c0, l, acts);
      Session(c0, Exec(l, EventsOf(acts[0], l.nextBlock)), acts[1..]);
    }
  }

  lemma SessionHead(c0: Chip, l: Loader, acts: seq<Act>)
    requires LoaderInv(c0, l) && !l.restarting && l.state == dfuDNLOAD_IDLE
    requires acts != [] && ValidAct(l.desc, acts[0]) && l.writer.payload + |Intended(acts)| <= BOOT_ADDR
    ensures var m := Exec(l, EventsOf(acts[0], l.nextBlock));
            && Alike(l.(writer := WriteAll(l.writer, StreamOf(acts[0])), nextBlock := NextOf(acts[0], l.nextBlock)), m)
            && LoaderInv(c0, m)
            && Exec(l, SessionEvents(acts, l.nextBlock)) == Exec(m, SessionEvents(acts[1..], m.nextBlock))
            && WriteAll(l.writer, Stream(acts)) == WriteAll(m.writer, Stream(acts[1..]))
            && m.writer.payload + |Intended(acts[1..])| <= BOOT_ADDR
  {
    var evs := EventsOf(acts[0], l.nextBlock);
    assert |StreamOf(acts[0])| <= |IntendedOf(acts[0])|;
    AnyAct(c0, l, acts[0]);
    WriteAllAppend(l.writer, StreamOf(acts[0]), Stream(acts[1..]));
    ExecAppend(c0, l, evs, SessionEvents(acts[1..], NextOf(acts[0], l.nextBlock)));
  }

  /** A whole download: a first block with any block number, more acts, and the
      empty DFU_DNLOAD that ends it. */
  function DownloadEvents(first: u16, acts: seq<Act>, rest: seq<Event>): seq<Event> {
    SessionEvents(acts, first) + ([Setup(DnloadRequest(BlocksAfter(acts, first), 0))] + rest)
  }

  predicate ValidDownload(d: Descriptors, acts: seq<Act>, rest: seq<Event>)
    requires ValidDescriptors(d)
  {
    acts != [] && (acts[0].Block? || acts[0].Abandon?) && (forall a | a in acts :: ValidAct(d, a)) && Between(rest) &&
    |Intended(acts)| <= BOOT_ADDR
  }

  lemma FirstBlockNumber(l: Loader, r: SetupRequest)
    requires Ready(l) && l.state == dfuIDLE && Classify(r) == DNLOAD
    ensures Step(l, Setup(r)) == Step(l.(nextBlock := r.wValue), Setup(r)) || l.restarting
  {
  }

  /** The first block, complete or not, also sets the block counter and rewinds
      the stream. */
  lemma FirstAct(c0: Chip, l: Loader, first: u16, a: Act)
    requires LoaderInv(c0, l) && !l.restarting && l.state == dfuIDLE
    requires ValidAct(l.desc, a) && (a.Block? || a.Abandon?)
    ensures var m := Exec(l, EventsOf(a, first));
            && Alike(l.(writer := WriteAll(Start(l.writer), StreamOf(a)), state := dfuDNLOAD_IDLE, nextBlock := After(first)), m)
            && LoaderInv(c0, m)
  {
    var l0 := l.(nextBlock := first);
    if a.Block? {
      BlockAct(c0, l0, a);
    } else {
      AbandonAct(c0, l0, a);
    }
    var evs := EventsOf(a, first);
    FirstBlockNumber(l, evs[0].request);
    assert Step(l, evs[0]) == Step(l0, evs[0]);
    assert Exec(l, evs) == Exec(Step(l, evs[0]), evs[1..]) == Exec(l0, evs);
  }

  lemma LastRequest(c0: Chip, l: Loader, rest: seq<Event>)
    requires LoaderInv(c0, l) && !l.restarting && l.state == dfuDNLOAD_IDLE && Between(rest)
    ensures var m := Exec(l, [Setup(DnloadRequest(l.nextBlock, 0))] + rest);
            Same(l.(writer := EndWrite(l.writer), state := dfuIDLE, didDownload := true), m) && LoaderInv(c0, m)
  {
    var e := Setup(DnloadRequest(l.nextBlock, 0));
    var evs := [e] + rest;
    assert evs[1..] == rest;
    StepKeeps(c0, l, e);
    LastStep(l);
    BetweenIsQuiet(Step(l, e), rest);
    Runs(c0, l, evs);
    ExecHead(c0, l, evs);
  }

  lemma LastStep(l: Loader)
    requires Ready(l) && !l.restarting && l.state == dfuDNLOAD_IDLE
    ensures Step(l, Setup(DnloadRequest(l.nextBlock, 0))) ==
            l.(writer := EndWrite(l.writer), state := dfuIDLE, didDownload := true,
               ep0 := Cancel(l.ep0).(xfer := Sending([], NoCallback)))
  {
  }

  /** All acts of a download, before the request that ends it. */
  lemma ActsRun(c0: Chip, l: Loader, first: u16, acts: seq<Act>)
    requires LoaderInv(c0, l) && !l.restarting && l.state == dfuIDLE && ValidDownload(l.desc, acts, [])
    ensures var m := Exec(l, SessionEvents(acts, first));
            && Alike(l.(writer := WriteAll(Start(l.writer), Stream(acts)), state := dfuDNLOAD_IDLE,
                        nextBlock := BlocksAfter(acts, first)), m)
            && LoaderInv(c0, m)
  {
    var evs := EventsOf(acts[0], first);
    var more := SessionEvents(acts[1..], After(first));
    FirstAct(c0, l, first, acts[0]);
    var m1 := Exec(l, evs);
    assert |StreamOf(acts[0])| <= |IntendedOf(acts[0])|;
    Session(c0, m1, acts[1..]);
    WriteAllAppend(Start(l.writer), StreamOf(acts[0]), Stream(acts[1..]));
    ExecAppend(c0, l, evs, more);
  }

  lemma DownloadRun(c0: Chip, l: Loader, first: u16, acts: seq<Act>, rest: seq<Event>)
    requires LoaderInv(c0, l) && !l.restarting && l.state == dfuIDLE && ValidDownload(l.desc, acts, rest)
    ensures var m := Exec(l, DownloadEvents(first, acts, rest));
            && Same(l.(writer := EndWrite(WriteAll(Start(l.writer), Stream(acts))), state := dfuIDLE, didDownload := true,
                       nextBlock := BlocksAfter(acts, first)), m)
            && LoaderInv(c0, m)
  {
    ActsRun(c0, l, first, acts);
    LastRequest(c0, Exec(l, SessionEvents(acts, first)), rest);
    ExecAppend(c0, l, SessionEvents(acts, first), [Setup(DnloadRequest(BlocksAfter(acts, first), 0))] + rest);
  }

  // ----- theorems ----------------------------------------------------------------------------

  /** Section 6.1.1 of USB DFU 1.1: any split of a stream into blocks, with any
      repetitions, abandoned blocks and questions in between, leaves exactly
      the completed blocks at the start of flash (but for a final odd byte),
      erases the rest of their last page and touches no other. */
  lemma DownloadImage(c0: Chip, l: Loader, first: u16, acts: seq<Act>, rest: seq<Event>)
    requires LoaderInv(c0, l) && !l.restarting && l.state == dfuIDLE && ValidDownload(l.desc, acts, rest)
    requires l.writer.chip.buffer == map[]
    ensures var m := Exec(l, DownloadEvents(first, acts, rest));
            && m.state == dfuIDLE && m.didDownload && Holds(l.writer.chip, m.writer, Stream(acts)) && LoaderInv(c0, m)
  {
    DownloadRun(c0, l, first, acts, rest);
    StreamIsShorter(acts);
    CleanImage(l.writer, Stream(acts));
  }

  /** The block counter moves on at SETUP time. So the same block sent again
      after its data stage was abandoned passes for a repetition: in every
      session the download ends in dfuIDLE with its status untouched, and it
      ends where the host means it to if and only if no data stage was
      abandoned. */
  lemma AbandonedBlocksAreLost(c0: Chip, l: Loader, first: u16, acts: seq<Act>, rest: seq<Event>)
    requires LoaderInv(c0, l) && !l.restarting && l.state == dfuIDLE && ValidDownload(l.desc, acts, rest)
    ensures var m := Exec(l, DownloadEvents(first, acts, rest));
            && m.state == dfuIDLE && m.status == l.status
            && m.writer.payload == |Stream(acts)| <= |Intended(acts)|
            && (m.writer.payload == |Intended(acts)| <==> forall a | a in acts :: !a.Abandon?)
  {
    DownloadRun(c0, l, first, acts, rest);
    StreamIsShorter(acts);
    forall a | a in acts && a.Abandon?
      ensures a.data != []
    {
      assert ValidAct(l.desc, a);
    }
  }

  /** What the host does see: the request that repeats a block number is
      accepted, but a data stage behind it stalls, whatever happens in between
      and whether the block was complete or not. */
  lemma RepetitionStalls(c0: Chip, l: Loader, length: u16, rest: seq<Event>, packet: seq<byte>)
    requires LoaderInv(c0, l) && !l.restarting && l.state == dfuDNLOAD_IDLE && Between(rest)
    ensures var e := Setup(DnloadRequest(Before(l.nextBlock), length));
            var m := Exec(Step(l, e), rest);
            && !Stalls(l, e) && Ready(m) && Stalls(m, Out(packet))
            && Same(l, Step(m, Out(packet))) && Step(m, Out(packet)).status == l.status
  {
    var e := Setup(DnloadRequest(Before(l.nextBlock), length));
    StepKeeps(c0, l, e);
    AgainStep(l, length);
    BetweenIsQuiet(Step(l, e), rest);
    Runs(c0, Step(l, e), rest);
  }

  lemma AgainStep(l: Loader, length: u16)
    requires Ready(l) && !l.restarting && l.state == dfuDNLOAD_IDLE
    ensures var e := Setup(DnloadRequest(Before(l.nextBlock), length)); Same(l, Step(l, e)) && !Stalls(l, e)
  {
  }

  /** A session without its repetitions and questions, or also without its
      abandoned blocks. */
  function Filtered(acts: seq<Act>, abandoned: bool): seq<Act> {
    if acts == [] then []
    else (if acts[0].Block? || (abandoned && acts[0].Abandon?) then [acts[0]] else []) + Filtered(acts[1..], abandoned)
  }

  lemma {:induction false} StreamOfFiltered(acts: seq<Act>, abandoned: bool, next: u16)
    ensures Stream(Filtered(acts, abandoned)) == Stream(acts) && |Intended(Filtered(acts, abandoned))| <= |Intended(acts)|
    ensures abandoned ==> BlocksAfter(Filtered(acts, abandoned), next) == BlocksAfter(acts, next)
    ensures forall a | a in Filtered(acts, abandoned) :: a in acts && (a.Block? || (abandoned && a.Abandon?))
  {
    if acts != [] {
      StreamOfFiltered(acts[1..], abandoned, NextOf(acts[0], next));
      if acts[0].Block? || (abandoned && acts[0].Abandon?) {
        assert Filtered(acts, abandoned)[1..] == Filtered(acts[1..], abandoned);
      } else {
        assert Filtered(acts, abandoned) == Filtered(acts[1..], abandoned);
      }
    }
  }

  /** Retransmissions are stuttering: leaving out all but the blocks begun
      gives the same flash, page buffer, position, block counter and state. */
  lemma RetransmissionStutters(c0: Chip, l: Loader, first: u16, acts: seq<Act>, rest: seq<Event>)
    requires LoaderInv(c0, l) && !l.restarting && l.state == dfuIDLE && ValidDownload(l.desc, acts, rest)
    ensures var m, m' := Exec(l, DownloadEvents(first, acts, rest)), Exec(l, DownloadEvents(first, Filtered(acts, true), rest));
            m' == m.(ep0 := m'.ep0)
  {
    StreamOfFiltered(acts, true, first);
    assert Filtered(acts, true)[0] == acts[0];
    DownloadRun(c0, l, first, acts, rest);
    DownloadRun(c0, l, first, Filtered(acts, true), rest);
  }

  /** An abandoned block leaves no trace but a gap in the numbers: flash is as
      if the host had never had it. */
  lemma AbandonedBlocksLeaveNoTrace(c0: Chip, l: Loader, first: u16, acts: seq<Act>, rest: seq<Event>)
    requires LoaderInv(c0, l) && !l.restarting && l.state == dfuIDLE && ValidDownload(l.desc, acts, rest)
    requires exists a :: a in acts && a.Block?
    ensures var m, m' := Exec(l, DownloadEvents(first, acts, rest)), Exec(l, DownloadEvents(first, Filtered(acts, false), rest));
            m' == m.(ep0 := m'.ep0, nextBlock := m'.nextBlock)
  {
    StreamOfFiltered(acts, false, first);
    SomeBlockIsLeft(acts);
    assert Filtered(acts, false)[0] in Filtered(acts, false);
    DownloadRun(c0, l, first, acts, rest);
    DownloadRun(c0, l, first, Filtered(acts, false), rest);
  }

  lemma {:induction false} SomeBlockIsLeft(acts: seq<Act>)
    requires exists a :: a in acts && a.Block?
    ensures Filtered(acts, false) != []
  {
    if !acts[0].Block? {
      assert exists a :: a in acts[1..] && a.Block?;
      SomeBlockIsLeft(acts[1..]);
    }
  }

  /** Whole words of an unfinished page wait in the page buffer, and nothing
      else does. */
  lemma UnfinishedPageIsBuffered(w0: Writer, stream: seq<byte>)
    requires ValidChip(w0.chip) && w0.chip.buffer == map[] && |stream| <= BOOT_ADDR
    ensures var w := WriteAll(Start(w0), stream);
            && ValidChip(w.chip)
            && (|stream| % w0.chip.page >= 2 ==> 0 in w.chip.buffer)
            && (|stream| % w0.chip.page < 2 ==> w.chip.buffer == map[])
  {
    ImageStart(w0);
    ImageAll(w0.chip, Start(w0), [], stream);
    assert [] + stream == stream;
  }

  const ABORT_REQUEST: SetupRequest := SetupRequest(DFU_OUT, 6, 0, 0, 0)

  lemma AbortStep(l: Loader)
    requires Ready(l) && !l.restarting
    ensures var m := Step(l, Setup(ABORT_REQUEST)); m.state == dfuIDLE && m.status == OK && m.writer == l.writer
  {
  }

  /** Aborting a download, after any session, spoils the next one if and only
      if the last page holds at least one whole word: then for every length
      from two bytes on there is a stream that does not arrive. */
  lemma AbortSpoilsNextDownload(c0: Chip, l: Loader, first: u16, acts: seq<Act>, n: nat)
    requires LoaderInv(c0, l) && !l.restarting && l.state == dfuIDLE && l.writer.chip.buffer == map[]
    requires ValidDownload(l.desc, acts, []) && 2 <= n <= BOOT_ADDR
    ensures var m := Exec(l, SessionEvents(acts, first) + [Setup(ABORT_REQUEST)]);
            && m.state == dfuIDLE && m.status == OK && ValidChip(m.writer.chip)
            && (ImageCorrect(m.writer, n) <==> |Stream(acts)| % l.writer.chip.page < 2)
  {
    var evs, e := SessionEvents(acts, first), Setup(ABORT_REQUEST);
    ActsRun(c0, l, first, acts);
    StreamIsShorter(acts);
    UnfinishedPageIsBuffered(l.writer, Stream(acts));
    var m := Exec(l, evs);
    ExecAppend(c0, l, evs, [e]);
    AbortStep(m);
    OneEvent(m, e);
    StaleWordsSpoil(m.writer, n);
  }

  lemma OneEvent(l: Loader, e: Event)
    requires Ready(l)
    ensures Exec(l, [e]) == Step(l, e)
  {
    assert [e][1..] == [];
    assert Exec(Step(l, e), []) == Step(l, e);
  }

  // ----- upload ----------------------------------------------------------------------------------

  datatype Ask = Ask(length: nat, rest: seq<Event>)

  predicate ValidAsk(a: Ask) {
    1 <= a.length <= EP0_SIZE && Between(a.rest)
  }

  function UploadRequest(block: u16, length: u16): SetupRequest {
    SetupRequest(DFU_IN, 2, block, 0, length)
  }

  /** What EP0 is given to send for each request of consecutive numbers. */
  function Replies(l: Loader, asks: seq<Ask>, next: u16): seq<seq<byte>>
    decreases |asks|
  {
    if asks == [] || !Ready(l) || asks[0].length > EP0_SIZE then []
    else
      var m := Step(l, Setup(UploadRequest(next, asks[0].length)));
      [if m.ep0.xfer.Sending? then m.ep0.xfer.rest else []] + Replies(Exec(m, asks[0].rest), asks[1..], After(next))
  }

  function Total(asks: seq<Ask>): nat {
    if asks == [] then 0 else asks[0].length + Total(asks[1..])
  }

  lemma UploadStep(l: Loader, next: u16, a: Ask)
    requires Ready(l) && !l.restarting && ValidAsk(a)
    requires l.state == dfuIDLE || (l.state == dfuUPLOAD_IDLE && next == l.nextBlock)
    ensures var m, w := Step(l, Setup(UploadRequest(next, a.length))), if l.state == dfuIDLE then Start(l.writer) else l.writer;
            var (w', bytes) := Read(w, a.length);
            m == l.(writer := w', state := dfuUPLOAD_IDLE, nextBlock := After(next),
                    ep0 := Cancel(l.ep0).(xfer := Sending(bytes, NoCallback)))
  {
  }

  /** The next n bytes of flash, as far as there are any, and the writer behind
      them. */
  function Ahead(w: Writer, n: nat): seq<byte>
    requires w.payload <= FLASH_SIZE == |w.chip.flash|
  {
    ReadBytes(w.chip, w.payload, ReadCount(w, n))
  }

  function Behind(w: Writer, n: nat): (w': Writer)
    requires w.payload <= FLASH_SIZE == |w.chip.flash|
    ensures w'.payload <= FLASH_SIZE == |w'.chip.flash|
  {
    w.(payload := w.payload + ReadCount(w, n))
  }

  /** Reading on where the last read stopped. */
  lemma ReadInTwo(w: Writer, a: nat, b: nat)
    requires w.payload <= FLASH_SIZE == |w.chip.flash|
    ensures Ahead(w, a) + Ahead(Behind(w, a), b) == Ahead(w, a + b)
  {
  }

  /** Consecutive requests read on where the last one stopped, to the end of
      flash. */
  lemma {:induction false} UploadContinues(l: Loader, asks: seq<Ask>)
    requires Ready(l) && !l.restarting && l.state == dfuUPLOAD_IDLE && (forall a | a in asks :: ValidAsk(a))
    ensures Concat(Replies(l, asks, l.nextBlock)) == Ahead(l.writer, Total(asks))
    decreases |asks|
  {
    if asks != [] {
      var m := UploadHead(l, l.nextBlock, asks);
      UploadContinues(m, asks[1..]);
      ReadInTwo(l.writer, asks[0].length, Total(asks[1..]));
    }
  }

  /** The first request in dfuIDLE is served as if an upload that has read
      nothing were under way. */
  function Rewound(l: Loader, next: u16): Loader {
    l.(state := dfuUPLOAD_IDLE, nextBlock := next, writer := Start(l.writer))
  }

  lemma SameFirstReply(l: Loader, next: u16, asks: seq<Ask>)
    requires Ready(l) && !l.restarting && l.state == dfuIDLE && (forall a | a in asks :: ValidAsk(a))
    ensures Ready(Rewound(l, next)) && Replies(l, asks, next) == Replies(Rewound(l, next), asks, next)
  {
    if asks != [] {
      UploadStep(l, next, asks[0]);
      UploadStep(Rewound(l, next), next, asks[0]);
    }
  }

  lemma UploadContents(l: Loader, next: u16, asks: seq<Ask>)
    requires Ready(l) && !l.restarting && l.state == dfuIDLE && (forall a | a in asks :: ValidAsk(a))
    ensures Concat(Replies(l, asks, next)) == ReadBytes(l.writer.chip, 0, ReadCount(Start(l.writer), Total(asks)))
  {
    SameFirstReply(l, next, asks);
    UploadContinues(Rewound(l, next), asks);
  }

  lemma UploadHead(l: Loader, next: u16, asks: seq<Ask>) returns (m: Loader)
    requires Ready(l) && !l.restarting && asks != [] && ValidAsk(asks[0])
    requires l.state == dfuUPLOAD_IDLE && next == l.nextBlock
    ensures Ready(m) && m.state == dfuUPLOAD_IDLE && m.nextBlock == After(next) && !m.restarting
    ensures m.writer == Behind(l.writer, asks[0].length)
    ensures Concat(Replies(l, asks, next)) == Ahead(l.writer, asks[0].length) + Concat(Replies(m, asks[1..], After(next)))
  {
    var e := Setup(UploadRequest(next, asks[0].length));
    UploadStep(l, next, asks[0]);
    BetweenIsQuiet(Step(l, e), asks[0].rest);
    m := Exec(Step(l, e), asks[0].rest);
    var replies := Replies(l, asks, next);
    assert replies[1..] == Replies(m, asks[1..], After(next));
  }

  lemma ReadIsFlash(c: Chip, n: nat)
    requires n <= |c.flash| && c.rwwOpen
    ensures ReadBytes(c, 0, n) == c.flash[..n]
  {
    forall k | 0 <= k < n
      ensures ReadBytes(c, 0, n)[k] == c.flash[..n][k]
    {
      assert ReadByte(c, 0 + k) == c.flash[k];
    }
  }

  /** What a host gets by asking on, if flash begins with `stream`. */
  ghost predicate Returns(m: Loader, stream: seq<byte>, block: u16, asks: seq<Ask>) {
    var got := Concat(Replies(m, asks, block));
    |got| == Min(Total(asks), FLASH_SIZE) && stream <= got <= m.writer.chip.flash
  }

  /** Section 6.2.1 of USB DFU 1.1: uploading after a download of even length
      gives back the image, whatever the lengths asked for; what follows it
      is the rest of flash, up to its end. */
  lemma RoundTrip(c0: Chip, l: Loader, first: u16, acts: seq<Act>, rest: seq<Event>, block: u16, asks: seq<Ask>)
    requires LoaderInv(c0, l) && !l.restarting && l.state == dfuIDLE && ValidDownload(l.desc, acts, rest)
    requires l.writer.chip.buffer == map[] && |Stream(acts)| % 2 == 0
    requires (forall a | a in asks :: ValidAsk(a)) && |Stream(acts)| <= Total(asks)
    ensures Returns(Exec(l, DownloadEvents(first, acts, rest)), Stream(acts), block, asks)
  {
    DownloadImage(c0, l, first, acts, rest);
    DownloadRun(c0, l, first, acts, rest);
    EvenImage(l.writer.chip, Exec(l, DownloadEvents(first, acts, rest)).writer, Stream(acts));
    UploadOf(Exec(l, DownloadEvents(first, acts, rest)), Stream(acts), block, asks);
  }

  lemma EvenImage(c: Chip, w: Writer, stream: seq<byte>)
    requires Holds(c, w, stream) && |stream| % 2 == 0
    ensures stream <= w.chip.flash && |w.chip.flash| == FLASH_SIZE && w.chip.rwwOpen
  {
    assert stream[..2 * (|stream| / 2)] == stream;
  }

  lemma UploadOf(m: Loader, stream: seq<byte>, block: u16, asks: seq<Ask>)
    requires Ready(m) && !m.restarting && m.state == dfuIDLE && m.writer.chip.rwwOpen
    requires stream <= m.writer.chip.flash
    requires (forall a | a in asks :: ValidAsk(a)) && |stream| <= Total(asks)
    ensures Returns(m, stream, block, asks)
  {
    UploadContents(m, block, asks);
    var n := ReadCount(Start(m.writer), Total(asks));
    ReadIsFlash(m.writer.chip, n);
    assert m.writer.chip.flash[..n][..|stream|] == m.writer.chip.flash[..|stream|];
  }

  // ----- upload after an abort ---------------------------------------------------------------------

  lemma ClosedStep(w: Writer, b: byte)
    requires w.chip.page > 0 && (w.payload == 0 || !w.chip.rwwOpen)
    ensures !WriteByte(w, b).chip.rwwOpen && WriteByte(w, b).payload > 0 && WriteByte(w, b).chip.page > 0
  {
    if w.payload == 0 {
      assert 0 % w.chip.page == 0;
    }
  }

  /** The first byte erases a page, and nothing but flash_end_write enables the
      read-while-write section again. */
  lemma {:induction false} ClosedAfterWrite(w: Writer, bytes: seq<byte>)
    requires w.chip.page > 0 && (w.payload == 0 || !w.chip.rwwOpen) && bytes != []
    ensures !WriteAll(w, bytes).chip.rwwOpen
    decreases |bytes|
  {
    ClosedStep(w, bytes[0]);
    if |bytes| == 1 {
      assert bytes[1..] == [];
    } else {
      ClosedAfterWrite(WriteByte(w, bytes[0]), bytes[1..]);
    }
  }

  lemma ClosedReadsErased(c: Chip, n: nat)
    requires n <= |c.flash| && !c.rwwOpen
    ensures ReadBytes(c, 0, n) == seq(n, k requires 0 <= k < n => if k < BOOT_ADDR then 0xff else c.flash[k])
  {
    forall k | 0 <= k < n
      ensures ReadBytes(c, 0, n)[k] == if k < BOOT_ADDR then 0xff else c.flash[k]
    {
      assert ReadByte(c, 0 + k) == if k < BOOT_ADDR then 0xff else c.flash[k];
    }
  }

  lemma AbortOf(c0: Chip, u: Loader)
    requires LoaderInv(c0, u) && !u.restarting
    ensures var m := Exec(u, [Setup(ABORT_REQUEST)]);
            LoaderInv(c0, m) && m.state == dfuIDLE && !m.restarting && m.writer == u.writer
  {
    AbortStep(u);
    OneEvent(u, Setup(ABORT_REQUEST));
    StepKeeps(c0, u, Setup(ABORT_REQUEST));
    SetupRemembers(u, ABORT_REQUEST);
  }

  lemma ActsWriter(c0: Chip, l: Loader, first: u16, acts: seq<Act>)
    requires LoaderInv(c0, l) && !l.restarting && l.state == dfuIDLE && ValidDownload(l.desc, acts, [])
    ensures var u := Exec(l, SessionEvents(acts, first));
            LoaderInv(c0, u) && !u.restarting && u.writer == WriteAll(Start(l.writer), Stream(acts))
  {
    ActsRun(c0, l, first, acts);
  }

  lemma Aborted(c0: Chip, l: Loader, first: u16, acts: seq<Act>)
    requires LoaderInv(c0, l) && !l.restarting && l.state == dfuIDLE && ValidDownload(l.desc, acts, [])
    ensures var m := Exec(l, SessionEvents(acts, first) + [Setup(ABORT_REQUEST)]);
            LoaderInv(c0, m) && m.state == dfuIDLE && !m.restarting && m.writer == WriteAll(Start(l.writer), Stream(acts))
  {
    ActsWriter(c0, l, first, acts);
    AbortOf(c0, Exec(l, SessionEvents(acts, first)));
    ExecAppend(c0, l, SessionEvents(acts, first), [Setup(ABORT_REQUEST)]);
  }

  /** After an aborted download that has received anything, an upload shows an
      erased device below the boot loader, whatever flash holds: the
      read-while-write section has not been enabled again. */
  lemma AbortHidesFlash(c0: Chip, l: Loader, first: u16, acts: seq<Act>, block: u16, asks: seq<Ask>)
    requires LoaderInv(c0, l) && !l.restarting && l.state == dfuIDLE
    requires ValidDownload(l.desc, acts, []) && Stream(acts) != [] && forall a | a in asks :: ValidAsk(a)
    ensures var m := Exec(l, SessionEvents(acts, first) + [Setup(ABORT_REQUEST)]); var n := Min(Total(asks), FLASH_SIZE);
            |m.writer.chip.flash| == FLASH_SIZE &&
            Concat(Replies(m, asks, block)) ==
            seq(n, k requires 0 <= k < n => if k < BOOT_ADDR then 0xff else m.writer.chip.flash[k])
  {
    Aborted(c0, l, first, acts);
    var m := Exec(l, SessionEvents(acts, first) + [Setup(ABORT_REQUEST)]);
    ClosedAfterWrite(Start(l.writer), Stream(acts));
    UploadContents(m, block, asks);
    ClosedReadsErased(m.writer.chip, ReadCount(Start(m.writer), Total(asks)));
  }
}
