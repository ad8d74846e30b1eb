/** What every event keeps: the DFU states in use, the bounds on the stream
    position, and a boot region that is never touched. */
module DfuInvariant {
  import opened Wire
  import opened Endpoint
  import opened FlashSpec
  import opened FlashImage
  import opened UsbRequests
  import opened DfuSpec

  ghost predicate StateInv(l: Loader) {
    l.state in {dfuIDLE, dfuDNLOAD_IDLE, dfuUPLOAD_IDLE, dfuERROR} &&
    (l.state == dfuERROR ==> l.status != OK) &&
    (l.state == dfuDNLOAD_IDLE ==> l.writer.payload <= BOOT_ADDR) &&
    (l.state == dfuUPLOAD_IDLE ==> l.writer.payload <= FLASH_SIZE)
  }

  /** A pending data stage fits in front of BOOT_ADDR, although the check was
      made when its SETUP arrived: any later SETUP would have cancelled it. */
  ghost predicate ReceiveInv(l: Loader) {
    match l.ep0.xfer
    case Receiving(got, room, callback) =>
      callback == BlockWrite && l.state == dfuDNLOAD_IDLE &&
      0 < |got| + room <= EP0_SIZE && l.writer.payload + |got| + room <= BOOT_ADDR
    case _ => true
  }

  ghost predicate LoaderInv(c0: Chip, l: Loader) {
    BootKept(c0, l.writer.chip) && ValidDescriptors(l.desc) && StateInv(l) && ReceiveInv(l) &&
    !l.ep0.bug && l.ep0.size == EP0_SIZE && !l.ep0.truncate
  }

  lemma PowerUpInv(l: Loader)
    requires PowerUp(l)
    ensures LoaderInv(l.writer.chip, l)
  {
  }

  lemma DownloadKeeps(c0: Chip, l: Loader, r: SetupRequest)
    requires LoaderInv(c0, l) && l.ep0.xfer.Idle?
    ensures LoaderInv(c0, Download(l, r).0)
  {
    if l.state == dfuIDLE || l.state == dfuDNLOAD_IDLE {
      var w := if l.state == dfuIDLE then Start(l.writer) else l.writer;
      BootKeptEnd(c0, w);
    }
  }

  lemma UploadKeeps(c0: Chip, l: Loader, r: SetupRequest)
    requires LoaderInv(c0, l) && l.ep0.xfer.Idle?
    ensures LoaderInv(c0, Upload(l, r).0)
  {
  }

  lemma MySetupKeeps(c0: Chip, l: Loader, r: SetupRequest)
    requires LoaderInv(c0, l) && l.ep0.xfer.Idle?
    ensures LoaderInv(c0, MySetup(l, r).0)
  {
    match Classify(r)
    case DNLOAD => DownloadKeeps(c0, l, r);
    case UPLOAD => UploadKeeps(c0, l, r);
    case _ =>
  }

  /** Only EP0 changes, and it is idle or sending. */
  lemma Ep0Only(c0: Chip, l: Loader, ep0: Ep)
    requires LoaderInv(c0, l) && !ep0.xfer.Receiving? && !ep0.bug && ep0.size == EP0_SIZE && !ep0.truncate
    ensures LoaderInv(c0, l.(ep0 := ep0))
  {
  }

  lemma HandleSetupKeeps(c0: Chip, l: Loader, r: SetupRequest)
    requires LoaderInv(c0, l) && l.ep0.xfer.Idle?
    ensures LoaderInv(c0, HandleSetup(l, r).0)
  {
    var a := Standard(l.desc, r);
    if a.Application? {
      MySetupKeeps(c0, l, r);
    } else {
      Ep0Only(c0, l, HandleSetup(l, r).0.ep0);
    }
  }

  lemma SetupKeeps(c0: Chip, l: Loader, r: SetupRequest)
    requires LoaderInv(c0, l)
    ensures LoaderInv(c0, OnSetup(l, r))
  {
    var l0 := l.(ep0 := Cancel(l.ep0));
    Ep0Only(c0, l, l0.ep0);
    HandleSetupKeeps(c0, l0, r);
    var l1 := HandleSetup(l0, r).0;
    Ep0Only(c0, l1, Cancel(l1.ep0));
    if l1.ep0.xfer.Idle? {
      Ep0Only(c0, l1, Send(l1.ep0, [], NoCallback));
    }
  }

  lemma OutKeeps(c0: Chip, l: Loader, packet: seq<byte>)
    requires LoaderInv(c0, l)
    ensures LoaderInv(c0, OnOut(l, packet))
  {
    match OutPacket(l.ep0, packet)
    case Complete(_, data, _) => BootKeptAll(c0, l.writer, data);
    case _ =>
  }

  lemma StepKeeps(c0: Chip, l: Loader, e: Event)
    requires LoaderInv(c0, l)
    ensures LoaderInv(c0, Step(l, e))
  {
    if !l.restarting {
      match e
      case Setup(r) => SetupKeeps(c0, l, r);
      case Out(packet) => OutKeeps(c0, l, packet);
      case _ =>
    }
  }

  // ----- runs -----------------------------------------------------------------------

  /** The machine after a run; events are served as long as the machine is in
      the condition they rely on, which by Runs is always. */
  function Exec(l: Loader, run: seq<Event>): Loader
    decreases |run|
  {
    if run == [] || !Ready(l) then l else Exec(Step(l, run[0]), run[1..])
  }

  lemma {:induction false} Runs(c0: Chip, l: Loader, run: seq<Event>)
    requires LoaderInv(c0, l)
    ensures LoaderInv(c0, Exec(l, run))
    decreases |run|
  {
    if run != [] {
      StepKeeps(c0, l, run[0]);
      Runs(c0, Step(l, run[0]), run[1..]);
    }
  }

  lemma {:induction false} ExecAppend(c0: Chip, l: Loader, a: seq<Event>, b: seq<Event>)
    requires LoaderInv(c0, l)
    ensures Exec(l, a + b) == Exec(Exec(l, a), b)
    decreases |a|
  {
    if a == [] {
      assert a + b == b;
    } else {
      StepKeeps(c0, l, a[0]);
      assert (a + b)[1..] == a[1..] + b;
      ExecAppend(c0, Step(l, a[0]), a[1..], b);
    }
  }

  lemma HandleEpUnfold(c0: Chip, l: Loader, e: Event, rest: seq<Event>)
    requires LoaderInv(c0, l)
    ensures HandleEp(l, [e] + rest) == if Stalls(l, e) then Step(l, e) else HandleEp(Step(l, e), rest)
  {
    assert ([e] + rest)[1..] == rest;
  }

  /** Serving cause k, after those before it, ends at the stall label. */
  predicate StallsAt(l: Loader, causes: seq<Event>, k: nat)
    requires k < |causes|
  {
    var m := Exec(l, causes[..k]);
    Ready(m) && Stalls(m, causes[k])
  }

  lemma StallsLater(l: Loader, causes: seq<Event>, k: nat)
    requires Ready(l) && k + 1 < |causes|
    ensures StallsAt(l, causes, k + 1) == StallsAt(Step(l, causes[0]), causes[1..], k)
  {
    assert causes[..k + 1][1..] == causes[1..][..k];
  }

  /** A call of handle_ep is a run: of all pending causes, or of those up to
      the first one that stalls. So what holds for every run holds for every
      sequence of calls. */
  lemma {:induction false} HandleEpIsRun(c0: Chip, l: Loader, causes: seq<Event>) returns (served: nat)
    requires LoaderInv(c0, l)
    ensures served <= |causes| && HandleEp(l, causes) == Exec(l, causes[..served])
    ensures forall k | 0 <= k < served - 1 :: !StallsAt(l, causes, k)
    ensures served < |causes| ==> served > 0 && StallsAt(l, causes, served - 1)
    decreases |causes|
  {
    served := 0;
    if causes != [] {
      var next := Step(l, causes[0]);
      StepKeeps(c0, l, causes[0]);
      assert causes[..0] == [] && Exec(l, []) == l;
      if Stalls(l, causes[0]) {
        served := 1;
        assert causes[..1][1..] == [] && Exec(next, []) == next;
      } else {
        var more := HandleEpIsRun(c0, next, causes[1..]);
        served := more + 1;
        assert causes[..served][1..] == causes[1..][..more];
        StallsShift(l, causes, more);
      }
    }
  }

  lemma StallsShift(l: Loader, causes: seq<Event>, more: nat)
    requires Ready(l) && causes != [] && more <= |causes| - 1 && !StallsAt(l, causes, 0)
    requires var next := Step(l, causes[0]);
             && (forall k | 0 <= k < more - 1 :: !StallsAt(next, causes[1..], k))
             && (more < |causes| - 1 ==> more > 0 && StallsAt(next, causes[1..], more - 1))
    ensures forall k | 0 <= k < more :: !StallsAt(l, causes, k)
    ensures more < |causes| - 1 ==> StallsAt(l, causes, more)
  {
    forall k | 0 < k < |causes|
      ensures StallsAt(l, causes, k) == StallsAt(Step(l, causes[0]), causes[1..], k - 1)
    {
      StallsLater(l, causes, k - 1);
    }
  }

  /** In every interleaving of SETUP, OUT, STALLED, IN and bus reset: no page
      erase, fill or write addresses BOOT_ADDR or above, the boot region keeps
      its contents, and usb_io is never called on a busy EP0. */
  lemma BootRegionPreserved(l: Loader, run: seq<Event>)
    requires PowerUp(l)
    ensures var m := Exec(l, run);
            && (forall i | 0 <= i < |m.writer.chip.log| :: AddressOf(m.writer.chip.log[i]) < BOOT_ADDR)
            && |m.writer.chip.flash| == FLASH_SIZE
            && m.writer.chip.flash[BOOT_ADDR..] == l.writer.chip.flash[BOOT_ADDR..]
            && !m.ep0.bug
  {
    PowerUpInv(l);
    Runs(l.writer.chip, l, run);
  }

  /** The DFU states in use. An error has a status; a started download is never
      beyond BOOT_ADDR, nor is its pending data stage. */
  lemma StatesInUse(l: Loader, run: seq<Event>)
    requires PowerUp(l)
    ensures StateInv(Exec(l, run)) && ReceiveInv(Exec(l, run)) && Ready(Exec(l, run))
  {
    PowerUpInv(l);
    Runs(l.writer.chip, l, run);
  }

  /** dfuERROR is left by ABORT and CLRSTATUS and by nothing else. */
  lemma ErrorIsLeftByClearing(l: Loader, e: Event)
    requires Ready(l) && l.state == dfuERROR && !l.restarting
    ensures Step(l, e).state != dfuERROR <==>
            e.Setup? && Standard(l.desc, e.request).Application? && Classify(e.request) in {ABORT, CLRSTATUS}
    ensures Step(l, e).state != dfuERROR ==> Step(l, e).state == dfuIDLE && Step(l, e).status == OK
  {
  }

  /** A block number out of sequence: for an upload also a repeated one. */
  predicate WrongBlock(l: Loader, r: SetupRequest) {
    || (l.state == dfuDNLOAD_IDLE && Classify(r) == DNLOAD && r.wValue != l.nextBlock && r.wValue != Before(l.nextBlock))
    || (l.state == dfuUPLOAD_IDLE && Classify(r) == UPLOAD && r.wValue != l.nextBlock)
  }

  /** dfuERROR is entered by a wrong block number and by nothing else; in
      particular not by a block that is too long or does not fit. */
  lemma ErrorIsEnteredByWrongBlock(l: Loader, e: Event)
    requires Ready(l) && l.state != dfuERROR && !l.restarting
    ensures Step(l, e).state == dfuERROR <==>
            e.Setup? && Standard(l.desc, e.request).Application? && WrongBlock(l, e.request)
    ensures Step(l, e).state == dfuERROR ==>
            var m := Step(l, e);
            m.status == errUNKNOWN && m.writer == l.writer && m.nextBlock == l.nextBlock && !m.ep0.xfer.Receiving?
  {
  }

  /** A block refused for its address or its size, first or later, does not
      leave the machine in dfuERROR but where an accepted one would: the state
      is overwritten, only the status tells, and EP0 expects nothing. */
  lemma RefusedBlockIsNotAnError(l: Loader, r: SetupRequest)
    requires Ready(l) && Classify(r) == DNLOAD && l.state in {dfuIDLE, dfuDNLOAD_IDLE} && !l.restarting
    requires (l.state == dfuDNLOAD_IDLE ==> r.wValue == l.nextBlock) && r.wLength > 0
    ensures var m, w := Step(l, Setup(r)), if l.state == dfuIDLE then Start(l.writer) else l.writer;
            var refused := !CanWrite(w, r.wLength) || r.wLength > EP0_SIZE;
            && m.state == dfuDNLOAD_IDLE && m.nextBlock == After(r.wValue) && m.writer == w
            && (refused <==> m.ep0.xfer.Idle?) && (refused <==> Stalls(l, Setup(r)))
            && m.status == (if !CanWrite(w, r.wLength) then errADDRESS else if refused then errUNKNOWN else l.status)
  {
  }

  // ----- restart ----------------------------------------------------------------------

  /** The request that completes a download. */
  predicate Completes(l: Loader, e: Event)
    requires Ready(l)
  {
    e.Setup? && Standard(l.desc, e.request).Application? && Classify(e.request) == DNLOAD && e.request.wLength == 0 &&
    (l.state == dfuIDLE || (l.state == dfuDNLOAD_IDLE && e.request.wValue == l.nextBlock))
  }

  lemma SetupRemembers(l: Loader, r: SetupRequest)
    requires Ready(l)
    ensures OnSetup(l, r).didDownload <==> l.didDownload || Completes(l, Setup(r))
    ensures OnSetup(l, r).restarting == l.restarting
  {
    var l0 := l.(ep0 := Cancel(l.ep0));
    if Standard(l.desc, r).Application? {
      DownloadRemembers(l0, r);
    }
  }

  lemma DownloadRemembers(l: Loader, r: SetupRequest)
    requires Ready(l) && Standard(l.desc, r).Application?
    ensures MySetup(l, r).0.didDownload <==> l.didDownload || Completes(l, Setup(r))
    ensures MySetup(l, r).0.restarting == l.restarting
  {
  }

  /** A completed download is remembered, and makes the next bus reset, and
      nothing else, a restart. */
  lemma RestartStep(l: Loader, e: Event)
    requires Ready(l) && !l.restarting
    ensures Step(l, e).didDownload <==> l.didDownload || Completes(l, e)
    ensures Step(l, e).restarting <==> l.didDownload && e.BusReset?
  {
    if e.Setup? {
      SetupRemembers(l, e.request);
    }
  }

  /** Some event of the run completes a download. */
  ghost predicate HasDownload(l: Loader, run: seq<Event>)
    decreases |run|
  {
    run != [] && Ready(l) && (Completes(l, run[0]) || HasDownload(Step(l, run[0]), run[1..]))
  }

  lemma {:induction false} RememberedDownload(c0: Chip, l: Loader, run: seq<Event>)
    requires LoaderInv(c0, l) && !l.restarting && !Exec(l, run).restarting
    ensures Exec(l, run).didDownload <==> l.didDownload || HasDownload(l, run)
    decreases |run|
  {
    if run != [] {
      StepKeeps(c0, l, run[0]);
      RestartStep(l, run[0]);
      if Step(l, run[0]).restarting {
        RestartIsForever(Step(l, run[0]), run[1..]);
      }
      RememberedDownload(c0, Step(l, run[0]), run[1..]);
    }
  }

  lemma {:induction false} RestartIsForever(l: Loader, run: seq<Event>)
    requires l.restarting
    ensures Exec(l, run) == l
    decreases |run|
  {
    if run != [] && Ready(l) {
      RestartIsForever(l, run[1..]);
    }
  }

  /** After any run that has not restarted the boot loader, a bus reset
      restarts it if and only if a download was completed before. */
  lemma RestartsAfterDownload(l: Loader, run: seq<Event>)
    requires PowerUp(l) && !Exec(l, run).restarting
    ensures Exec(l, run + [BusReset]).restarting <==> HasDownload(l, run)
  {
    PowerUpInv(l);
    var c0 := l.writer.chip;
    Runs(c0, l, run);
    RememberedDownload(c0, l, run);
    ExecAppend(c0, l, run, [BusReset]);
    var m := Exec(l, run);
    RestartStep(m, BusReset);
    assert [BusReset][1..] == [];
    assert Exec(m, [BusReset]) == Exec(Step(m, BusReset), []);
  }
}
