/** The handshake between the main loop and the CAN controller: tx_empty on one
    side, CANINTF and the TXREQ bit on the other. The controller acts between
    any two SPI transfers. */
module Mcp2515Flags {
  import opened Wire

  // CANINTF: 0x03 receive buffers full (CANINTF_RX), 0x1c transmit buffers done
  // (CANINTF_TX), 0x20 error (CANINTF_ERR).

  /** `txreq` is TXREQ of transmit buffer 0, the only one that is used. A frame
      that is on the air when TXREQ is cleared may be `finishing`: it is sent
      to its end, and its flag rises then. */
  datatype Chip = Chip(intf: byte, eflg: byte, txreq: bool, finishing: bool)

  /** A frame in the buffer is not done with. */
  predicate Busy(chip: Chip) {
    chip.txreq || chip.finishing
  }

  /** INSTRUCTION_BIT_MODIFY */
  function BitModify(reg: byte, mask: byte, value: byte): byte {
    (reg & !mask) | (value & mask)
  }

  /** The SPI transfers of mcp2515_update_status in order, then the two other
      things the main loop does with the controller. */
  datatype Phase = ReadIntf | ReadEflg | ClearEflg | NoteEmpty | ClearIntf | Load | Fetch

  /** History: frames loaded into the transmit buffer, completed by the
      controller, and noticed through tx_empty; `clobbered` says that a frame
      was loaded over one not done with. */
  datatype State = State(
    phase: Phase,
    status: byte,
    error: byte,
    txEmpty: bool,
    oneShot: bool,
    chip: Chip,
    loaded: nat,
    completed: nat,
    noticed: nat,
    clobbered: bool)

  datatype Event =
    | MainLoop(go: bool)             // one transfer, or one decision, of the main loop
    | Sent                           // the controller finishes the pending frame
    | Finished                       // ... one whose TXREQ has been cleared
    | Received                       // ... stores a frame in receive buffer 0
    | Error(bits: byte)              // ... detects an error
    | Start                          // mcp2515_start
    | Stop(onAir: bool)              // mcp2515_stop, with the pending frame on the air or not
    | Configure(oneShot: bool)       // a data stage writes the mode byte of can_cfg

  /** Control requests are interrupts, which the main loop masks during
      mcp2515_update_status. */
  predicate Served(s: State) {
    s.phase.ReadIntf? || s.phase.Load? || s.phase.Fetch?
  }

  predicate IsControl(e: Event) {
    e.Start? || e.Stop? || e.Configure?
  }

  predicate Enabled(s: State, e: Event) {
    (e.Sent? ==> s.chip.txreq) && (e.Finished? ==> s.chip.finishing) && (IsControl(e) ==> Served(s))
  }

  function TxDone(chip: Chip): bool {
    chip.intf & 0x1c != 0
  }

  /** mcp2515_txbuf_empty */
  predicate TxbufEmpty(s: State) {
    s.oneShot || s.txEmpty
  }

  function Step(s: State, e: Event): State
    requires Enabled(s, e)
  {
    match e
    case Sent => s.(chip := s.chip.(intf := s.chip.intf | 0x04, txreq := false), completed := s.completed + 1)
    case Finished =>
      s.(chip := s.chip.(intf := s.chip.intf | 0x04, finishing := false), completed := s.completed + 1)
    case Received => s.(chip := s.chip.(intf := s.chip.intf | 0x01))
    case Error(bits) => s.(chip := s.chip.(intf := s.chip.intf | 0x20, eflg := s.chip.eflg | bits))
    case MainLoop(go) => Loop(s, go)
    case Start => s.(txEmpty := true)
    case Stop(onAir) =>
      s.(chip := s.chip.(txreq := false, finishing := s.chip.finishing || (s.chip.txreq && onAir)))
    case Configure(oneShot) => s.(oneShot := oneShot)
  }

  /** `go` says, at the load, that a frame waits; at the fetch, that the report
      has room for one. */
  function Loop(s: State, go: bool): State {
    match s.phase
    case ReadIntf => s.(status := s.chip.intf & 0x3f, phase := ReadEflg)
    case ReadEflg =>
      if s.status & 0x20 != 0 then s.(error := s.chip.eflg, phase := ClearEflg) else s.(phase := NoteEmpty)
    case ClearEflg => s.(chip := s.chip.(eflg := BitModify(s.chip.eflg, s.error, 0)), phase := NoteEmpty)
    case NoteEmpty =>
      if s.status & 0x1c != 0 then s.(txEmpty := true, noticed := s.noticed + 1, phase := ClearIntf)
      else s.(phase := ClearIntf)
    case ClearIntf => s.(chip := s.chip.(intf := BitModify(s.chip.intf, s.status & 0x3c, 0)), phase := Load)
    case Load =>
      if go && TxbufEmpty(s) then
        s.(txEmpty := false, chip := s.chip.(txreq := true), loaded := s.loaded + 1,
           clobbered := s.clobbered || Busy(s.chip), phase := Fetch)
      else s.(phase := Fetch)
    case Fetch =>
      // INSTRUCTION_READ_RXB clears the flag of the buffer it reads
      if go && s.status & 0x03 != 0 then s.(chip := s.chip.(intf := BitModify(s.chip.intf, 0x01, 0)), phase := ReadIntf)
      else s.(phase := ReadIntf)
  }

  predicate IsRun(s: State, run: seq<Event>)
    decreases |run|
  {
    run == [] || (Enabled(s, run[0]) && IsRun(Step(s, run[0]), run[1..]))
  }

  function Exec(s: State, run: seq<Event>): State
    requires IsRun(s, run)
    decreases |run|
  {
    if run == [] then s else Exec(Step(s, run[0]), run[1..])
  }

  /** A session without control requests that matter: reconfiguring is
      allowed as long as it does not select one-shot mode. */
  predicate Undisturbed(run: seq<Event>) {
    forall e | e in run :: !e.Start? && !e.Stop? && e != Configure(true)
  }

  // ----- bits -------------------------------------------------------------------------

  lemma MaskedClear(intf: byte, status: byte)
    ensures BitModify(intf, status & 0x3c, 0) & 0x1c == intf & 0x1c & !status
    ensures BitModify(intf, status & 0x3c, 0) & 0x03 == intf & 0x03
  {
  }

  lemma RaiseBits(intf: byte)
    ensures (intf | 0x04) & 0x1c != 0
    ensures (intf | 0x01) & 0x1c == intf & 0x1c && (intf | 0x20) & 0x1c == intf & 0x1c
    ensures (intf & 0x3f) & 0x1c == intf & 0x1c
    ensures BitModify(intf, 0x01, 0) & 0x1c == intf & 0x1c
  {
  }

  lemma ClearBits(intf: byte, status: byte)
    ensures status & 0x1c == 0 ==> BitModify(intf, status & 0x3c, 0) & 0x1c == intf & 0x1c
    ensures intf & 0x1c == status & 0x1c ==> BitModify(intf, status & 0x3c, 0) & 0x1c == 0
  {
  }

  // ----- the invariant ------------------------------------------------------------------

  /** Between the read of CANINTF and the masked clear. */
  predicate Updating(s: State) {
    !s.phase.ReadIntf? && !s.phase.Load? && !s.phase.Fetch?
  }

  /** A completion flag the main loop has not acted on yet: it is up, and not
      merely waiting to be cleared by the step that saw it. */
  predicate Unseen(s: State) {
    TxDone(s.chip) && !(s.phase.ClearIntf? && s.status & 0x1c != 0)
  }

  function One(b: bool): nat {
    if b then 1 else 0
  }

  /** The claims on the transmit buffer: it is known to be empty, a frame is
      pending in the controller or being finished, a completion waits to be
      noticed. */
  function Claims(s: State): nat {
    One(s.txEmpty) + One(s.chip.txreq) + One(s.chip.finishing) + One(Unseen(s))
  }

  /** At most one claim, and a status that is up to date while it is used. */
  ghost predicate Token(s: State) {
    !s.oneShot && !s.clobbered && Claims(s) <= 1 &&
    (Updating(s) && s.status & 0x1c != 0 ==> s.chip.intf & 0x1c == s.status & 0x1c) &&
    (s.phase.ClearIntf? && s.status & 0x1c != 0 ==> s.txEmpty)
  }

  /** Every frame loaded is pending or completed, every completion is noticed
      or still flagged. */
  predicate Counts(s: State) {
    s.loaded == s.completed + One(s.chip.txreq) + One(s.chip.finishing) && s.completed == s.noticed + One(Unseen(s))
  }

  /** The claim is handed on, neither lost nor doubled, and counted. */
  ghost predicate HandedOn(s: State, t: State) {
    Token(t) && Claims(t) == Claims(s) && (Counts(s) ==> Counts(t))
  }

  lemma TokenChip(s: State, e: Event)
    requires Token(s) && Enabled(s, e) && !e.MainLoop? && !IsControl(e)
    ensures HandedOn(s, Step(s, e))
  {
    RaiseBits(s.chip.intf);
  }

  lemma TokenClear(s: State, go: bool)
    requires Token(s) && s.phase.ClearIntf?
    ensures HandedOn(s, Loop(s, go))
  {
    ClearBits(s.chip.intf, s.status);
  }

  lemma TokenRead(s: State, go: bool)
    requires Token(s) && (s.phase.ReadIntf? || s.phase.Fetch?)
    ensures HandedOn(s, Loop(s, go))
  {
    RaiseBits(s.chip.intf);
  }

  lemma TokenLoop(s: State, go: bool)
    requires Token(s) && (s.phase.ReadEflg? || s.phase.ClearEflg? || s.phase.NoteEmpty? || s.phase.Load?)
    ensures HandedOn(s, Loop(s, go))
  {
  }

  lemma TokenStep(s: State, e: Event)
    requires Token(s) && Enabled(s, e) && Undisturbed([e])
    ensures HandedOn(s, Step(s, e))
  {
    assert e in [e];
    if e.MainLoop? {
      if s.phase.ClearIntf? {
        TokenClear(s, e.go);
      } else if s.phase.ReadIntf? || s.phase.Fetch? {
        TokenRead(s, e.go);
      } else {
        TokenLoop(s, e.go);
      }
    } else if !IsControl(e) {
      TokenChip(s, e);
    }
  }

  lemma {:induction false} TokenRun(s: State, run: seq<Event>)
    requires Token(s) && IsRun(s, run) && Undisturbed(run)
    ensures HandedOn(s, Exec(s, run))
    decreases |run|
  {
    if run != [] {
      assert run[0] in run;
      TokenStep(s, run[0]);
      TokenRun(Step(s, run[0]), run[1..]);
    }
  }

  /** A stale flag, on its way to being cleared before the first load. */
  ghost predicate Flushing(s: State) {
    !s.oneShot && !s.clobbered && s.txEmpty && !Busy(s.chip) && !s.phase.Load? &&
    (Updating(s) ==> s.chip.intf & 0x1c == s.status & 0x1c)
  }

  lemma FlushChip(s: State, e: Event)
    requires Flushing(s) && Enabled(s, e) && !e.MainLoop? && !IsControl(e)
    ensures Flushing(Step(s, e))
  {
    RaiseBits(s.chip.intf);
  }

  lemma FlushLoop(s: State, go: bool)
    requires Flushing(s) && !s.phase.ClearIntf?
    ensures Flushing(Loop(s, go))
  {
    RaiseBits(s.chip.intf);
  }

  lemma FlushClear(s: State, go: bool)
    requires Flushing(s) && s.phase.ClearIntf?
    ensures Token(Loop(s, go))
  {
    ClearBits(s.chip.intf, s.status);
  }

  ghost predicate Inv(s: State) {
    Token(s) || Flushing(s)
  }

  lemma InvStep(s: State, e: Event)
    requires Inv(s) && Enabled(s, e) && Undisturbed([e])
    ensures Inv(Step(s, e))
  {
    assert e in [e];
    if Token(s) {
      TokenStep(s, e);
    } else if e.MainLoop? {
      if s.phase.ClearIntf? {
        FlushClear(s, e.go);
      } else {
        FlushLoop(s, e.go);
      }
    } else if !IsControl(e) {
      FlushChip(s, e);
    }
  }

  // ----- when a pending frame can be overwritten -------------------------------------------

  /** What a control request would have to look at. */
  predicate Safe(s: State) {
    !s.oneShot && !(Busy(s.chip) && (s.txEmpty || TxDone(s.chip))) && !(s.chip.txreq && s.chip.finishing) &&
    (s.phase.Load? ==> !(s.txEmpty && TxDone(s.chip)))
  }

  lemma SafeIsInv(s: State)
    requires Served(s) && !s.clobbered
    ensures Safe(s) <==> Inv(s)
  {
  }

  ghost predicate NeverClobbers(s: State) {
    forall run | IsRun(s, run) && Undisturbed(run) :: !Exec(s, run).clobbered
  }

  lemma {:induction false} InvRun(s: State, run: seq<Event>)
    requires Inv(s) && IsRun(s, run) && Undisturbed(run)
    ensures Inv(Exec(s, run))
    decreases |run|
  {
    if run != [] {
      assert run[0] in run;
      InvStep(s, run[0]);
      InvRun(Step(s, run[0]), run[1..]);
    }
  }

  /** For every state in which a control request can be served, whatever came
      before: a frame can be overwritten in one-shot mode, if the buffer is
      taken for empty (or will be) while a frame is not done with, if two are,
      and if a stale flag is met right before a load. In no other case. */
  lemma ClobberIff(s: State)
    requires Served(s) && !s.clobbered
    ensures NeverClobbers(s) <==> Safe(s)
  {
    SafeIsInv(s);
    if Safe(s) {
      forall run | IsRun(s, run) && Undisturbed(run)
        ensures !Exec(s, run).clobbered
      {
        InvRun(s, run);
      }
    } else {
      var u := Clobbering(s);
    }
  }

  // ----- whole lives -------------------------------------------------------------------------

  /** mcp2515_start must not find a frame that is not done with, nor a stale
      flag right before the load; one-shot mode must not be selected. */
  predicate Careful(s: State, e: Event) {
    match e
    case Start => !Busy(s.chip) && (s.phase.Load? ==> !TxDone(s.chip))
    case Configure(oneShot) => !oneShot
    case _ => true
  }

  /** The care is exact: from a safe state a control request leads to a safe
      one if and only if it was careful. */
  lemma CarefulIff(s: State, e: Event)
    requires Served(s) && !s.clobbered && Safe(s) && IsControl(e)
    ensures NeverClobbers(Step(s, e)) <==> Careful(s, e)
  {
    ClobberIff(Step(s, e));
  }

  predicate CarefulRun(s: State, run: seq<Event>)
    requires IsRun(s, run)
    decreases |run|
  {
    run == [] || (Careful(s, run[0]) && CarefulRun(Step(s, run[0]), run[1..]))
  }

  lemma CarefulStep(s: State, e: Event)
    requires Inv(s) && Enabled(s, e) && Careful(s, e)
    ensures Inv(Step(s, e))
  {
    if IsControl(e) {
      SafeIsInv(s);
      SafeIsInv(Step(s, e));
    } else {
      InvStep(s, e);
    }
  }

  /** Any number of sessions, started, stopped and reconfigured with that
      care, never overwrites a frame. */
  lemma {:induction false} CarefulLife(s: State, run: seq<Event>)
    requires Inv(s) && IsRun(s, run) && CarefulRun(s, run)
    ensures Inv(Exec(s, run)) && !Exec(s, run).clobbered
    decreases |run|
  {
    if run != [] {
      CarefulStep(s, run[0]);
      CarefulLife(Step(s, run[0]), run[1..]);
    }
  }

  /** mcp2515_start alone leaves a pending frame pending and so exposes it; a
      stop before it withdraws the frame, unless it is on the air. */
  lemma StartNeedsStop(s: State, onAir: bool)
    requires Served(s) && !s.clobbered
    ensures NeverClobbers(Step(s, Start)) <==> !s.oneShot && !Busy(s.chip) && (s.phase.Load? ==> !TxDone(s.chip))
    ensures NeverClobbers(Step(Step(s, Stop(onAir)), Start)) <==>
            !s.oneShot && !(s.chip.txreq && onAir) && !s.chip.finishing && (s.phase.Load? ==> !TxDone(s.chip))
  {
    ClobberIff(Step(s, Start));
    ClobberIff(Step(Step(s, Stop(onAir)), Start));
  }

  // ----- completions ---------------------------------------------------------------------------

  /** A session just started; the counters begin with it. */
  predicate SessionStart(s: State) {
    Served(s) && s.txEmpty && s.loaded == s.completed == s.noticed == 0 && !s.clobbered
  }

  ghost predicate AlwaysAccounted(s: State) {
    forall run | IsRun(s, run) && Undisturbed(run) :: !Exec(s, run).clobbered && Counts(Exec(s, run))
  }

  /** At most one frame is outstanding and every completion is noticed or still
      flagged, wherever between the SPI transfers it was raised, if and only
      if the session is not in one-shot mode and starts with neither a frame
      pending nor a flag up. */
  lemma AtMostOneOutstanding(s: State)
    requires SessionStart(s)
    ensures AlwaysAccounted(s) <==> !s.oneShot && !Busy(s.chip) && !TxDone(s.chip)
  {
    if !s.oneShot && !Busy(s.chip) && !TxDone(s.chip) {
      forall run | IsRun(s, run) && Undisturbed(run)
        ensures !Exec(s, run).clobbered && Counts(Exec(s, run))
      {
        TokenRun(s, run);
      }
    } else if s.oneShot {
      var u := Clobbering(s);
    } else {
      assert IsRun(s, []) && Undisturbed([]) && Exec(s, []) == s;
    }
  }

  /** update_status never clears a receive flag. */
  lemma ReceiveFlagsKept(s: State, go: bool)
    requires !s.phase.Fetch?
    ensures Loop(s, go).chip.intf & 0x03 == s.chip.intf & 0x03
  {
    if s.phase.ClearIntf? {
      MaskedClear(s.chip.intf, s.status);
    } else {
      assert Loop(s, go).chip.intf == s.chip.intf;
    }
  }

  // ----- the overwriting runs ------------------------------------------------------------------

  ghost predicate Reaches(s: State, t: State) {
    exists run :: IsRun(s, run) && Undisturbed(run) && Exec(s, run) == t
  }

  lemma Then(s: State, t: State, go: bool) returns (u: State)
    requires Reaches(s, t)
    ensures u == Loop(t, go) && Reaches(s, u)
  {
    u := Loop(t, go);
    var run :| IsRun(s, run) && Undisturbed(run) && Exec(s, run) == t;
    Append(s, run, MainLoop(go));
  }

  lemma ThenFinished(s: State, t: State) returns (u: State)
    requires Reaches(s, t) && t.chip.finishing
    ensures u == Step(t, Finished) && Reaches(s, u) && TxDone(u.chip)
  {
    u := Step(t, Finished);
    RaiseBits(t.chip.intf);
    var run :| IsRun(s, run) && Undisturbed(run) && Exec(s, run) == t;
    Append(s, run, Finished);
  }

  lemma {:induction false} Append(s: State, run: seq<Event>, e: Event)
    requires IsRun(s, run) && Enabled(Exec(s, run), e)
    ensures IsRun(s, run + [e]) && Exec(s, run + [e]) == Step(Exec(s, run), e)
    decreases |run|
  {
    if run == [] {
      assert [e][1..] == [];
      assert run + [e] == [e];
      assert Exec(Step(s, e), []) == Step(s, e);
    } else {
      assert (run + [e])[1..] == run[1..] + [e];
      Append(Step(s, run[0]), run[1..], e);
    }
  }

  /** Once round the main loop to the load, with no event of the controller. */
  lemma Around(s: State, t: State) returns (u: State)
    requires Reaches(s, t) && t.phase.Fetch?
    ensures Reaches(s, u) && u.phase.Load? && u.chip.txreq == t.chip.txreq && u.chip.finishing == t.chip.finishing && u.oneShot == t.oneShot
    ensures u.txEmpty == (t.txEmpty || TxDone(t.chip)) && u.clobbered == t.clobbered
  {
    RaiseBits(t.chip.intf);
    u := Then(s, t, false);
    u := FromRead(s, u);
  }

  lemma FromRead(s: State, t: State) returns (u: State)
    requires Reaches(s, t) && t.phase.ReadIntf?
    ensures Reaches(s, u) && u.phase.Load? && u.chip.txreq == t.chip.txreq && u.chip.finishing == t.chip.finishing && u.oneShot == t.oneShot
    ensures u.txEmpty == (t.txEmpty || TxDone(t.chip)) && u.clobbered == t.clobbered
  {
    RaiseBits(t.chip.intf);
    u := Then(s, t, false);
    u := Then(s, u, false);
    if u.phase.ClearEflg? {
      u := Then(s, u, false);
    }
    u := Then(s, u, false);
    u := Then(s, u, false);
  }

  /** The next load that can go wrong; at a load that would, this one. */
  lemma NextLoad(s: State, t: State) returns (u: State)
    requires Reaches(s, t) && Served(t)
    ensures Reaches(s, u) && u.phase.Load? && u.oneShot == t.oneShot
    ensures u.chip.txreq == t.chip.txreq && u.chip.finishing == t.chip.finishing
    ensures if t.phase.Load? && (t.txEmpty || t.oneShot || !Busy(t.chip)) then u == t
            else u.txEmpty == (t.txEmpty || TxDone(t.chip))
  {
    if t.phase.Load? {
      u := t;
      if !t.txEmpty && !t.oneShot && Busy(t.chip) {
        u := Then(s, u, false);
        u := Around(s, u);
      }
    } else if t.phase.Fetch? {
      u := Around(s, t);
    } else {
      u := FromRead(s, t);
    }
  }

  lemma Clobbering(s: State) returns (u: State)
    requires Served(s) && !Safe(s)
    ensures Reaches(s, u) && u.clobbered
  {
    assert IsRun(s, []) && Undisturbed([]) && Exec(s, []) == s;
    u := s;
    if s.chip.txreq && s.chip.finishing && !s.txEmpty && !TxDone(s.chip) {
      u := ThenFinished(s, u);
    }
    u := NextLoad(s, u);
    u := Then(s, u, true);
    if !u.clobbered {
      u := Around(s, u);
      u := Then(s, u, true);
    }
  }
}
