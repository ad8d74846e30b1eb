/** What mcp2515_update_status makes of CANINTF and EFLG: which flags are up
    after it, with the controller raising others between any two transfers. */
module Mcp2515Status {
  import opened Wire
  import opened Mcp2515Flags
  import opened Mcp2515Driver

  predicate ErrorFlag(chip: Chip) {
    chip.intf & 0x20 != 0
  }

  predicate ReceiveFlag(chip: Chip) {
    chip.intf & 0x01 != 0
  }

  /** The status in use has the error flag, so mcp2515_has_errors is true. */
  predicate HasErrors(s: State) {
    s.status & 0x20 != 0
  }

  /** The main loop reads CANINTF. */
  predicate ReadsIntf(s: State, e: Event) {
    e.MainLoop? && s.phase.ReadIntf?
  }

  /** The masked clear of a pass that has seen the error flag. */
  predicate TakesDown(s: State, e: Event) {
    e.MainLoop? && s.phase.ClearIntf? && HasErrors(s)
  }

  /** The main loop reads a frame. */
  predicate Fetches(s: State, e: Event) {
    e.MainLoop? && s.phase.Fetch? && e.go && s.status & 0x03 != 0
  }

  // ----- CANINTF, bit by bit ----------------------------------------------------------

  lemma RaiseFlags(intf: byte)
    ensures (intf | 0x04) & 0x20 == intf & 0x20 && (intf | 0x01) & 0x20 == intf & 0x20 && (intf | 0x20) & 0x20 != 0
    ensures (intf | 0x04) & 0x01 == intf & 0x01 && (intf | 0x20) & 0x01 == intf & 0x01 && (intf | 0x01) & 0x01 != 0
    ensures (intf & 0x3f) & 0x20 == intf & 0x20
  {
  }

  lemma ClearFlags(intf: byte, status: byte)
    ensures BitModify(intf, 0x01, 0) & 0x20 == intf & 0x20 && BitModify(intf, 0x01, 0) & 0x01 == 0
    ensures BitModify(intf, status & 0x3c, 0) & 0x01 == intf & 0x01
    ensures status & 0x20 != 0 ==> BitModify(intf, status & 0x3c, 0) & 0x20 == 0
    ensures status & 0x20 == 0 ==> BitModify(intf, status & 0x3c, 0) & 0x20 == intf & 0x20
  {
  }

  /** Both flags after the masked clear, after the read of a frame, and after any
      other step of the main loop. */
  lemma ClearStep(s: State, go: bool)
    requires s.phase.ClearIntf?
    ensures ErrorFlag(Loop(s, go).chip) == (ErrorFlag(s.chip) && !HasErrors(s))
    ensures ReceiveFlag(Loop(s, go).chip) == ReceiveFlag(s.chip)
  {
    ClearFlags(s.chip.intf, s.status);
  }

  lemma FetchStep(s: State, go: bool)
    requires s.phase.Fetch?
    ensures ErrorFlag(Loop(s, go).chip) == ErrorFlag(s.chip)
    ensures ReceiveFlag(Loop(s, go).chip) == (ReceiveFlag(s.chip) && !Fetches(s, MainLoop(go)))
  {
    ClearFlags(s.chip.intf, s.status);
  }

  lemma OtherStep(s: State, go: bool)
    requires !s.phase.ClearIntf? && !s.phase.Fetch?
    ensures Loop(s, go).chip.intf == s.chip.intf
  {
  }

  lemma ChipStep(s: State, e: Event)
    requires Enabled(s, e) && !e.MainLoop?
    ensures ErrorFlag(Step(s, e).chip) == (e.Error? || ErrorFlag(s.chip))
    ensures ReceiveFlag(Step(s, e).chip) == (e.Received? || ReceiveFlag(s.chip))
    ensures Step(s, e).status == s.status && Step(s, e).phase == s.phase
  {
    RaiseFlags(s.chip.intf);
  }

  lemma StepFlags(s: State, e: Event)
    requires Enabled(s, e)
    ensures ErrorFlag(Step(s, e).chip) == (e.Error? || (ErrorFlag(s.chip) && !TakesDown(s, e)))
    ensures ReceiveFlag(Step(s, e).chip) == (e.Received? || (ReceiveFlag(s.chip) && !Fetches(s, e)))
  {
    if !e.MainLoop? {
      ChipStep(s, e);
    } else if s.phase.ClearIntf? {
      ClearStep(s, e.go);
    } else if s.phase.Fetch? {
      FetchStep(s, e.go);
    } else {
      OtherStep(s, e.go);
    }
  }

  lemma ReadStep(s: State, go: bool)
    requires s.phase.ReadIntf?
    ensures HasErrors(Loop(s, go)) == ErrorFlag(s.chip)
  {
    RaiseFlags(s.chip.intf);
  }

  lemma SameStatus(s: State, go: bool)
    requires !s.phase.ReadIntf?
    ensures Loop(s, go).status == s.status
  {
  }

  lemma StatusStep(s: State, e: Event)
    requires Enabled(s, e)
    ensures HasErrors(Step(s, e)) == if ReadsIntf(s, e) then ErrorFlag(s.chip) else HasErrors(s)
    ensures ReadsIntf(s, e) ==> Updating(Step(s, e)) && !Updating(s)
    ensures TakesDown(s, e) ==> !Updating(Step(s, e)) && Updating(s)
    ensures !ReadsIntf(s, e) && HasErrors(s) && !TakesDown(s, e) ==> Updating(Step(s, e)) == Updating(s)
    ensures !ReadsIntf(s, e) && !Updating(s) ==> !Updating(Step(s, e))
  {
    if !e.MainLoop? {
      ChipStep(s, e);
    } else if s.phase.ReadIntf? {
      ReadStep(s, e.go);
    } else {
      SameStatus(s, e.go);
    }
  }

  // ----- when a flag is up --------------------------------------------------------------

  /** Whether an error has been raised since the flag was last taken down. */
  function Standing(s: State, run: seq<Event>, before: bool): bool
    requires IsRun(s, run)
    decreases |run|
  {
    if run == [] then before
    else Standing(Step(s, run[0]), run[1..], run[0].Error? || (before && !TakesDown(s, run[0])))
  }

  /** Whether a frame has been received since one was last fetched. */
  function Arrived(s: State, run: seq<Event>, before: bool): bool
    requires IsRun(s, run)
    decreases |run|
  {
    if run == [] then before
    else Arrived(Step(s, run[0]), run[1..], run[0].Received? || (before && !Fetches(s, run[0])))
  }

  /** In every run and at every point of it: the error flag is up if and only if
      an error has been raised since the flag was last taken down by a pass
      that had seen it, the receive flag if and only if a frame has come
      since one was last read. */
  lemma {:induction false} FlagsUpIff(s: State, run: seq<Event>)
    requires IsRun(s, run)
    ensures ErrorFlag(Exec(s, run).chip) <==> Standing(s, run, ErrorFlag(s.chip))
    ensures ReceiveFlag(Exec(s, run).chip) <==> Arrived(s, run, ReceiveFlag(s.chip))
    decreases |run|
  {
    if run != [] {
      StepFlags(s, run[0]);
      FlagsUpIff(Step(s, run[0]), run[1..]);
    }
  }

  // ----- errors that are missed ------------------------------------------------------------

  /** Whether an error has been raised since CANINTF was last read. */
  function Raised(s: State, run: seq<Event>, before: bool): bool
    requires IsRun(s, run)
    decreases |run|
  {
    if run == [] then before
    else Raised(Step(s, run[0]), run[1..], run[0].Error? || (before && !ReadsIntf(s, run[0])))
  }

  /** Whether the last error was raised during a pass that had seen the flag
      already and was yet to clear it, and CANINTF has not been read since. */
  function Missed(s: State, run: seq<Event>, before: bool): bool
    requires IsRun(s, run)
    decreases |run|
  {
    if run == [] then before
    else Missed(Step(s, run[0]), run[1..],
                if run[0].Error? then Updating(s) && HasErrors(s) else before && !ReadsIntf(s, run[0]))
  }

  predicate Consistent(s: State, raised: bool, missed: bool) {
    ConsistentWith(Updating(s), HasErrors(s), ErrorFlag(s.chip), raised, missed)
  }

  predicate ConsistentWith(updating: bool, seen: bool, up: bool, raised: bool, missed: bool) {
    if updating && seen then up && raised == missed else raised == (up || missed) && !(up && missed)
  }

  lemma ConsistentStep(s: State, e: Event, raised: bool, missed: bool)
    requires Consistent(s, raised, missed) && Enabled(s, e)
    ensures Consistent(Step(s, e), e.Error? || (raised && !ReadsIntf(s, e)),
                   if e.Error? then Updating(s) && HasErrors(s) else missed && !ReadsIntf(s, e))
  {
    StepFlags(s, e);
    StatusStep(s, e);
  }

  lemma {:induction false} ConsistentRun(s: State, run: seq<Event>, raised: bool, missed: bool)
    requires Consistent(s, raised, missed) && IsRun(s, run)
    ensures Consistent(Exec(s, run), Raised(s, run, raised), Missed(s, run, missed))
    decreases |run|
  {
    if run != [] {
      ConsistentStep(s, run[0], raised, missed);
      ConsistentRun(Step(s, run[0]), run[1..], run[0].Error? || (raised && !ReadsIntf(s, run[0])),
                if run[0].Error? then Updating(s) && HasErrors(s) else missed && !ReadsIntf(s, run[0]));
    }
  }

  /** After mcp2515_update_status the error flag should be up if and only if an
      error has been raised since CANINTF was read. It is, if and only if the
      last error was not raised between the read and the clear of a pass that
      had seen the flag. */
  lemma ErrorFlaggedIff(s: State, run: seq<Event>)
    requires Served(s) && IsRun(s, run) && Served(Exec(s, run))
    ensures ErrorFlag(Exec(s, run).chip) ==> Raised(s, run, ErrorFlag(s.chip))
    ensures (ErrorFlag(Exec(s, run).chip) <==> Raised(s, run, ErrorFlag(s.chip))) <==> !Missed(s, run, false)
  {
    ConsistentRun(s, run, ErrorFlag(s.chip), false);
  }

  // ----- error frames ---------------------------------------------------------------------

  /** Passes of the main loop that find the error flag; each may write an error
      frame. */
  function Passes(s: State, run: seq<Event>): nat
    requires IsRun(s, run)
    decreases |run|
  {
    if run == [] then 0
    else One(ReadsIntf(s, run[0]) && HasErrors(Step(s, run[0]))) + Passes(Step(s, run[0]), run[1..])
  }

  function Errors(run: seq<Event>): nat {
    if run == [] then 0 else One(run[0].Error?) + Errors(run[1..])
  }

  /** A flag not yet seen. */
  predicate Unreported(s: State, raised: bool) {
    if Updating(s) && HasErrors(s) then raised else ErrorFlag(s.chip)
  }

  lemma PassesStep(s: State, e: Event, raised: bool, missed: bool)
    requires Consistent(s, raised, missed) && Enabled(s, e)
    ensures One(ReadsIntf(s, e) && HasErrors(Step(s, e))) + One(Unreported(Step(s, e), e.Error? || (raised && !ReadsIntf(s, e)))) <=
            One(e.Error?) + One(Unreported(s, raised))
  {
    StepFlags(s, e);
    StatusStep(s, e);
  }

  lemma {:induction false} PassesRun(s: State, run: seq<Event>, raised: bool, missed: bool)
    requires Consistent(s, raised, missed) && IsRun(s, run)
    ensures Passes(s, run) <= Errors(run) + One(Unreported(s, raised))
    decreases |run|
  {
    if run != [] {
      ConsistentStep(s, run[0], raised, missed);
      PassesStep(s, run[0], raised, missed);
      PassesRun(Step(s, run[0]), run[1..], run[0].Error? || (raised && !ReadsIntf(s, run[0])),
                if run[0].Error? then Updating(s) && HasErrors(s) else missed && !ReadsIntf(s, run[0]));
    }
  }

  /** An error is reported at most once: no more passes find the flag than
      errors were raised, one left from before included. */
  lemma ErrorsReportedOnce(s: State, run: seq<Event>)
    requires Served(s) && IsRun(s, run)
    ensures Passes(s, run) <= Errors(run) + One(ErrorFlag(s.chip))
  {
    PassesRun(s, run, ErrorFlag(s.chip), false);
  }

  // ----- EFLG, bit by bit -------------------------------------------------------------------

  predicate Has(reg: byte, bit: byte) {
    reg & bit != 0
  }

  predicate IsBit(bit: byte) {
    bit != 0 && bit & (bit - 1) == 0
  }

  predicate Raises(e: Event, bit: byte) {
    e.Error? && Has(e.bits, bit)
  }

  /** The main loop reads EFLG into `error`; it clears what it has read. */
  predicate ReadsEflg(s: State, e: Event) {
    e.MainLoop? && s.phase.ReadEflg? && HasErrors(s)
  }

  predicate ClearsEflg(s: State, e: Event) {
    e.MainLoop? && s.phase.ClearEflg?
  }

  lemma OneBit(x: byte, y: byte, bit: byte)
    requires IsBit(bit)
    ensures Has(x | y, bit) == (Has(x, bit) || Has(y, bit))
    ensures Has(BitModify(x, y, 0), bit) == (Has(x, bit) && !Has(y, bit))
  {
  }

  lemma BitRaised(s: State, bits: byte, bit: byte)
    requires IsBit(bit)
    ensures Has(Step(s, Error(bits)).chip.eflg, bit) == (Has(bits, bit) || Has(s.chip.eflg, bit))
  {
    OneBit(s.chip.eflg, bits, bit);
  }

  lemma BitCleared(s: State, go: bool, bit: byte)
    requires IsBit(bit) && s.phase.ClearEflg?
    ensures Has(Loop(s, go).chip.eflg, bit) == (Has(s.chip.eflg, bit) && !Has(s.error, bit))
  {
    OneBit(s.chip.eflg, s.error, bit);
  }

  lemma SameEflg(s: State, e: Event)
    requires Enabled(s, e) && !e.Error? && !ClearsEflg(s, e)
    ensures Step(s, e).chip.eflg == s.chip.eflg
  {
    match e
    case MainLoop(go) => LoopKeepsEflg(s, go);
    case _ =>
  }

  lemma LoopKeepsEflg(s: State, go: bool)
    requires !s.phase.ClearEflg?
    ensures Loop(s, go).chip.eflg == s.chip.eflg
  {
    match s.phase
    case ReadIntf =>
    case ClearIntf =>
    case Fetch =>
    case _ =>
  }

  lemma ErrorStep(s: State, e: Event)
    requires Enabled(s, e)
    ensures Step(s, e).error == if ReadsEflg(s, e) then s.chip.eflg else s.error
  {
  }

  lemma BitStep(s: State, e: Event, bit: byte)
    requires Enabled(s, e) && IsBit(bit)
    ensures Has(Step(s, e).chip.eflg, bit) ==
            (Raises(e, bit) || (Has(s.chip.eflg, bit) && !(ClearsEflg(s, e) && Has(s.error, bit))))
  {
    if e.Error? {
      BitRaised(s, e.bits, bit);
    } else if ClearsEflg(s, e) {
      BitCleared(s, e.go, bit);
    } else {
      SameEflg(s, e);
    }
  }

  function AnyRaises(run: seq<Event>, bit: byte): bool {
    run != [] && (Raises(run[0], bit) || AnyRaises(run[1..], bit))
  }

  /** Whether the bit is in `error` after some read of EFLG. */
  function Read(s: State, run: seq<Event>, bit: byte): bool
    requires IsRun(s, run)
    decreases |run|
  {
    run != [] && ((ReadsEflg(s, run[0]) && Has(Step(s, run[0]).error, bit)) || Read(Step(s, run[0]), run[1..], bit))
  }

  /** Whether the bit has been raised since EFLG was last read. */
  function Late(s: State, run: seq<Event>, bit: byte, before: bool): bool
    requires IsRun(s, run)
    decreases |run|
  {
    if run == [] then before
    else Late(Step(s, run[0]), run[1..], bit, Raises(run[0], bit) || (before && !ReadsEflg(s, run[0])))
  }

  /** EFLG has been read and cleared in this pass, and not yet read in the next. */
  predicate Cleared(s: State) {
    (s.phase.NoteEmpty? || s.phase.ClearIntf? || s.phase.Load? || s.phase.Fetch?) && HasErrors(s)
  }

  /** `up` in EFLG, `known` from `error`, `late`: raised since the read. */
  predicate BitInv(s: State, up: bool, known: bool, late: bool) {
    (s.phase.ClearEflg? ==> up == (known || late)) && (Cleared(s) ==> (up ==> late) && (late ==> known || up))
  }

  lemma PhaseStep(s: State, e: Event)
    requires Enabled(s, e)
    ensures var t := Step(s, e);
            && (t.phase.ClearEflg? ==> ReadsEflg(s, e) || (s.phase.ClearEflg? && !ClearsEflg(s, e)))
            && (Cleared(t) ==> ClearsEflg(s, e) || Cleared(s))
            && (ReadsEflg(s, e) ==> !e.Error? && t.phase.ClearEflg?) && (ClearsEflg(s, e) ==> !e.Error? && !t.phase.ClearEflg?)
  {
    StatusStep(s, e);
  }

  lemma BitInvStep(s: State, e: Event, bit: byte, late: bool)
    requires Enabled(s, e) && IsBit(bit) && BitInv(s, Has(s.chip.eflg, bit), Has(s.error, bit), late)
    ensures var t := Step(s, e);
            BitInv(t, Has(t.chip.eflg, bit), Has(t.error, bit), Raises(e, bit) || (late && !ReadsEflg(s, e)))
  {
    ErrorStep(s, e);
    BitStep(s, e, bit);
    PhaseStep(s, e);
  }

  lemma {:induction false} BitInvRun(s: State, run: seq<Event>, bit: byte, late: bool)
    requires IsRun(s, run) && IsBit(bit) && BitInv(s, Has(s.chip.eflg, bit), Has(s.error, bit), late)
    ensures var t := Exec(s, run); BitInv(t, Has(t.chip.eflg, bit), Has(t.error, bit), Late(s, run, bit, late))
    decreases |run|
  {
    if run != [] {
      BitInvStep(s, run[0], bit, late);
      BitInvRun(Step(s, run[0]), run[1..], bit, Raises(run[0], bit) || (late && !ReadsEflg(s, run[0])));
    }
  }

  /** Only bits that are in `error` are taken down. */
  lemma {:induction false} BitReadRun(s: State, run: seq<Event>, bit: byte)
    requires IsRun(s, run) && IsBit(bit)
    ensures Has(s.chip.eflg, bit) || AnyRaises(run, bit) || (s.phase.ClearEflg? && Has(s.error, bit)) <==>
            Has(Exec(s, run).chip.eflg, bit) || Read(s, run, bit) || (s.phase.ClearEflg? && Has(s.error, bit))
    decreases |run|
  {
    if run != [] {
      ErrorStep(s, run[0]);
      BitStep(s, run[0], bit);
      PhaseStep(s, run[0]);
      BitReadRun(Step(s, run[0]), run[1..], bit);
    }
  }

  /** No bit of EFLG is lost and none is taken down unread, in any run: a bit has
      been up or raised if and only if it has been read into `error` or is
      still up. After a pass that has reported errors, a bit is up only if it
      was raised since EFLG was read; if it was and is not up, it is in
      `error`. */
  lemma EflgAccounted(s: State, run: seq<Event>, bit: byte)
    requires s.phase.ReadIntf? && IsRun(s, run) && IsBit(bit)
    ensures Has(s.chip.eflg, bit) || AnyRaises(run, bit) <==> Has(Exec(s, run).chip.eflg, bit) || Read(s, run, bit)
    ensures var t := Exec(s, run);
            Cleared(t) ==>
              (Has(t.chip.eflg, bit) ==> Late(s, run, bit, false)) &&
              (Late(s, run, bit, false) ==> Has(t.error, bit) || Has(t.chip.eflg, bit))
  {
    BitReadRun(s, run, bit);
    BitInvRun(s, run, bit, false);
  }

  // ----- one pass ---------------------------------------------------------------------------

  lemma PassBits(intf: byte, eflg: byte)
    ensures BitModify(intf, (intf & 0x3f) & 0x3c, 0) == intf & 0xc3 && BitModify(eflg, eflg, 0) == 0
    ensures (intf & 0x3f) & 0x20 == intf & 0x20 && (intf & 0x3f) & 0x1c == intf & 0x1c
  {
  }

  /** Up to NoteEmpty. */
  lemma ReportedEffect(s: State)
    requires s.phase.ReadEflg?
    ensures Reported(s) == if HasErrors(s) then s.(error := s.chip.eflg, chip := s.chip.(eflg := 0), phase := NoteEmpty)
                           else s.(phase := NoteEmpty)
  {
    PassBits(0, s.chip.eflg);
  }

  /** From NoteEmpty on. */
  lemma NotedEffect(s: State)
    requires s.phase.NoteEmpty?
    ensures var t := Loop(Loop(s, false), false);
            && t.phase.Load? && t.oneShot == s.oneShot && t.status == s.status && t.error == s.error
            && t.chip == s.chip.(intf := BitModify(s.chip.intf, s.status & 0x3c, 0))
            && t.txEmpty == (s.txEmpty || s.status & 0x1c != 0)
  {
  }

  /** mcp2515_update_status with nothing in between, register by register. */
  lemma UpdateEffect(s: State)
    requires s.phase.ReadIntf?
    ensures var t := Update(s); var c, c' := s.chip, t.chip;
            && t.phase.Load? && t.oneShot == s.oneShot && t.status == c.intf & 0x3f
            && c'.intf == c.intf & 0xc3 && c'.txreq == c.txreq && c'.finishing == c.finishing
            && t.txEmpty == (s.txEmpty || c.intf & 0x1c != 0)
            && (if c.intf & 0x20 != 0 then t.error == c.eflg && c'.eflg == 0 else t.error == s.error && c'.eflg == c.eflg)
  {
    PassBits(s.chip.intf, s.chip.eflg);
    ReportedEffect(Loop(s, false));
    NotedEffect(Reported(Loop(s, false)));
  }

  /** Reading a frame takes down the flag of the buffer read, and nothing else. */
  lemma FetchEffect(s: State, go: bool)
    requires s.phase.Fetch?
    ensures var t := Loop(s, go);
            && t == s.(phase := ReadIntf, chip := s.chip.(intf := t.chip.intf))
            && t.chip.intf == if Fetches(s, MainLoop(go)) then s.chip.intf & 0xfe else s.chip.intf
  {
    OnlyBitZero(s.chip.intf);
  }

  lemma OnlyBitZero(intf: byte)
    ensures BitModify(intf, 0x01, 0) == intf & 0xfe
  {
  }

  // ----- an error nobody hears of ---------------------------------------------------------------

  /** Raised between the read of EFLG and the masked clear. */
  function Unlucky(): seq<Event> {
    [MainLoop(false), MainLoop(false), Error(0x40), MainLoop(false), MainLoop(false), MainLoop(false)]
  }

  predicate Silent(s: State, bit: byte) {
    Has(s.chip.eflg, bit) && !ErrorFlag(s.chip) && !s.phase.ClearEflg? && (Updating(s) ==> !HasErrors(s))
  }

  lemma SilentStep(s: State, e: Event, bit: byte)
    requires Silent(s, bit) && Enabled(s, e) && !e.Error? && IsBit(bit)
    ensures Silent(Step(s, e), bit)
  {
    BitStep(s, e, bit);
    StepFlags(s, e);
    StatusStep(s, e);
    PhaseStep(s, e);
  }

  lemma {:induction false} SilentRun(s: State, run: seq<Event>, bit: byte)
    requires Silent(s, bit) && IsRun(s, run) && Errors(run) == 0 && IsBit(bit)
    ensures Silent(Exec(s, run), bit) && Passes(s, run) == 0
    decreases |run|
  {
    if run != [] {
      SilentStep(s, run[0], bit);
      StatusStep(s, run[0]);
      SilentRun(Step(s, run[0]), run[1..], bit);
    }
  }

  /** Two errors are flagged, one is reported: the second stays in EFLG with the
      flag down. */
  lemma UnluckyError(s: State) returns (t: State)
    requires s.phase.ReadIntf? && s.chip.intf == 0x20 && s.chip.eflg == 0x08
    ensures IsRun(s, Unlucky()) && t == Exec(s, Unlucky()) && Missed(s, Unlucky(), false)
    ensures t.phase.Load? && t.error == 0x08 && t.chip.eflg == 0x40 && t.chip.intf == 0
    ensures forall more | IsRun(t, more) && Errors(more) == 0 :: Passes(t, more) == 0 && Has(Exec(t, more).chip.eflg, 0x40)
  {
    t := Exec(s, Unlucky());
    UnluckyPass(s);
    forall more | IsRun(t, more) && Errors(more) == 0
      ensures Passes(t, more) == 0 && Has(Exec(t, more).chip.eflg, 0x40)
    {
      SilentRun(t, more, 0x40);
    }
  }

  lemma UnluckyPass(s: State)
    requires s.phase.ReadIntf? && s.chip.intf == 0x20 && s.chip.eflg == 0x08
    ensures IsRun(s, Unlucky()) && Missed(s, Unlucky(), false)
    ensures var t := Exec(s, Unlucky()); t.phase.Load? && t.error == 0x08 && t.chip.eflg == 0x40 && t.chip.intf == 0
  {
    var a := Loop(s, false);
    assert a.phase.ReadEflg? && a.status == 0x20 && a.chip == s.chip;
    var b := Loop(a, false);
    assert b.phase.ClearEflg? && b.status == 0x20 && b.error == 0x08 && b.chip == s.chip;
    var c := Step(b, Error(0x40));
    assert c == b.(chip := b.chip.(intf := 0x20, eflg := 0x48));
    var d := Loop(c, false);
    assert d.phase.NoteEmpty? && d.status == 0x20 && d.error == 0x08 && d.chip.intf == 0x20 && d.chip.eflg == 0x40;
    NotedEffect(d);
  }
}
