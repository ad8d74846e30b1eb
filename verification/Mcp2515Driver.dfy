/** The static variables of firmware/mcp2515.c and the register accesses that go
    with them. */
module Mcp2515Driver {
  import opened Wire
  import opened Mcp2515Codec
  import opened Flags = Mcp2515Flags

  /** struct can_config, checked by the driver's bit-timing limits. */
  datatype Config = Config(mode: byte, propSeg: byte, phaseSeg1: byte, phaseSeg2: byte, sjw: byte, brp: byte)

  predicate ValidConfig(c: Config) {
    1 <= c.propSeg <= 8 && 1 <= c.phaseSeg1 <= 8 && 1 <= c.phaseSeg2 <= 8 && 1 <= c.sjw <= 4 && 1 <= c.brp <= 64
  }

  function OneShotMode(c: Config): bool {
    c.mode & 0x08 != 0
  }

  // ----- configuration registers -----------------------------------------------------

  datatype Timing = Timing(cnf1: byte, cnf2: byte, cnf3: byte)

  function Pack(c: Config): Timing {
    Timing(((c.sjw - 1) << 6) | (c.brp - 1),
           0x80 | (if c.mode & 0x04 != 0 then 0x40 else 0) | ((c.phaseSeg1 - 1) << 3) | (c.propSeg - 1),
           c.phaseSeg2 - 1)
  }

  /** How the controller reads CNF1 to CNF3. */
  lemma TimingRoundTrip(c: Config)
    requires ValidConfig(c)
    ensures var t := Pack(c);
            && (t.cnf1 >> 6) + 1 == c.sjw && (t.cnf1 & 0x3f) + 1 == c.brp
            && ((t.cnf2 >> 3) & 7) + 1 == c.phaseSeg1 && (t.cnf2 & 7) + 1 == c.propSeg
            && (t.cnf2 & 0x40 != 0 <==> c.mode & 0x04 != 0) && t.cnf2 & 0x80 != 0
            && (t.cnf3 & 7) + 1 == c.phaseSeg2
  {
  }

  /** The request for an operating mode; loopback wins over listen-only. */
  function ReqOp(mode: byte): byte {
    if mode & 0x01 != 0 then 0x40 else if mode & 0x02 != 0 then 0x60 else 0x00
  }

  function StartCtrl(ctrl: byte, mode: byte): byte {
    (ctrl & 0x1f) | (if mode & 0x08 != 0 then 0x08 else 0) | ReqOp(mode)
  }

  function StopCtrl(ctrl: byte): byte {
    (ctrl & 0x17) | 0x80
  }

  /** What the controller makes of the upper three bits of CANCTRL, and what the
      mode byte of the settings calls for. */
  datatype OperatingMode = Normal | Sleep | Loopback | ListenOnly | Configuration | Invalid

  function Requested(canctrl: byte): OperatingMode {
    match (canctrl >> 5) as int
    case 0 => Normal
    case 1 => Sleep
    case 2 => Loopback
    case 3 => ListenOnly
    case 4 => Configuration
    case _ => Invalid
  }

  predicate Wanted(mode: byte, m: OperatingMode) {
    match m
    case Loopback => mode % 2 == 1
    case ListenOnly => mode % 4 == 2
    case Normal => mode % 4 == 0
    case _ => false
  }

  lemma ModeIsUnique(mode: byte)
    ensures exists m :: Wanted(mode, m)
    ensures forall m, n | Wanted(mode, m) && Wanted(mode, n) :: m == n
  {
    assert Wanted(mode, if mode % 2 == 1 then Loopback else if mode % 4 == 2 then ListenOnly else Normal);
  }

  /** A start asks for exactly the configured mode, a stop for configuration mode;
      after a stop the one-shot bit too is the configured one, while a start
      after a start keeps an old one. Neither touches the other bits. */
  lemma CtrlAfterStart(ctrl: byte, mode: byte)
    ensures Wanted(mode, Requested(StartCtrl(ctrl, mode))) && Requested(StopCtrl(ctrl)) == Configuration
    ensures StartCtrl(ctrl, mode) & 0x17 == StopCtrl(ctrl) & 0x17 == ctrl & 0x17
    ensures StartCtrl(StopCtrl(ctrl), mode) & 0x08 != 0 <==> mode & 0x08 != 0
    ensures StartCtrl(ctrl, mode) & 0x08 != 0 <==> mode & 0x08 != 0 || ctrl & 0x08 != 0
    ensures StopCtrl(StartCtrl(ctrl, mode)) == StopCtrl(ctrl)
  {
  }

  // ----- the driver ---------------------------------------------------------------------

  class Mcp2515 {
    var ctrl: byte
    var status: byte
    var txEmpty: bool
    var error: byte
    var config: Config
    var chip: Chip
    var canctrl: byte
    var timing: Timing

    constructor (chip: Chip)
      ensures this.chip == chip && !txEmpty && config == Config(0, 0, 0, 0, 0, 0)
    {
      this.chip := chip;
      ctrl, status, txEmpty, error := 0x85, 0, false, 0;
      config := Config(0, 0, 0, 0, 0, 0);
      canctrl := 0x85;
      timing := Timing(0, 0, 0);
    }

    /** The driver as a state of the handshake. */
    ghost function At(phase: Phase): Flags.State
      reads this
    {
      Flags.State(phase, status, error, txEmpty, OneShotMode(config), chip, 0, 0, 0, false)
    }

    /** mcp2515_update_status with no event of the controller in between: the
        transfers of Mcp2515Flags from ReadIntf to the load, and no others. */
    method UpdateStatus()
      modifies this`status, this`error, this`txEmpty, this`chip
      ensures At(Load) == Quiet(Update(old(At(ReadIntf))))
    {
      status := chip.intf;
      status := status & 0x3f;
      TakeErrors();
      NoteAndClear();
    }

    /** EFLG is read, and exactly what was read is cleared. */
    method TakeErrors()
      modifies this`error, this`chip
      ensures At(NoteEmpty) == Reported(old(At(ReadEflg)))
    {
      if status & 0x20 != 0 {
        error := chip.eflg;
        chip := chip.(eflg := BitModify(chip.eflg, error, 0));
      }
    }

    /** tx_empty, then the masked clear of the flags seen. */
    method NoteAndClear()
      modifies this`txEmpty, this`chip
      ensures At(Load) == Quiet(Loop(Loop(old(At(NoteEmpty)), false), false))
    {
      if status & 0x1c != 0 {
        txEmpty := true;
      }
      chip := chip.(intf := BitModify(chip.intf, status & 0x3c, 0));
    }

    /** mcp2515_txbuf_empty */
    method TxbufEmptyNow() returns (empty: bool)
      ensures empty == TxbufEmpty(At(Load))
    {
      empty := if OneShotMode(config) then true else txEmpty;
    }

    /** The second critical section of buffer_tx_process, as far as the
        controller goes: the frame waiting is loaded if the buffer is empty. */
    method TryLoad(waiting: seq<CanFrame>) returns (spi: seq<seq<byte>>)
      requires |waiting| <= 1 && forall f | f in waiting :: ValidFrame(f)
      modifies this`txEmpty, this`chip
      ensures At(Fetch) == Quiet(Loop(old(At(Load)), |waiting| == 1))
      ensures spi == if |waiting| == 1 && old(TxbufEmpty(At(Load))) then [TxBytes(waiting[0])] else []
    {
      spi := [];
      var empty := TxbufEmptyNow();
      if |waiting| == 1 && empty {
        var bytes := SendFrame(waiting[0]);
        spi := [bytes];
      }
    }

    /** mcp2515_tx: the SPI bytes, then the transmit request. */
    method SendFrame(f: CanFrame) returns (spi: seq<byte>)
      requires ValidFrame(f)
      modifies this`txEmpty, this`chip
      ensures spi == TxBytes(f)
      ensures old(TxbufEmpty(At(Load))) ==> At(Fetch) == Quiet(Loop(old(At(Load)), true))
    {
      txEmpty := false;
      spi := Tx(f);
      chip := chip.(txreq := true);
    }

    /** mcp2515_start; the arithmetic is that of uint8_t whatever the settings.
        TXREQ is not touched. */
    method StartController()
      modifies this`ctrl, this`canctrl, this`timing, this`txEmpty
      ensures timing == Pack(config) && canctrl == ctrl == StartCtrl(old(ctrl), config.mode)
      ensures forall phase | phase in SERVED :: At(phase) == Flags.Step(old(At(phase)), Start)
    {
      var t := Pack(config);
      ctrl := ctrl & 0x1f;
      if config.mode & 0x08 != 0 {
        ctrl := ctrl | 0x08;
      }
      if config.mode & 0x01 != 0 {
        ctrl := ctrl | 0x40;
      } else if config.mode & 0x02 != 0 {
        ctrl := ctrl | 0x60;
      } else {
        ctrl := ctrl | 0x00;
      }
      timing := t;
      canctrl := ctrl;
      txEmpty := true;
    }

    /** CANCTRL asks for configuration mode, the one-shot bit is cleared. */
    method ToConfiguration()
      modifies this`ctrl, this`canctrl
      ensures canctrl == ctrl == StopCtrl(old(ctrl))
    {
      ctrl := ctrl & 0x17;
      ctrl := ctrl | 0x80;
      canctrl := ctrl;
    }

    /** mcp2515_stop: back to configuration mode, TXREQ cleared. `onAir` says
        that the controller is sending the pending frame. */
    method StopController(onAir: bool)
      modifies this`ctrl, this`canctrl, this`timing, this`chip
      ensures canctrl == ctrl == StopCtrl(old(ctrl)) && timing == Timing(0, 0, 0)
      ensures forall phase | phase in SERVED :: At(phase) == Flags.Step(old(At(phase)), Stop(onAir))
    {
      ToConfiguration();
      chip := chip.(txreq := false, finishing := chip.finishing || (chip.txreq && onAir));
      timing := Timing(0, 0, 0);
    }

    /** The data stage of ATUSB_CAN_PUT_CONFIG, as far as the handshake can
        tell: mcp2515_txbuf_empty reads the mode at every load. */
    method Configure(c: Config)
      modifies this`config
      ensures config == c
      ensures forall phase | phase in SERVED :: At(phase) == Flags.Step(old(At(phase)), Event.Configure(OneShotMode(c)))
    {
      config := c;
    }

    /** CAN_STOP, CAN_START: the controller is asked for exactly the configured
        mode; when no frame will be overwritten. */
    method Restart(phase: Phase, onAir: bool)
      requires phase in SERVED
      modifies this
      ensures config == old(config)
      ensures Wanted(config.mode, Requested(canctrl)) && (canctrl & 0x08 != 0 <==> OneShotMode(config))
      ensures NeverClobbers(At(phase)) <==>
              !OneShotMode(config) && !(old(chip.txreq) && onAir) && !old(chip.finishing) && (phase.Load? ==> !TxDone(chip))
    {
      CtrlAfterStart(ctrl, config.mode);
      CtrlAfterStart(StopCtrl(ctrl), config.mode);
      StartNeedsStop(At(phase), onAir);
      StopController(onAir);
      StartController();
    }
  }

  const SERVED: set<Phase> := {ReadIntf, Load, Fetch}

  /** The error branch of update_status: read EFLG and clear what was read. */
  function Reported(s: Flags.State): Flags.State {
    var a := Loop(s, false);
    if a.phase.ClearEflg? then Loop(a, false) else a
  }

  /** The handshake from ReadIntf to the load. */
  function Update(s: Flags.State): Flags.State {
    Loop(Loop(Reported(Loop(s, false)), false), false)
  }

  /** The history fields of the handshake, which the driver does not keep. */
  function Quiet(s: Flags.State): Flags.State {
    s.(loaded := 0, completed := 0, noticed := 0, clobbered := false)
  }
}
