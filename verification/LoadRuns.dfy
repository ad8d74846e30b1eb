/** Loading a frame into the CAN controller: the ring's side of the decision and
    the controller's side. */
module LoadRuns {
  import opened Wire
  import B = BufferSpec
  import opened Pipeline
  import Handshake = Mcp2515Flags

  /** buffer_tx_process and the handshake take the same decision. In a state that
      cannot overwrite a frame, one leaves the queue only into a transmit
      buffer whose last frame is done with, and claims it. */
  lemma LoadsTogether(b: B.Buffer, s: Handshake.State)
    requires s.phase.Load?
    ensures var loads := B.CanSend(b, Handshake.TxbufEmpty(s)); var t := Handshake.Loop(s, |b.queue| > 0);
            && t.loaded == s.loaded + (if loads then 1 else 0)
            && (loads ==> t.chip.txreq && !t.txEmpty && |B.TxSend(b).queue| == |b.queue| - 1)
            && (!loads ==> t == s.(phase := t.phase))
            && (loads && Handshake.Inv(s) ==> !Handshake.Busy(s.chip))
  {
  }

  /** Turns of the main loop that find the transmit buffer empty. */
  function Chances(run: seq<Event>): nat {
    if run == [] then 0 else (if run[0] == SendFrame(true) then 1 else 0) + Chances(run[1..])
  }

  lemma LoadStep(s: State, e: Event)
    requires Enabled(s, e)
    ensures Step(s, e).loaded == s.loaded || (e == SendFrame(true) && |Step(s, e).loaded| == |s.loaded| + 1)
  {
  }

  /** In every run: no more frames are loaded than times the transmit buffer was
      found empty. */
  lemma {:induction false} LoadedWhenEmpty(s: State, run: seq<Event>)
    requires IsRun(s, run)
    ensures |Exec(s, run).loaded| <= |s.loaded| + Chances(run)
    decreases |run|
  {
    if run != [] {
      LoadStep(s, run[0]);
      LoadedWhenEmpty(Step(s, run[0]), run[1..]);
    }
  }
}
