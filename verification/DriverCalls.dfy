/** The driver's entry points, each called with nothing running in between, are
    runs of the pipeline. So what they do to the driver is what the theorems
    about all runs speak of. */
module DriverCalls {
  import opened Wire
  import opened HostSpec
  import opened Pipeline
  import opened PipelineInvariant
  import opened PipelineTheorems

  // ----- start_xmit -------------------------------------------------------------

  lemma CheckTakes(s: State, f: CanFrame, junk: seq<byte>)
    requires Enabled(s, Check(f, junk))
    ensures var t := Step(s, Check(f, junk));
            t.host.xmit.Checked? == HasContext(s.host) && (!HasContext(s.host) ==> t.host == s.host) &&
            t.host == XmitCheck(s.host, EncodeFrame(f, junk)) && t.wire == s.wire
  {
  }

  /** The network core calls start_xmit while the queue runs: one event if there
      is no context, four otherwise. */
  lemma StartXmitIsRun(s: State, f: CanFrame, junk: seq<byte>, ok: bool) returns (run: seq<Event>)
    requires s.host.xmit.NoXmit? && !s.host.stopped && ValidFrame(f) && |junk| == 8
    ensures IsRun(s, run)
    ensures run == if HasContext(s.host) then [Check(f, junk)] + [Stop] + [Charge] + [Submit(ok)] else [Check(f, junk)]
    ensures Exec(s, run).host == StartXmit(s.host, EncodeFrame(f, junk), ok)
    ensures Exec(s, run).wire ==
            if HasContext(s.host) && ok then s.wire + [Urb(FirstFree(s.host.echo, 0), EncodeFrame(f, junk))] else s.wire
  {
    run := [Check(f, junk)];
    OneStep(s, run[0]);
    CheckTakes(s, f, junk);
    if HasContext(s.host) {
      OneMore(s, run, Stop);
      run := run + [Stop];
      OneMore(s, run, Charge);
      run := run + [Charge];
      OneMore(s, run, Submit(ok));
      run := run + [Submit(ok)];
    }
  }

  // ----- read callback ------------------------------------------------------------

  lemma PassedFrames(f: Flight, skbs: nat)
    requires ParseReport(f.bytes).Report?
    ensures Passed(f.bytes, skbs) == if skbs < |Carried(f)| then Carried(f)[..skbs] else Carried(f)
  {
  }

  /** A read URB completes with the oldest report: stored and tested if there
      are socket buffers for all its frames, dropped otherwise. What is passed
      on joins the frames kept. */
  lemma ReadCallbackIsRun(s: State, skbs: nat, again: bool) returns (run: seq<Event>)
    requires FlowInv(s) && s.host.waking == [] && s.transit != [] && s.readers > 0
    ensures IsRun(s, run)
    ensures run == if |Carried(s.transit[0])| <= skbs then [Set] + [Wake] else [Drop(skbs, again)]
    ensures Exec(s, run).host == ReadCallback(s.host, s.transit[0].bytes, skbs)
    ensures Kept(Exec(s, run).handed) == Kept(s.handed) + Passed(s.transit[0].bytes, skbs)
  {
    HeadReport(s);
    PassedFrames(s.transit[0], skbs);
    if |Carried(s.transit[0])| <= skbs {
      run := [Set];
      SetFrame(s);
      OneStep(s, Set);
      PassedOn(s, Set);
      OneMore(s, run, Wake);
      run := run + [Wake];
    } else {
      run := [Drop(skbs, again)];
      DropFrame(s, skbs, again);
      OneStep(s, run[0]);
      PassedOn(s, run[0]);
    }
  }

  // ----- write callback -------------------------------------------------------------

  lemma WriteCallbackIsRun(s: State, present: bool) returns (run: seq<Event>)
    requires s.host.releasing == [] && s.acked != [] && s.acked[0] < MAX_TX_URBS == |s.host.echo|
    ensures run == [Completed] + [Released(present)] && IsRun(s, run)
    ensures var h, t := s.host, Exec(s, run).host;
            && t == h.(active := t.active, echo := t.echo)
            && t.active == h.active - 1
            && t.echo == (if present then h.echo[s.acked[0] := MAX_TX_URBS] else h.echo)
  {
    run := [Completed];
    OneStep(s, Completed);
    OneMore(s, run, Released(present));
    run := run + [Released(present)];
  }
}
