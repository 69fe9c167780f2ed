/**
  How a control request ends, by what the polls of its stages find, and what becomes of one
  that has failed.
*/
module RequestEnds {
  import opened Channel
  import opened Control
  import opened Hcs
  import opened HostCore

  /** The stage under way is the data stage or the status stage, IN or OUT. */
  predicate InDirection(c: Ctrl) { c.state.CTRL_DATA_IN_WAIT? || c.state.CTRL_STATUS_IN_WAIT? }

  predicate OutDirection(c: Ctrl) { c.state.CTRL_DATA_OUT_WAIT? || c.state.CTRL_STATUS_OUT_WAIT? }

  /** The last stage is reported done. */
  predicate LastDone(c: Ctrl, p: Poll) {
    || (c.state.CTRL_STATUS_IN_WAIT? && p.urbIn == URB_DONE)
    || (c.state.CTRL_STATUS_OUT_WAIT? && p.urbOut == URB_DONE)
  }

  /** The device refuses: it stalls a data stage, or an IN status stage before its time is
      over. A stalled OUT status stage goes unnoticed. */
  predicate Refused(c: Ctrl, p: Poll) {
    || (c.state.CTRL_DATA_IN_WAIT? && p.urbIn == URB_STALL)
    || (c.state.CTRL_DATA_OUT_WAIT? && p.urbOut == URB_STALL)
    || (c.state.CTRL_STATUS_IN_WAIT? && p.urbIn == URB_STALL && !p.timedOut)
  }

  /** Something has gone wrong on the bus: an error in any stage, or an IN stage that takes
      too long and has not been refused, or done if it is the last. */
  predicate Faulty(c: Ctrl, p: Poll) {
    || ((c.state.CTRL_SETUP_WAIT? || OutDirection(c)) && p.urbOut == URB_ERROR)
    || (InDirection(c) && p.urbIn == URB_ERROR)
    || (InDirection(c) && p.timedOut && !LastDone(c, p) && !Refused(c, p))
  }

  /** A request ends as complete exactly if its last stage is reported done, as stalled
      exactly if it is refused, and in error exactly if the fault is the third or a later one
      of the error counter, which wraps; a fault that does not end it begins it anew with its
      SETUP, and an OUT stage for which the device is not ready is sent again. */
  predicate EndsRight(c: Ctrl, p: Poll, d: Ctrl, ends: bool) {
    && (ends && d.state == CTRL_COMPLETE <==> LastDone(c, p))
    && (ends && d.state == CTRL_STALLED <==> Refused(c, p))
    && (ends && d.state == CTRL_ERROR <==> c.state == CTRL_ERROR && 2 <= c.errorCount < 255)
    && (ends ==> d.state in {CTRL_COMPLETE, CTRL_STALLED, CTRL_ERROR})
    && (!ends && d.state == CTRL_ERROR <==> Faulty(c, p))
    && (c.state == CTRL_ERROR && !ends ==> d.state == CTRL_SETUP && d.setup == c.setup)
    && (OutDirection(c) && p.urbOut == URB_NOTREADY ==>
          d.state == if c.state.CTRL_DATA_OUT_WAIT? then CTRL_DATA_OUT else CTRL_STATUS_OUT)
  }

  lemma StepEnds(c: Ctrl, s: Channels, p: Poll)
    requires Piped(c, s) && c.state !in {CTRL_IDLE, CTRL_STALLED, CTRL_COMPLETE}
    ensures var o := HandleControl(c, s, p);
            EndsRight(c, p, o.ctrl, o.back)
  {
  }

  /** So it does in every run. */
  lemma RequestEndsIff(h: Host, inputs: seq<Input>, i: Input)
    requires HostCore.Initial(h) && HostCore.Run(h, inputs)
    ensures var f, g := After(h, inputs), Process(After(h, inputs), i);
            f.gState.HOST_CTRL_XFER? && i.connected && i.enabled ==>
              && (g.gState.HOST_ENUMERATION? || g.gState.HOST_CTRL_XFER?)
              && EndsRight(f.ctrl, i.poll, g.ctrl, g.gState.HOST_ENUMERATION?)
  {
    InitialInv(h);
    HostCore.RunInv(h, inputs);
    var f := After(h, inputs);
    hide HostCore.Run, After, Initial, HandleControl, EndsRight;
    if f.gState.HOST_CTRL_XFER? && i.connected && i.enabled {
      StepEnds(f.ctrl, f.s, i.poll);
    }
  }

  ghost predicate Repeats(f: Host, i: Input, j: Input)
    requires Ready(f)
  {
    var g := Process(f, i);
    && Ready(g) && g.gState.HOST_ENUMERATION? && g.completed == f.completed && g.enumState == f.enumState
    && var r := Process(g, j);
       && r.gState.HOST_CTRL_XFER? && r.ctrl.state == CTRL_SETUP && r.ctrl.setup == f.ctrl.setup
       && r.enumState == f.enumState && r.completed == f.completed
  }

  /** A request that was refused or has failed is not the end of enumeration, which does not
      look at why: it makes the same request again, for as long as the device is there. */
  lemma FailedRequestRepeats(h: Host, inputs: seq<Input>, i: Input, j: Input)
    requires HostCore.Initial(h) && HostCore.Run(h, inputs)
    requires i.connected && i.enabled && j.connected && j.enabled
    requires var f := After(h, inputs);
             f.gState.HOST_ENUMERATION? && f.ctrl.state in {CTRL_STALLED, CTRL_ERROR} && f.request.CMD_WAIT?
    ensures Repeats(After(h, inputs), i, j)
  {
    InitialInv(h);
    HostCore.RunInv(h, inputs);
    var f := After(h, inputs);
    hide HostCore.Run, After, Initial;
    ProcessInv(f, i);
    FailedAgain(f, i, j);
  }

  lemma FailedAgain(f: Host, i: Input, j: Input)
    requires HostCore.Inv(f) && i.connected && i.enabled && j.connected && j.enabled
    requires f.gState.HOST_ENUMERATION? && f.ctrl.state in {CTRL_STALLED, CTRL_ERROR} && f.request.CMD_WAIT?
    ensures Repeats(f, i, j)
  {
    hide Stages, ChannelInv, AddressInv, HandleControl, Request;
  }
}
