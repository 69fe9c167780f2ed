/**
  The control machine and the two channels of the default pipe together: every poll
  finds what the channel has published, and every submission goes to a channel. The
  hardware raises interrupts on a channel from a submission until the channel is halted.
*/
module ControlBus {
  import opened Channel
  import opened Hcs
  import opened Control

  /** `busy`: the host is in HOST_CTRL_XFER. A channel is live from a submission until
      its channel-halted has been handled. */
  datatype Bus = Bus(
    ctrl: Ctrl, s: Channels, busy: bool, out: Traced, inp: Traced, outLive: bool, inLive: bool)

  datatype BusEvent =
    | Request(x: Setup)
    | Look(timedOut: bool)        // a call of USBH_HandleControl
    | OutInterrupt(hcint: Ints)
    | InInterrupt(hcint: Ints)

  predicate SendsOut(state: CtrlState) { state.CTRL_SETUP? || state.CTRL_DATA_OUT? || state.CTRL_STATUS_OUT? }

  predicate SendsIn(state: CtrlState) { state.CTRL_DATA_IN? || state.CTRL_STATUS_IN? }

  predicate WaitsForOut(state: CtrlState) {
    state.CTRL_SETUP_WAIT? || state.CTRL_DATA_OUT_WAIT? || state.CTRL_STATUS_OUT_WAIT?
  }

  predicate WaitsForIn(state: CtrlState) { state.CTRL_DATA_IN_WAIT? || state.CTRL_STATUS_IN_WAIT? }

  ghost predicate Enabled(b: Bus, e: BusEvent) {
    && Piped(b.ctrl, b.s)
    && match e
       case Request(_) => !b.busy
       case Look(_) => b.busy
       case OutInterrupt(_) => b.outLive
       case InInterrupt(_) => b.inLive
  }

  ghost function Apply(b: Bus, e: BusEvent): Bus
    requires Enabled(b, e)
  {
    match e
    case Request(x) =>
      b.(busy := true, ctrl := b.ctrl.(setup := x, length := x.wLength, state := CTRL_SETUP, restarts := 0))
    case Look(timedOut) =>
      var o := HandleControl(b.ctrl, b.s, Poll(b.out.c.urb, b.inp.c.urb, timedOut));
      var toOut, toIn := SendsOut(b.ctrl.state), SendsIn(b.ctrl.state);
      Bus(o.ctrl, o.s, !o.back,
          if toOut then Channel.Step(b.out, Resubmit) else b.out,
          if toIn then Channel.Step(b.inp, Resubmit) else b.inp,
          b.outLive || toOut, b.inLive || toIn)
    case OutInterrupt(hcint) =>
      b.(out := Channel.Step(b.out, Interrupt(hcint)), outLive := !Halts(b.out, hcint))
    case InInterrupt(hcint) =>
      b.(inp := Channel.Step(b.inp, Interrupt(hcint)), inLive := !Halts(b.inp, hcint))
  }

  /** No request yet, and both channels as USB_OTG_HC_Init leaves them. */
  ghost predicate Initial(b: Bus) {
    && Piped(b.ctrl, b.s) && !b.busy && !b.outLive && !b.inLive
    && b.out == Opened(CTRL, false, b.out.c.status) && b.inp == Opened(CTRL, true, b.inp.c.status)
  }

  ghost predicate Run(b: Bus, events: seq<BusEvent>)
    decreases |events|
  {
    events != [] ==> Enabled(b, events[0]) && Run(Apply(b, events[0]), events[1..])
  }

  ghost function Final(b: Bus, events: seq<BusEvent>): Bus
    requires Run(b, events)
    decreases |events|
  {
    if events == [] then b else Final(Apply(b, events[0]), events[1..])
  }

  /** The machine stops waiting for an IN stage while its channel has not been halted. */
  predicate GivesUp(b: Bus, e: BusEvent) { e == Look(true) && WaitsForIn(b.ctrl.state) && b.inLive }

  ghost predicate Patient(b: Bus, events: seq<BusEvent>)
    requires Run(b, events)
    decreases |events|
  {
    events != [] ==> !GivesUp(b, events[0]) && Patient(Apply(b, events[0]), events[1..])
  }

  lemma {:induction false} RunAppend(b: Bus, first: seq<BusEvent>, second: seq<BusEvent>)
    requires Run(b, first) && Run(Final(b, first), second)
    ensures Run(b, first + second) && Final(b, first + second) == Final(Final(b, first), second)
    ensures Patient(b, first) && Patient(Final(b, first), second) ==> Patient(b, first + second)
    decreases |first|
  {
    hide Enabled, Apply;
    if first == [] {
      assert first + second == second;
    } else {
      assert (first + second)[1..] == first[1..] + second;
      RunAppend(Apply(b, first[0]), first[1..], second);
    }
  }

  // -- The invariant ---------------------------------------------------------------

  /** The direction of each stage. */
  predicate StageInv(c: Ctrl) {
    match c.state
    case CTRL_DATA_IN => c.setup.d2h && c.setup.wLength != 0
    case CTRL_DATA_IN_WAIT => c.setup.d2h && c.setup.wLength != 0
    case CTRL_DATA_OUT => !c.setup.d2h && c.setup.wLength != 0
    case CTRL_DATA_OUT_WAIT => !c.setup.d2h && c.setup.wLength != 0
    case CTRL_STATUS_IN => !c.setup.d2h
    case CTRL_STATUS_IN_WAIT => !c.setup.d2h
    case CTRL_STATUS_OUT => c.setup.d2h
    case CTRL_STATUS_OUT_WAIT => c.setup.d2h
    case _ => true
  }

  ghost predicate Inv(b: Bus) {
    && Piped(b.ctrl, b.s)
    && LiveInv(b.out, b.outLive, false) && LiveInv(b.inp, b.inLive, true)
    && (b.outLive ==> b.busy && WaitsForOut(b.ctrl.state))
    && (b.busy ==> StageInv(b.ctrl) && b.ctrl.state !in {CTRL_IDLE, CTRL_STALLED, CTRL_COMPLETE})
  }

  /** A transfer is still going on for which nobody waits any more. */
  predicate LeftBehind(b: Bus) { b.inLive && !(b.busy && WaitsForIn(b.ctrl.state)) }

  /** A submission is waited for, and the wait goes on while there is no outcome. */
  lemma Moves(c: Ctrl, s: Channels, p: Poll)
    requires Piped(c, s) && StageInv(c) && c.state !in {CTRL_IDLE, CTRL_STALLED, CTRL_COMPLETE}
    ensures var o := HandleControl(c, s, p);
            && Piped(o.ctrl, o.s)
            && (!o.back ==> StageInv(o.ctrl) && o.ctrl.state !in {CTRL_IDLE, CTRL_STALLED, CTRL_COMPLETE})
            && (SendsOut(c.state) ==> !o.back && WaitsForOut(o.ctrl.state))
            && (SendsIn(c.state) ==> !o.back && WaitsForIn(o.ctrl.state))
            && ((WaitsForOut(c.state) && p.urbOut == URB_IDLE)
                || (WaitsForIn(c.state) && p.urbIn == URB_IDLE && !p.timedOut) ==>
                  !o.back && o.ctrl.state == c.state)
  {
  }

  lemma LookInv(b: Bus, timedOut: bool)
    requires Inv(b) && !LeftBehind(b) && Enabled(b, Look(timedOut)) && !GivesUp(b, Look(timedOut))
    ensures Inv(Apply(b, Look(timedOut))) && !LeftBehind(Apply(b, Look(timedOut)))
  {
    hide HandleControl, StageInv, Channel.Inv, Channel.Step;
    Moves(b.ctrl, b.s, Poll(b.out.c.urb, b.inp.c.urb, timedOut));
    SubmitInv(b.out, b.outLive, false);
    SubmitInv(b.inp, b.inLive, true);
    NoCompletionWaits(b.out, b.outLive, false);
    NoCompletionWaits(b.inp, b.inLive, true);
  }

  lemma StepInv(b: Bus, e: BusEvent)
    requires Inv(b) && !LeftBehind(b) && Enabled(b, e) && !GivesUp(b, e)
    ensures Inv(Apply(b, e)) && !LeftBehind(Apply(b, e))
  {
    match e
    case Request(x) =>
    case Look(timedOut) => LookInv(b, timedOut);
    case OutInterrupt(hcint) => InterruptInv(b.out, hcint, false);
    case InInterrupt(hcint) => InterruptInv(b.inp, hcint, true);
  }

  lemma {:induction false} RunInv(b: Bus, events: seq<BusEvent>)
    requires Inv(b) && !LeftBehind(b) && Run(b, events) && Patient(b, events)
    ensures Inv(Final(b, events)) && !LeftBehind(Final(b, events))
    decreases |events|
  {
    hide Inv, LeftBehind, Enabled, Apply, GivesUp;
    if events == [] {
    } else {
      StepInv(b, events[0]);
      RunInv(Apply(b, events[0]), events[1..]);
    }
  }

  // -- Whose completion is it? -------------------------------------------------------

  /** Where the machine goes when the stage it waits for is done. */
  function DoneState(c: Ctrl): CtrlState {
    match c.state
    case CTRL_SETUP_WAIT =>
      if c.setup.wLength != 0 then (if c.setup.d2h then CTRL_DATA_IN else CTRL_DATA_OUT)
      else if c.setup.d2h then CTRL_STATUS_OUT
      else CTRL_STATUS_IN
    case CTRL_DATA_IN_WAIT => CTRL_STATUS_OUT
    case CTRL_DATA_OUT_WAIT => CTRL_STATUS_IN
    case _ => CTRL_COMPLETE
  }

  /** A poll that counts the stage as done. */
  ghost predicate CountsDone(b: Bus, e: BusEvent) {
    && e.Look? && Enabled(b, e) && (WaitsForIn(b.ctrl.state) || WaitsForOut(b.ctrl.state))
    && Apply(b, e).ctrl.state == DoneState(b.ctrl)
  }

  /** A transfer-complete has been handled since the stage was submitted. */
  predicate Own(b: Bus) { if WaitsForIn(b.ctrl.state) then b.inp.done else b.out.done }

  lemma CountsOwn(b: Bus, e: BusEvent)
    requires Inv(b) && CountsDone(b, e)
    ensures Own(b)
  {
  }

  /** What a poll does to the state, and whether it counts a stage. */
  lemma LookCounts(b: Bus, timedOut: bool)
    requires Inv(b) && Enabled(b, Look(timedOut))
    ensures var c, n := b.ctrl, Apply(b, Look(timedOut)).ctrl.state;
            && Apply(b, Look(timedOut)).ctrl.setup == c.setup
            && (WaitsForIn(c.state) || WaitsForOut(c.state) ==>
                  if CountsDone(b, Look(timedOut)) then n == DoneState(c)
                  else n == c.state || n in {CTRL_ERROR, CTRL_STALLED}
                       || (n == CTRL_DATA_OUT && c.state == CTRL_DATA_OUT_WAIT)
                       || (n == CTRL_STATUS_OUT && c.state == CTRL_STATUS_OUT_WAIT))
            && (SendsOut(c.state) || SendsIn(c.state) ==>
                  n == WaitState(c.state) && !CountsDone(b, Look(timedOut)))
            && (c.state.CTRL_ERROR? ==> n in {CTRL_SETUP, CTRL_ERROR} && !CountsDone(b, Look(timedOut)))
  {
    hide Channel.Step, LiveInv;
  }

  lemma InitialInv(b: Bus)
    requires Initial(b)
    ensures Inv(b) && !LeftBehind(b)
  {
  }

  /** Over any requests, outcomes and interrupts: as long as the machine gives up no
      transfer that is still going on, every stage that it counts as done had a
      transfer-complete of its own. */
  lemma EveryStageOwn(b: Bus, events: seq<BusEvent>, e: BusEvent)
    requires Initial(b) && Run(b, events) && Patient(b, events) && CountsDone(Final(b, events), e)
    ensures Own(Final(b, events))
  {
    hide Inv, CountsDone, Own;
    InitialInv(b);
    RunInv(b, events);
    CountsOwn(Final(b, events), e);
  }

  // -- What a timeout can lead to ------------------------------------------------------

  const PLAIN := Setup(true, 6, 0x100, 0, 18)

  /** A request that has an IN stage at all. */
  predicate HasIn(x: Setup) { !x.d2h || x.wLength != 0 }

  lemma Extend(b: Bus, events: seq<BusEvent>, e: BusEvent)
    requires Run(b, events) && Enabled(Final(b, events), e)
    ensures Run(b, events + [e]) && Final(b, events + [e]) == Apply(Final(b, events), e)
    ensures Patient(b, events) && !GivesUp(Final(b, events), e) ==> Patient(b, events + [e])
  {
    hide Enabled, Apply, GivesUp;
    var f := Final(b, events);
    assert [e][1..] == [] && Run(Apply(f, e), []) && Patient(Apply(f, e), []);
    assert Run(f, [e]) && Final(f, [e]) == Apply(f, e);
    RunAppend(b, events, [e]);
  }

  /** What an OUT stage needs: a machine that is running and a channel at rest. */
  ghost predicate Clear(b: Bus) { Piped(b.ctrl, b.s) && b.busy && !b.outLive && LiveInv(b.out, false, false) }

  /** The same bus but for the OUT side and the state reached. */
  ghost predicate OutMoved(b: Bus, f: Bus, state: CtrlState) {
    && Piped(f.ctrl, f.s) && f.inp == b.inp && f.inLive == b.inLive
    && f.ctrl.setup == b.ctrl.setup && f.ctrl.state == state
  }

  function WaitState(state: CtrlState): CtrlState {
    match state
    case CTRL_SETUP => CTRL_SETUP_WAIT
    case CTRL_DATA_IN => CTRL_DATA_IN_WAIT
    case CTRL_DATA_OUT => CTRL_DATA_OUT_WAIT
    case CTRL_STATUS_IN => CTRL_STATUS_IN_WAIT
    case CTRL_STATUS_OUT => CTRL_STATUS_OUT_WAIT
    case _ => state
  }

  /** What can become of an OUT stage. */
  datatype Cause = Completes | Stalls | Naks | Nyets | Fails | Toggles

  /** The interrupt that reports it, which asks for a halt ... */
  function Only(cause: Cause): Ints {
    var none := HALTED.(chhltd := false);
    match cause
    case Completes => none.(xfercompl := true)
    case Stalls => none.(stall := true)
    case Naks => none.(nak := true)
    case Nyets => none.(nyet := true)
    case Fails => none.(xacterr := true)
    case Toggles => none.(datatglerr := true)
  }

  function StatusOf(cause: Cause): HcStatus {
    match cause
    case Completes => HC_XFRC
    case Stalls => HC_STALL
    case Naks => HC_NAK
    case Nyets => HC_NYET
    case Fails => HC_XACTERR
    case Toggles => HC_DATATGLERR
  }

  /** ... and what the channel-halted branch publishes: nothing for a toggle error. */
  function Published(status: HcStatus): UrbState {
    match status
    case HC_XFRC => URB_DONE
    case HC_STALL => URB_STALL
    case HC_NAK => URB_NOTREADY
    case HC_NYET => URB_NOTREADY
    case HC_XACTERR => URB_ERROR
    case _ => URB_IDLE
  }

  lemma OnlyThat(m: Ints, cause: Cause)
    requires m == InitialMask(false).(chhltd := m.chhltd)
    ensures Only(cause).And(m) == Only(cause)
  {
  }

  lemma OnlyHandled(c: Chan, cause: Cause)
    requires Only(cause).And(c.mask) == Only(cause)
    ensures OutIsr(c, Only(cause)) == Halting(c, StatusOf(cause)).(errCnt := OutIsr(c, Only(cause)).errCnt)
    ensures !TakesHalted(false, Only(cause)) && AsksHalt(false, Only(cause))
  {
  }

  lemma CauseAsks(t: Traced, cause: Cause)
    requires LiveInv(t, true, false)
    ensures var u := Channel.Step(t, Interrupt(Only(cause)));
            && !Halts(t, Only(cause)) && LiveInv(u, true, false) && u.halting && u.c.status == StatusOf(cause)
  {
    InterruptInv(t, Only(cause), false);
    OnlyThat(t.c.mask, cause);
    OnlyHandled(t.c, cause);
    hide Only, StatusOf, OutIsr, TakesHalted, AsksHalt, TakesComplete;
  }

  lemma HaltPublishes(t: Traced)
    requires LiveInv(t, true, false) && t.halting
    ensures var u := Channel.Step(t, Interrupt(HALTED));
            Halts(t, HALTED) && LiveInv(u, false, false) && u.c.urb == Published(t.c.status)
  {
    InterruptInv(t, HALTED, false);
  }

  lemma ChannelEnds(t: Traced, cause: Cause)
    requires LiveInv(t, false, false)
    ensures var t1 := Channel.Step(t, Resubmit);
            var t2 := Channel.Step(t1, Interrupt(Only(cause)));
            var t3 := Channel.Step(t2, Interrupt(HALTED));
            && !Halts(t1, Only(cause)) && Halts(t2, HALTED)
            && LiveInv(t3, false, false) && t3.c.urb == Published(StatusOf(cause))
  {
    hide Halts, LiveInv, Only;
    NoCompletionWaits(t, false, false);
    SubmitInv(t, false, false);
    AtRest(t);
    CauseAsks(Channel.Step(t, Resubmit), cause);
    HaltPublishes(Channel.Step(Channel.Step(t, Resubmit), Interrupt(Only(cause))));
  }

  lemma AtRest(t: Traced)
    requires LiveInv(t, false, false)
    ensures !Channel.Step(t, Resubmit).halting
  {
  }

  predicate NoRequest(events: seq<BusEvent>) { forall e :: e in events ==> !e.Request? }

  /** An OUT stage, submitted and ended. */
  lemma OutStage(b: Bus, cause: Cause) returns (events: seq<BusEvent>)
    requires Clear(b) && SendsOut(b.ctrl.state)
    ensures Run(b, events) && Patient(b, events) && NoRequest(events)
    ensures var f := Final(b, events);
            OutMoved(b, f, WaitState(b.ctrl.state)) && Clear(f) && f.out.c.urb == Published(StatusOf(cause))
  {
    hide LiveInv, Channel.Step, Halts, Only, Published;
    ChannelEnds(b.out, cause);
    PipedKept(b.ctrl, b.s, Poll(b.out.c.urb, b.inp.c.urb, false));
    assert Run(b, []) && Patient(b, []) && Final(b, []) == b;
    Extend(b, [], Look(false));
    Extend(b, [] + [Look(false)], OutInterrupt(Only(cause)));
    Extend(b, [] + [Look(false)] + [OutInterrupt(Only(cause))], OutInterrupt(HALTED));
    events := [] + [Look(false)] + [OutInterrupt(Only(cause))] + [OutInterrupt(HALTED)];
  }

  /** And counted as done. */
  lemma OutDone(b: Bus) returns (events: seq<BusEvent>)
    requires Clear(b) && SendsOut(b.ctrl.state)
    ensures Run(b, events) && Patient(b, events) && NoRequest(events)
    ensures var f := Final(b, events);
            && OutMoved(b, f, DoneState(b.ctrl.(state := WaitState(b.ctrl.state))))
            && (b.ctrl.state != CTRL_STATUS_OUT ==> Clear(f))
  {
    var first := OutStage(b, Completes);
    hide LiveInv, Run, Final, Patient;
    var f := Final(b, first);
    PipedKept(f.ctrl, f.s, Poll(f.out.c.urb, f.inp.c.urb, false));
    Extend(b, first, Look(false));
    events := first + [Look(false)];
  }

  /** Where the IN channel is submitted to next: with the SETUP done, and the data of the
      request if it sends any. */
  lemma ToInStage(b: Bus) returns (events: seq<BusEvent>)
    requires Clear(b) && b.ctrl.state == CTRL_SETUP && HasIn(b.ctrl.setup)
    ensures Run(b, events) && Patient(b, events) && NoRequest(events)
    ensures var f := Final(b, events);
            && f.busy && SendsIn(f.ctrl.state) && f.ctrl.setup == b.ctrl.setup
            && Piped(f.ctrl, f.s) && f.inp == b.inp && f.inLive == b.inLive
  {
    hide Clear, Run, Final, Patient;
    events := OutDone(b);
    if b.ctrl.setup.wLength != 0 && !b.ctrl.setup.d2h {
      var more := OutDone(Final(b, events));
      RunAppend(b, events, more);
      events := events + more;
    }
    ClearIs(Final(b, events));
  }

  lemma ClearIs(b: Bus)
    ensures Clear(b) ==> b.busy && Piped(b.ctrl, b.s)
  {
  }

  /** Then the channel is live, whatever it was. */
  lemma ToInWait(b: Bus) returns (events: seq<BusEvent>)
    requires Clear(b) && b.ctrl.state == CTRL_SETUP && HasIn(b.ctrl.setup)
    ensures Run(b, events) && Patient(b, events) && NoRequest(events)
    ensures var f := Final(b, events);
            && f.busy && WaitsForIn(f.ctrl.state) && f.ctrl.setup == b.ctrl.setup
            && Piped(f.ctrl, f.s) && f.inp == Channel.Step(b.inp, Resubmit) && f.inLive
  {
    var first := ToInStage(b);
    hide Run, Final, Patient, Clear, Channel.Step;
    var f := Final(b, first);
    PipedKept(f.ctrl, f.s, Poll(f.out.c.urb, f.inp.c.urb, false));
    Extend(b, first, Look(false));
    events := first + [Look(false)];
  }

  /** Without giving up any other transfer, a stage is counted as done that had no
      transfer-complete of its own. */
  ghost predicate StaleRun(b: Bus, events: seq<BusEvent>, e: BusEvent) {
    Run(b, events) && Patient(b, events) && CountsDone(Final(b, events), e) && !Own(Final(b, events))
  }

  ghost predicate CanBeStale(b: Bus) { exists events, e :: StaleRun(b, events, e) }

  lemma NeverStale(b: Bus)
    requires Inv(b) && !LeftBehind(b)
    ensures !CanBeStale(b)
  {
    forall events, e ensures !StaleRun(b, events, e) {
      if StaleRun(b, events, e) {
        hide Inv, LeftBehind, CountsDone, Own;
        RunInv(b, events);
        CountsOwn(Final(b, events), e);
      }
    }
  }

  /** The transfer left behind completes, and the machine starts again: with this request,
      or after too many errors with the next. */
  lemma StartsAgain(b: Bus) returns (events: seq<BusEvent>)
    requires Inv(b) && b.busy && b.ctrl.state == CTRL_ERROR && b.inLive && HasIn(b.ctrl.setup)
    ensures Run(b, events) && Patient(b, events)
    ensures var f := Final(b, events);
            && Clear(f) && f.ctrl.state == CTRL_SETUP && HasIn(f.ctrl.setup)
            && f.inp == Channel.Step(b.inp, Interrupt(COMPLETED))
  {
    assert Run(b, []) && Patient(b, []) && Final(b, []) == b;
    Extend(b, [], InInterrupt(COMPLETED));
    events := [] + [InInterrupt(COMPLETED)];
    hide Run, Final, Patient, Channel.Step, LiveInv;
    AfterError(Final(b, events));
    Extend(b, events, Look(false));
    events := events + [Look(false)];
    if !Final(b, events).busy {
      Extend(b, events, Request(PLAIN));
      events := events + [Request(PLAIN)];
    }
  }

  /** That transfer is still to be halted when the next IN stage is submitted. */
  lemma StaleFrom(b: Bus) returns (events: seq<BusEvent>)
    requires Inv(b) && b.busy && b.ctrl.state == CTRL_ERROR && b.inLive && HasIn(b.ctrl.setup)
    ensures StaleRun(b, events, Look(false))
  {
    events := StartsAgain(b);
    CompletedWaits(b.inp);
    hide Run, Final, Patient, Channel.Step, Clear, Halts;
    var drive := ToInWait(Final(b, events));
    RunAppend(b, events, drive);
    events := events + drive;
    StaleHalt(Channel.Step(b.inp, Interrupt(COMPLETED)));
    Extend(b, events, InInterrupt(HALTED));
    events := events + [InInterrupt(HALTED)];
    CountedDone(Final(b, events));
  }

  lemma CountedDone(b: Bus)
    requires Piped(b.ctrl, b.s) && b.busy && WaitsForIn(b.ctrl.state) && b.inp.c.urb == URB_DONE
    ensures CountsDone(b, Look(false))
  {
  }

  lemma CompletedWaits(t: Traced)
    requires LiveInv(t, true, true)
    ensures !Halts(t, COMPLETED) && CompletionWaits(Channel.Step(t, Interrupt(COMPLETED)).c)
    ensures Channel.Inv(Channel.Step(t, Interrupt(COMPLETED))) && Channel.Step(t, Interrupt(COMPLETED)).isIn
  {
    InterruptInv(t, COMPLETED, true);
  }

  lemma StaleHalt(t: Traced)
    requires Channel.Inv(t) && t.isIn && CompletionWaits(t.c)
    ensures var u := Channel.Step(Channel.Step(t, Resubmit), Interrupt(HALTED));
            u.c.urb == URB_DONE && !u.done
  {
    StaleDoneIff(t);
  }

  lemma AfterError(b: Bus)
    requires Piped(b.ctrl, b.s) && b.busy && b.ctrl.state == CTRL_ERROR
    ensures Enabled(b, Look(false)) && !GivesUp(b, Look(false))
    ensures var f := Apply(b, Look(false));
            && f == b.(ctrl := f.ctrl, busy := f.busy)
            && Piped(f.ctrl, f.s) && f.ctrl.setup == b.ctrl.setup
            && (f.busy ==> f.ctrl.state == CTRL_SETUP)
  {
  }

  /** After a timeout of an IN stage, something can be counted as done that is not,
      exactly when the channel of that stage had not been halted: whoever gives up a
      transfer has to halt its channel first. */
  lemma TimeoutIsStaleIff(b: Bus)
    requires Inv(b) && !LeftBehind(b) && Enabled(b, Look(true)) && WaitsForIn(b.ctrl.state)
    ensures CanBeStale(Apply(b, Look(true))) <==> b.inLive
  {
    if b.inLive {
      var f := Apply(b, Look(true));
      GivenUp(b);
      var events := StaleFrom(f);
      assert StaleRun(f, events, Look(false));
    } else {
      StepInv(b, Look(true));
      NeverStale(Apply(b, Look(true)));
    }
  }

  lemma GivenUp(b: Bus)
    requires Inv(b) && Enabled(b, Look(true)) && GivesUp(b, Look(true))
    ensures var f := Apply(b, Look(true));
            && f == b.(ctrl := f.ctrl) && f.ctrl.state == CTRL_ERROR && f.ctrl.setup == b.ctrl.setup
            && Inv(f) && f.busy && f.inLive && HasIn(f.ctrl.setup)
            && f.ctrl.errorCount == b.ctrl.errorCount
  {
    PipedKept(b.ctrl, b.s, Poll(b.out.c.urb, b.inp.c.urb, true));
  }

  /** And it does happen: with every request that has an IN stage, from the start. */
  lemma StaleStageHappens(b: Bus, x: Setup) returns (events: seq<BusEvent>)
    requires Initial(b) && HasIn(x)
    ensures Run(b, events) && CountsDone(Final(b, events), Look(false)) && !Own(Final(b, events))
  {
    InitialInv(b);
    assert Run(b, []) && Patient(b, []) && Final(b, []) == b;
    Extend(b, [], Request(x));
    var first := [] + [Request(x)];
    var drive := ToInWait(Final(b, first));
    RunAppend(b, first, drive);
    hide Run, Final, Patient, Channel.Step, Inv, LeftBehind, CountsDone, Own;
    first := first + drive;
    RunInv(b, first);
    Extend(b, first, Look(true));
    GivenUp(Final(b, first));
    first := first + [Look(true)];
    var second := StaleFrom(Final(b, first));
    RunAppend(b, first, second);
    events := first + second;
  }

  /** Without a new request, the machine waits for the IN channel again. */
  ghost predicate Retries(b: Bus, events: seq<BusEvent>) {
    && Run(b, events) && NoRequest(events)
    && Final(b, events).busy && WaitsForIn(Final(b, events).ctrl.state)
  }

  ghost predicate CanRetry(b: Bus) { exists events :: Retries(b, events) }

  /** The request has failed too often. */
  predicate Failed(b: Bus) {
    b.ctrl.state == CTRL_ERROR && (b.busy ==> (b.ctrl.errorCount + 1) % 0x100 > USBH_MAX_ERROR_COUNT)
  }

  lemma {:induction false} FailedStays(b: Bus, events: seq<BusEvent>)
    requires Failed(b) && Run(b, events) && NoRequest(events)
    ensures Failed(Final(b, events))
    decreases |events|
  {
    if events == [] {
    } else {
      assert events[0] in events && forall e :: e in events[1..] ==> e in events;
      FailedStays(Apply(b, events[0]), events[1..]);
    }
  }

  lemma RetriesFrom(b: Bus) returns (events: seq<BusEvent>)
    requires Inv(b) && b.busy && b.ctrl.state == CTRL_ERROR && !Failed(b) && HasIn(b.ctrl.setup)
    ensures Retries(b, events)
  {
    assert Run(b, []) && Final(b, []) == b;
    AfterError(b);
    Extend(b, [], Look(false));
    events := [] + [Look(false)];
    var drive := ToInWait(Final(b, events));
    hide Run, Final, Patient, Channel.Step;
    RunAppend(b, events, drive);
    events := events + drive;
  }

  /** After a timeout the same request submits on the IN channel again, which has had no
      outcome, exactly while the error counter allows another try. */
  lemma TimeoutResubmitsIff(b: Bus)
    requires Inv(b) && !LeftBehind(b) && Enabled(b, Look(true)) && GivesUp(b, Look(true))
    ensures CanRetry(Apply(b, Look(true))) <==>
              b.ctrl.errorCount < USBH_MAX_ERROR_COUNT || b.ctrl.errorCount == 0xff
  {
    var f := Apply(b, Look(true));
    GivenUp(b);
    if Failed(f) {
      forall events ensures !Retries(f, events) {
        if Retries(f, events) {
          FailedStays(f, events);
        }
      }
    } else {
      var events := RetriesFrom(f);
      assert Retries(f, events);
    }
  }

  // -- Waiting for ever ------------------------------------------------------------------

  /** Whatever the device, the bus and the clock do, the machine stays where it is. */
  ghost predicate WaitsForEver(b: Bus) {
    forall events | Run(b, events) :: Final(b, events).ctrl == b.ctrl && Final(b, events).busy
  }

  /** The outcomes for which a state that waits for an OUT stage has a case. */
  predicate Handles(state: CtrlState, urb: UrbState) {
    match state
    case CTRL_SETUP_WAIT => urb == URB_DONE || urb == URB_ERROR
    case CTRL_DATA_OUT_WAIT => urb != URB_IDLE
    case CTRL_STATUS_OUT_WAIT => urb == URB_DONE || urb == URB_NOTREADY || urb == URB_ERROR
    case _ => true
  }

  /** A stage has ended in a way that its state has no case for. */
  predicate Unhandled(b: Bus) {
    b.busy && WaitsForOut(b.ctrl.state) && !b.outLive && !Handles(b.ctrl.state, b.out.c.urb)
  }

  lemma {:induction false} UnhandledStays(b: Bus, events: seq<BusEvent>)
    requires Unhandled(b) && Run(b, events)
    ensures Unhandled(Final(b, events)) && Final(b, events).ctrl == b.ctrl
    decreases |events|
  {
    if events == [] {
    } else {
      UnhandledStep(b, events[0]);
      UnhandledStays(Apply(b, events[0]), events[1..]);
    }
  }

  lemma UnhandledStep(b: Bus, e: BusEvent)
    requires Unhandled(b) && Enabled(b, e)
    ensures Unhandled(Apply(b, e)) && Apply(b, e).ctrl == b.ctrl
  {
    hide Channel.Step;
  }

  ghost predicate Moved(b: Bus, events: seq<BusEvent>) {
    Run(b, events) && !(Final(b, events).ctrl == b.ctrl && Final(b, events).busy)
  }

  /** While a stage is on its way, it can be done. */
  lemma FromLive(b: Bus) returns (events: seq<BusEvent>)
    requires Inv(b) && b.outLive
    ensures Moved(b, events)
  {
    assert Run(b, []) && Final(b, []) == b;
    Extend(b, [], OutInterrupt(COMPLETED));
    CauseAsks(b.out, Completes);
    HaltPublishes(Channel.Step(b.out, Interrupt(COMPLETED)));
    hide Run, Final, Channel.Step, LiveInv, Halts;
    Extend(b, [] + [OutInterrupt(COMPLETED)], OutInterrupt(HALTED));
    var f := Final(b, [] + [OutInterrupt(COMPLETED)] + [OutInterrupt(HALTED)]);
    assert f.ctrl == b.ctrl && f.busy && f.out.c.urb == URB_DONE;
    Extend(b, [] + [OutInterrupt(COMPLETED)] + [OutInterrupt(HALTED)], Look(false));
    events := [] + [OutInterrupt(COMPLETED)] + [OutInterrupt(HALTED)] + [Look(false)];
  }

  /** In every other state there is a way on. */
  lemma GoesOn(b: Bus) returns (events: seq<BusEvent>)
    requires Inv(b) && !Unhandled(b)
    ensures Moved(b, events)
  {
    assert Run(b, []) && Final(b, []) == b;
    if !b.busy {
      events := [];
    } else if b.outLive {
      events := FromLive(b);
    } else {
      var e := Look(WaitsForIn(b.ctrl.state));
      MovesOn(b, e.timedOut);
      Extend(b, [], e);
      events := [] + [e];
    }
  }

  lemma MovesOn(b: Bus, timedOut: bool)
    requires Inv(b) && b.busy && !b.outLive && !Unhandled(b) && timedOut == WaitsForIn(b.ctrl.state)
    ensures Enabled(b, Look(timedOut))
    ensures Apply(b, Look(timedOut)).ctrl.state != b.ctrl.state || !Apply(b, Look(timedOut)).busy
  {
    hide Channel.Step, Channel.Inv;
  }

  lemma UnhandledWaits(b: Bus)
    requires Unhandled(b)
    ensures WaitsForEver(b)
  {
    forall events | Run(b, events) ensures Final(b, events).ctrl == b.ctrl && Final(b, events).busy {
      UnhandledStays(b, events);
    }
  }

  lemma InHalts(t: Traced)
    requires Channel.Inv(t) && t.isIn && CompletionWaits(t.c)
    ensures Halts(t, HALTED) && Channel.Step(t, Interrupt(HALTED)).c.urb == URB_DONE
  {
  }

  /** The machine waits for ever, until the device is unplugged, exactly when it waits for
      an OUT stage that has ended in a way its state has no case for: a SETUP that was not
      done and did not fail, a status stage that was stalled, or any stage that was halted
      and nothing published. */
  lemma WaitsForEverIff(b: Bus)
    requires Inv(b)
    ensures WaitsForEver(b) <==> Unhandled(b)
  {
    if Unhandled(b) {
      UnhandledWaits(b);
    } else {
      var events := GoesOn(b);
      assert Run(b, events);
    }
  }

  /** Which halts end an OUT stage that way. */
  lemma HaltWaitsIff(b: Bus, hcint: Ints)
    requires Inv(b) && Enabled(b, OutInterrupt(hcint)) && Halts(b.out, hcint)
    ensures WaitsForEver(Apply(b, OutInterrupt(hcint))) <==>
              b.out.c.status !in (match b.ctrl.state
                                  case CTRL_SETUP_WAIT => {HC_XFRC, HC_XACTERR}
                                  case CTRL_DATA_OUT_WAIT => {HC_XFRC, HC_XACTERR, HC_NAK, HC_NYET, HC_STALL}
                                  case _ => {HC_XFRC, HC_XACTERR, HC_NAK, HC_NYET})
  {
    InterruptInv(b.out, hcint, false);
    HaltIs(b.out, hcint);
    WaitsForEverIff(Apply(b, OutInterrupt(hcint)));
  }

  lemma HaltIs(t: Traced, hcint: Ints)
    requires LiveInv(t, true, false) && Halts(t, hcint)
    ensures Channel.Step(t, Interrupt(hcint)).c.urb == Published(t.c.status)
  {
  }

  /** What each stage has no case for. */
  predicate Sticks(stage: CtrlState, cause: Cause) {
    WaitsForOut(stage) && !Handles(stage, Published(StatusOf(cause)))
  }

  /** Each of these is reached. */
  lemma WaitsForEverIsReached(b: Bus, stage: CtrlState, cause: Cause) returns (events: seq<BusEvent>)
    requires Initial(b) && Sticks(stage, cause)
    ensures Run(b, events) && Final(b, events).ctrl.state == stage && WaitsForEver(Final(b, events))
  {
    events := ToStage(b, stage);
    var f := Final(b, events);
    hide Run, Final, Patient;
    var last := OutStage(f, cause);
    RunAppend(b, events, last);
    events := events + last;
    EndedUnhandled(f, Final(b, events), cause);
    UnhandledWaits(Final(b, events));
  }

  lemma EndedUnhandled(b: Bus, f: Bus, cause: Cause)
    requires Clear(b) && Clear(f) && SendsOut(b.ctrl.state) && OutMoved(b, f, WaitState(b.ctrl.state))
    requires Sticks(WaitState(b.ctrl.state), cause) && f.out.c.urb == Published(StatusOf(cause))
    ensures Unhandled(f)
  {
  }

  /** An IN stage of data, submitted and counted as done. */
  lemma InDone(b: Bus) returns (events: seq<BusEvent>)
    requires Clear(b) && b.ctrl.state == CTRL_DATA_IN && LiveInv(b.inp, false, true)
    ensures Run(b, events) && Clear(Final(b, events)) && Final(b, events).ctrl.state == CTRL_STATUS_OUT
  {
    var t := Channel.Step(b.inp, Resubmit);
    NoCompletionWaits(b.inp, false, true);
    SubmitInv(b.inp, false, true);
    CompletedWaits(t);
    InHalts(Channel.Step(t, Interrupt(COMPLETED)));
    PipedKept(b.ctrl, b.s, Poll(b.out.c.urb, b.inp.c.urb, false));
    assert Run(b, []) && Final(b, []) == b;
    hide Run, Final, LiveInv, Channel.Step, Halts;
    Extend(b, [], Look(false));
    Extend(b, [] + [Look(false)], InInterrupt(COMPLETED));
    Extend(b, [] + [Look(false)] + [InInterrupt(COMPLETED)], InInterrupt(HALTED));
    events := [] + [Look(false)] + [InInterrupt(COMPLETED)] + [InInterrupt(HALTED)];
    var f := Final(b, events);
    assert f == b.(ctrl := f.ctrl, s := f.s, inp := f.inp, inLive := f.inLive) && f.ctrl.state == CTRL_DATA_IN_WAIT;
    InCounted(f);
    Extend(b, events, Look(false));
    events := events + [Look(false)];
  }

  lemma InCounted(b: Bus)
    requires Clear(b) && b.ctrl.state == CTRL_DATA_IN_WAIT && b.inp.c.urb == URB_DONE
    ensures Enabled(b, Look(false)) && Clear(Apply(b, Look(false)))
    ensures Apply(b, Look(false)).ctrl.state == CTRL_STATUS_OUT
  {
  }

  /** A request that has the stage; a SETUP has it at once, the others after the SETUP, and
      a status stage after the data too. */
  lemma ToStage(b: Bus, stage: CtrlState) returns (events: seq<BusEvent>)
    requires Initial(b) && WaitsForOut(stage)
    ensures Run(b, events) && Clear(Final(b, events)) && WaitState(Final(b, events).ctrl.state) == stage
    ensures SendsOut(Final(b, events).ctrl.state)
  {
    var x := PLAIN.(d2h := !stage.CTRL_DATA_OUT_WAIT?);
    assert Run(b, []) && Final(b, []) == b;
    Extend(b, [], Request(x));
    events := [] + [Request(x)];
    if !stage.CTRL_SETUP_WAIT? {
      var more := OutDone(Final(b, events));
      RunAppend(b, events, more);
      events := events + more;
    }
    if stage.CTRL_STATUS_OUT_WAIT? {
      hide Run, Final, Patient;
      var more := InDone(Final(b, events));
      RunAppend(b, events, more);
      events := events + more;
    }
  }
}
