/**
  The host core over the two channels of the default pipe: what USBH_Process polls is what
  the channels have published, and what it submits goes to them.
*/
module HostBus {
  import opened Channel
  import opened Control
  import opened HostCore
  import B = ControlBus

  /** `owned`: history: how many stages have been counted as done since the last SETUP,
      each after a transfer-complete of its own. */
  datatype System = System(h: Host, out: Traced, inp: Traced, outLive: bool, inLive: bool, owned: nat)

  datatype SystemEvent = Call(i: Input) | OutInterrupt(hcint: Ints) | InInterrupt(hcint: Ints)

  ghost function BusOf(x: System): B.Bus {
    B.Bus(x.h.ctrl, x.h.s, x.h.gState.HOST_CTRL_XFER?, x.out, x.inp, x.outLive, x.inLive)
  }

  /** The input of the host, with what the channels have published. */
  function Polled(x: System, i: Input): Input {
    i.(poll := Poll(x.out.c.urb, x.inp.c.urb, i.poll.timedOut))
  }

  /** The device has gone: the core is initialised again. */
  predicate Lost(h: Host, i: Input) { (!i.connected || !i.enabled) && !h.gState.HOST_IDLE? }

  predicate Transfers(x: System, i: Input) { x.h.gState.HOST_CTRL_XFER? && !Lost(x.h, i) }

  /** Both channels as opening them, or a new start of the core, leaves them. */
  function Reopened(x: System): System {
    x.(out := Opened(CTRL, false, x.out.c.status), inp := Opened(CTRL, true, x.inp.c.status),
       outLive := false, inLive := false)
  }

  ghost predicate Enabled(x: System, e: SystemEvent) {
    && Ready(x.h)
    && match e
       case Call(_) => true
       case OutInterrupt(_) => x.outLive
       case InInterrupt(_) => x.inLive
  }

  ghost function Owned(x: System, look: B.BusEvent): nat
    requires B.Enabled(BusOf(x), look)
  {
    if x.h.ctrl.state.CTRL_SETUP? then 0
    else if B.CountsDone(BusOf(x), look) && B.Own(BusOf(x)) then x.owned + 1
    else x.owned
  }

  ghost function Apply(x: System, e: SystemEvent): System
    requires Enabled(x, e)
  {
    match e
    case OutInterrupt(hcint) =>
      x.(out := Channel.Step(x.out, Interrupt(hcint)), outLive := !Halts(x.out, hcint))
    case InInterrupt(hcint) =>
      x.(inp := Channel.Step(x.inp, Interrupt(hcint)), inLive := !Halts(x.inp, hcint))
    case Call(i) =>
      var y := x.(h := Process(x.h, Polled(x, i)));
      if Lost(x.h, i) || x.h.gState.HOST_DEV_ATTACHED? then Reopened(y)
      else if x.h.gState.HOST_CTRL_XFER? then
        var look := B.Look(i.poll.timedOut);
        var b := B.Apply(BusOf(x), look);
        System(y.h, b.out, b.inp, b.outLive, b.inLive, Owned(x, look))
      else y
  }

  ghost predicate Initial(x: System) { HostCore.Initial(x.h) && x == Reopened(x) && x.owned == 0 }

  ghost predicate Run(x: System, events: seq<SystemEvent>)
    decreases |events|
  {
    events != [] ==> Enabled(x, events[0]) && Run(Apply(x, events[0]), events[1..])
  }

  ghost function Final(x: System, events: seq<SystemEvent>): System
    requires Run(x, events)
    decreases |events|
  {
    if events == [] then x else Final(Apply(x, events[0]), events[1..])
  }

  /** The host gives up a transfer that is still going on. */
  predicate GivesUp(x: System, e: SystemEvent) {
    e.Call? && Transfers(x, e.i) && e.i.poll.timedOut && B.WaitsForIn(x.h.ctrl.state) && x.inLive
  }

  ghost predicate Patient(x: System, events: seq<SystemEvent>)
    requires Run(x, events)
    decreases |events|
  {
    events != [] ==> !GivesUp(x, events[0]) && Patient(Apply(x, events[0]), events[1..])
  }

  // -- The invariant ----------------------------------------------------------------------

  /** How many stages a request has. */
  function StagesOf(x: Setup): nat { if x.wLength == 0 then 2 else 3 }

  /** How many of them are done, by state. */
  predicate OwnedAt(state: CtrlState, x: Setup, owned: nat) {
    match state
    case CTRL_SETUP_WAIT => owned == 0
    case CTRL_DATA_IN => owned == 1
    case CTRL_DATA_IN_WAIT => owned == 1
    case CTRL_DATA_OUT => owned == 1
    case CTRL_DATA_OUT_WAIT => owned == 1
    case CTRL_STATUS_IN => owned == StagesOf(x) - 1
    case CTRL_STATUS_IN_WAIT => owned == StagesOf(x) - 1
    case CTRL_STATUS_OUT => owned == StagesOf(x) - 1
    case CTRL_STATUS_OUT_WAIT => owned == StagesOf(x) - 1
    case CTRL_COMPLETE => owned == StagesOf(x)
    case _ => true
  }

  ghost predicate OwnedInv(x: System) {
    var c := x.h.ctrl;
    x.h.gState.HOST_CTRL_XFER? || (x.h.request.CMD_WAIT? && x.h.gState.HOST_ENUMERATION?) ==>
      OwnedAt(c.state, c.setup, x.owned)
  }

  ghost predicate SystemInv(x: System) {
    HostCore.Inv(x.h) && B.Inv(BusOf(x)) && !B.LeftBehind(BusOf(x)) && OwnedInv(x)
  }

  lemma ReopenedInv(x: System)
    requires HostCore.Inv(x.h)
    requires !x.h.gState.HOST_CTRL_XFER? && !(x.h.request.CMD_WAIT? && x.h.gState.HOST_ENUMERATION?)
    ensures SystemInv(Reopened(x))
  {
  }

  lemma InitialSystemInv(x: System)
    requires Initial(x)
    ensures SystemInv(x)
  {
    HostCore.InitialInv(x.h);
    ReopenedInv(x);
  }

  /** A call outside of a transfer ends a request or starts one. */
  lemma IdleHost(h: Host, i: Input)
    requires HostCore.Inv(h) && !h.gState.HOST_CTRL_XFER? && !h.gState.HOST_DEV_ATTACHED? && !Lost(h, i)
    ensures var f := Process(h, i);
            && Piped(f.ctrl, f.s) && !(f.request.CMD_WAIT? && f.gState.HOST_ENUMERATION?)
            && (f.gState.HOST_CTRL_XFER? ==> f.ctrl.state.CTRL_SETUP?)
  {
    hide HandleControl;
    HostCore.ProcessInv(h, i);
  }

  lemma IdleCallInv(x: System, i: Input)
    requires SystemInv(x) && !x.h.gState.HOST_CTRL_XFER? && !x.h.gState.HOST_DEV_ATTACHED? && !Lost(x.h, i)
    ensures SystemInv(Apply(x, Call(i)))
  {
    HostCore.ProcessInv(x.h, Polled(x, i));
    IdleHost(x.h, Polled(x, i));
    hide HostCore.Inv, Process, HandleControl, LiveInv;
  }

  lemma ReopeningCallInv(x: System, i: Input)
    requires SystemInv(x) && (x.h.gState.HOST_DEV_ATTACHED? || Lost(x.h, i))
    ensures SystemInv(Apply(x, Call(i)))
  {
    HostCore.ProcessInv(x.h, Polled(x, i));
    NotInRequest(x.h, Polled(x, i));
    ReopenedInv(x.(h := Process(x.h, Polled(x, i))));
  }

  lemma NotInRequest(h: Host, i: Input)
    requires HostCore.Inv(h) && (h.gState.HOST_DEV_ATTACHED? || Lost(h, i))
    ensures var f := Process(h, i);
            !f.gState.HOST_CTRL_XFER? && !(f.request.CMD_WAIT? && f.gState.HOST_ENUMERATION?)
  {
  }

  /** The host's step in a transfer is the bus's. */
  lemma TransferIsLook(x: System, i: Input)
    requires SystemInv(x) && Transfers(x, i)
    ensures B.Enabled(BusOf(x), B.Look(i.poll.timedOut))
    ensures var y, b := Apply(x, Call(i)), B.Apply(BusOf(x), B.Look(i.poll.timedOut));
            && y.h == x.h.(ctrl := b.ctrl, s := b.s, gState := if b.busy then HOST_CTRL_XFER else x.h.gStateBkp)
            && BusOf(y) == b && y.owned == Owned(x, B.Look(i.poll.timedOut))
  {
  }

  /** A stage that is counted as done is the next one. */
  lemma OwnedMoves(b: B.Bus, timedOut: bool, owned: nat)
    requires B.Inv(b) && B.Enabled(b, B.Look(timedOut)) && OwnedAt(b.ctrl.state, b.ctrl.setup, owned)
    ensures var n, counts := B.Apply(b, B.Look(timedOut)).ctrl, B.CountsDone(b, B.Look(timedOut));
            OwnedAt(n.state, n.setup, if b.ctrl.state.CTRL_SETUP? then 0 else if counts then owned + 1 else owned)
  {
    B.LookCounts(b, timedOut);
    hide B.CountsDone, B.Apply, LiveInv, B.Enabled;
  }

  lemma OwnedKept(x: System, i: Input)
    requires SystemInv(x) && Transfers(x, i) && !GivesUp(x, Call(i))
    ensures OwnedInv(Apply(x, Call(i)))
  {
    var look := B.Look(i.poll.timedOut);
    TransferIsLook(x, i);
    if B.CountsDone(BusOf(x), look) {
      B.CountsOwn(BusOf(x), look);
    }
    OwnedMoves(BusOf(x), i.poll.timedOut, x.owned);
    hide HostCore.Inv, B.Inv, B.LeftBehind, B.Apply, B.CountsDone, B.Own, OwnedAt, Process, HandleControl;
  }

  lemma TransferInv(x: System, i: Input)
    requires SystemInv(x) && Transfers(x, i) && !GivesUp(x, Call(i))
    ensures SystemInv(Apply(x, Call(i)))
  {
    HostCore.ProcessInv(x.h, Polled(x, i));
    TransferIsLook(x, i);
    OwnedKept(x, i);
    hide HostCore.Inv, B.Inv, B.LeftBehind, OwnedInv, B.Apply, Owned, Process, HandleControl;
    B.StepInv(BusOf(x), B.Look(i.poll.timedOut));
  }

  lemma InterruptsInv(x: System, e: SystemEvent)
    requires SystemInv(x) && Enabled(x, e) && !e.Call?
    ensures SystemInv(Apply(x, e))
  {
    var b := BusOf(x);
    match e
    case OutInterrupt(hcint) => B.StepInv(b, B.OutInterrupt(hcint));
    case InInterrupt(hcint) => B.StepInv(b, B.InInterrupt(hcint));
  }

  lemma StepInv(x: System, e: SystemEvent)
    requires SystemInv(x) && Enabled(x, e) && !GivesUp(x, e)
    ensures SystemInv(Apply(x, e))
  {
    hide SystemInv, Apply;
    if !e.Call? {
      InterruptsInv(x, e);
    } else if x.h.gState.HOST_DEV_ATTACHED? || Lost(x.h, e.i) {
      ReopeningCallInv(x, e.i);
    } else if x.h.gState.HOST_CTRL_XFER? {
      TransferInv(x, e.i);
    } else {
      IdleCallInv(x, e.i);
    }
  }

  lemma {:induction false} RunInv(x: System, events: seq<SystemEvent>)
    requires SystemInv(x) && Run(x, events) && Patient(x, events)
    ensures SystemInv(Final(x, events))
    decreases |events|
  {
    hide SystemInv, Enabled, Apply, GivesUp;
    if events == [] {
    } else {
      StepInv(x, events[0]);
      RunInv(Apply(x, events[0]), events[1..]);
    }
  }

  /** Over any connects, disconnects, replies and interrupts: as long as the host gives up no
      transfer that is still going on, a request reports USBH_OK only after its SETUP, its
      data if it has any and its status have each been counted as done after a
      transfer-complete of their own. */
  lemma RequestsHaveOwnStages(x: System, events: seq<SystemEvent>, i: Input)
    requires Initial(x) && Run(x, events) && Patient(x, events)
    ensures var f := Final(x, events);
            var r := Request(f.h.enumState, f.h.desc);
            Ready(f.h) && (Process(f.h, Polled(f, i)).completed != f.h.completed ==>
              && Process(f.h, Polled(f, i)).completed == f.h.completed + 1
              && f.h.ctrl.sentSetup == r && f.owned == StagesOf(r)
              && Stages(f.h.ctrl.sent, r, f.h.ctrl.data, f.h.ctrl.status, !r.d2h, f.h.address)
              && 0 < f.h.ctrl.status && (0 < f.h.ctrl.data <==> r.wLength != 0))
  {
    InitialSystemInv(x);
    RunInv(x, events);
    Completes(Final(x, events), i);
  }

  lemma Completes(f: System, i: Input)
    requires SystemInv(f)
    ensures var r := Request(f.h.enumState, f.h.desc);
            Process(f.h, Polled(f, i)).completed != f.h.completed ==>
              && Process(f.h, Polled(f, i)).completed == f.h.completed + 1
              && f.h.ctrl.sentSetup == r && f.owned == StagesOf(r)
              && Stages(f.h.ctrl.sent, r, f.h.ctrl.data, f.h.ctrl.status, !r.d2h, f.h.address)
              && 0 < f.h.ctrl.status && (0 < f.h.ctrl.data <==> r.wLength != 0)
  {
    hide B.Inv, B.LeftBehind, HandleControl, Stages;
    CompletesFrom(f.h, Polled(f, i));
  }

  lemma CompletesFrom(h: Host, i: Input)
    requires HostCore.Inv(h)
    ensures Process(h, i).completed != h.completed ==>
              && Process(h, i).completed == h.completed + 1
              && h.gState.HOST_ENUMERATION? && h.request.CMD_WAIT? && h.ctrl.state.CTRL_COMPLETE?
  {
    hide HandleControl;
  }
}
