/**
  The receive machine and its channel: a reception submits one packet at a time, asks
  again after an empty one, and calls back after any other. It looks for `URB_DONE` and
  for nothing else, and it has no timeout.
*/
module BulkIn {
  import opened Channel
  import opened Cdc

  datatype Pipe = Pipe(rx: DataState, t: Traced, live: bool, calls: nat, callbacks: nat)

  datatype PipeEvent = Receive | Poll(count: nat) | Handle(hcint: Ints)

  /** A new reception waits for the previous callback; an interrupt comes only between a
      submission and its halt. */
  ghost predicate Enabled(p: Pipe, e: PipeEvent) {
    match e
    case Receive => p.rx.CDC_IDLE?
    case Poll(_) => true
    case Handle(_) => p.live
  }

  function Apply(p: Pipe, e: PipeEvent): Pipe {
    match e
    case Receive => p.(rx := CDC_RECEIVE_DATA, calls := p.calls + 1)
    case Poll(count) =>
      var r := RxPoll(p.rx, p.t.c.urb, count);
      var q := p.(rx := r.state, callbacks := p.callbacks + if r.callback then 1 else 0);
      if r.submit then q.(t := Channel.Step(p.t, Resubmit), live := true) else q
    case Handle(hcint) => p.(t := Channel.Step(p.t, Interrupt(hcint)), live := !Halts(p.t, hcint))
  }

  ghost predicate Initial(p: Pipe) {
    p.rx.CDC_IDLE? && p.t == Opened(BULK, true, p.t.c.status) && !p.live && p.calls == p.callbacks == 0
  }

  ghost predicate Run(p: Pipe, events: seq<PipeEvent>)
    decreases |events|
  {
    events != [] ==> Enabled(p, events[0]) && Run(Apply(p, events[0]), events[1..])
  }

  function Final(p: Pipe, events: seq<PipeEvent>): Pipe
    decreases |events|
  {
    if events == [] then p else Final(Apply(p, events[0]), events[1..])
  }

  ghost predicate Inv(p: Pipe) {
    && LiveInv(p.t, p.live, true)
    && p.rx in {CDC_IDLE, CDC_RECEIVE_DATA, CDC_RECEIVE_DATA_WAIT}
    && (p.live ==> p.rx == CDC_RECEIVE_DATA_WAIT)
    && p.calls == p.callbacks + (if p.rx.CDC_IDLE? then 0 else 1)
  }

  lemma StepInv(p: Pipe, e: PipeEvent)
    requires Inv(p) && Enabled(p, e)
    ensures Inv(Apply(p, e))
  {
    match e
    case Receive =>
    case Poll(count) =>
      SubmitInv(p.t, p.live, true);
      NoCompletionWaits(p.t, p.live, true);
    case Handle(hcint) => InterruptInv(p.t, hcint, true);
  }

  lemma {:induction false} RunInv(p: Pipe, events: seq<PipeEvent>)
    requires Inv(p) && Run(p, events)
    ensures Inv(Final(p, events))
    decreases |events|
  {
    if events == [] {
    } else {
      StepInv(p, events[0]);
      RunInv(Apply(p, events[0]), events[1..]);
    }
  }

  lemma InitialInv(p: Pipe)
    requires Initial(p)
    ensures Inv(p)
  {
  }

  /** In every run a callback comes only from a poll that finds bytes, those of a packet
      that has been transferred since it was asked for, and once for each reception at
      most. */
  lemma CallbackHasPacket(p: Pipe, events: seq<PipeEvent>, e: PipeEvent)
    requires Initial(p) && Run(p, events) && Enabled(Final(p, events), e)
    ensures var f, f' := Final(p, events), Apply(Final(p, events), e);
            && f.callbacks <= f.calls <= f.callbacks + 1
            && (f'.callbacks != f.callbacks ==>
                  && e.Poll? && e.count > 0 && f.t.done
                  && f'.callbacks == f.callbacks + 1 == f.calls && f'.rx.CDC_IDLE?)
  {
    InitialInv(p);
    RunInv(p, events);
  }

  /** An empty packet is no answer: two polls later the machine has asked for another. */
  lemma EmptyAsksAgain(p: Pipe, events: seq<PipeEvent>, count: nat)
    requires Initial(p) && Run(p, events)
    requires var f := Final(p, events); f.rx.CDC_RECEIVE_DATA_WAIT? && f.t.c.urb == URB_DONE
    ensures var f := Final(p, events);
            var g := Apply(Apply(f, Poll(0)), Poll(count));
            && Enabled(f, Poll(0)) && Enabled(Apply(f, Poll(0)), Poll(count))
            && g.live && g.rx.CDC_RECEIVE_DATA_WAIT? && !g.t.done && g.t.c.urb == URB_IDLE
            && g.calls == f.calls && g.callbacks == f.callbacks
  {
    InitialInv(p);
    RunInv(p, events);
  }

  /** And a packet with bytes ends the reception at once. */
  lemma PacketEnds(p: Pipe, events: seq<PipeEvent>, count: nat)
    requires Initial(p) && Run(p, events) && 0 < count
    requires var f := Final(p, events); f.rx.CDC_RECEIVE_DATA_WAIT? && f.t.c.urb == URB_DONE
    ensures var f, g := Final(p, events), Apply(Final(p, events), Poll(count));
            g.callbacks == f.callbacks + 1 && g.rx.CDC_IDLE? && !g.live
  {
    InitialInv(p);
    RunInv(p, events);
  }

  ghost predicate Stuck(p: Pipe) {
    forall e :: Enabled(p, e) ==> Apply(p, e) == p
  }

  const ONLY_NAK := HALTED.(chhltd := false, nak := true)

  /** The machine waits for ever exactly when its packet has been halted without having been
      reported done. */
  lemma StuckIff(p: Pipe)
    requires Inv(p)
    ensures Stuck(p) <==> p.rx.CDC_RECEIVE_DATA_WAIT? && !p.live && p.t.c.urb != URB_DONE
  {
    assert Enabled(p, Poll(1));
    if p.rx.CDC_IDLE? {
      assert Enabled(p, Receive) && Apply(p, Receive).calls == p.calls + 1;
    } else if p.live {
      LiveMoves(p);
    }
  }

  lemma LiveMoves(p: Pipe)
    requires Inv(p) && p.live
    ensures !Stuck(p)
  {
    var e := Handle(if p.t.halting then HALTED else COMPLETED);
    assert Enabled(p, e);
    InterruptInv(p.t, e.hcint, true);
    assert Apply(p, e).t.halting != p.t.halting;
  }

  lemma {:induction false} StuckForEver(p: Pipe, events: seq<PipeEvent>)
    requires Stuck(p) && Run(p, events)
    ensures Final(p, events) == p
    decreases |events|
  {
    if events == [] {
    } else {
      StuckForEver(p, events[1..]);
    }
  }

  /** The halt of a packet does that exactly when it was not asked for by a completion, or
      something has overridden the completion since. */
  lemma HaltSticksIff(p: Pipe, hcint: Ints)
    requires Inv(p) && Enabled(p, Handle(hcint)) && Halts(p.t, hcint)
    ensures Stuck(Apply(p, Handle(hcint))) <==>
              !(p.t.c.status == HC_XFRC && !Overrides(true, hcint.And(p.t.c.mask)))
  {
    StepInv(p, Handle(hcint));
    HaltReports(p.t, Interrupt(hcint));
    StuckIff(Apply(p, Handle(hcint)));
  }

  /** And so a packet that has been transferred can be lost: one NAK between the completion
      and its halt is enough. */
  lemma LostPacketHappens(p: Pipe) returns (events: seq<PipeEvent>)
    requires Initial(p)
    ensures Run(p, events) && Stuck(Final(p, events))
    ensures var f := Final(p, events); f.t.done && f.calls == 1 && f.callbacks == 0
  {
    InitialInv(p);
    var e2: seq<PipeEvent> := [Handle(COMPLETED), Handle(ONLY_NAK), Handle(HALTED)];
    var p2 := Apply(Apply(p, Receive), Poll(1));
    StepInv(p, Receive);
    StepInv(Apply(p, Receive), Poll(1));
    Loses(p2);
    events := [Receive, Poll(1)] + e2;
    assert events[1..] == [Poll(1)] + e2 && ([Poll(1)] + e2)[1..] == e2;
    hide Stuck, Inv, Initial;
    assert Run(Apply(p, Receive), events[1..]) && Final(Apply(p, Receive), events[1..]) == Final(p2, e2);
  }

  lemma Loses(p: Pipe)
    requires Inv(p) && p.live && !p.t.halting
    ensures var events := [Handle(COMPLETED), Handle(ONLY_NAK), Handle(HALTED)];
            && Run(p, events) && Stuck(Final(p, events))
            && Final(p, events).t.done && Final(p, events).calls == p.calls && Final(p, events).callbacks == p.callbacks
  {
    var a := Apply(p, Handle(COMPLETED));
    var b := Apply(a, Handle(ONLY_NAK));
    StepInv(p, Handle(COMPLETED));
    StepInv(a, Handle(ONLY_NAK));
    HaltSticksIff(b, HALTED);
    var events := [Handle(COMPLETED), Handle(ONLY_NAK), Handle(HALTED)];
    assert events[1..] == [Handle(ONLY_NAK), Handle(HALTED)] && events[1..][1..] == [Handle(HALTED)];
    assert events[1..][1..][1..] == [];
    assert a.live && b.live && a.t.done && b.t.c.status == HC_NAK;
    hide Stuck, Inv;
    assert Run(b, events[1..][1..]) && Final(b, events[1..][1..]) == Apply(b, Handle(HALTED));
  }
}
