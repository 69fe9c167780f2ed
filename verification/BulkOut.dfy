/**
  Bulk OUT from end to end: the transmit machine, the channel and its interrupt
  handler, the wire, and a device that follows the data-toggle rule of section
  8.6 of the USB 2.0 specification.

  The wire may refuse, lose or repeat packets and lose acknowledgements, and the
  handler may see any mixture of interrupt bits, in any order. All that is
  assumed of the hardware is that it raises transfer-complete only once the
  device has acknowledged the data, and raises nothing on a halted channel.
*/
module BulkOut {
  import opened Division
  import opened Channel
  import opened Cdc
  import opened Words

  datatype Packet = Packet(data: seq<byte>, pid: bool)

  datatype Device = Device(toggle: bool, accepted: seq<byte>)

  datatype Link = Link(
    epSize: nat,
    tx: Tx,
    c: Chan,
    packet: Packet,      // the last packet submitted
    live: bool,          // submitted, and not halted yet
    dev: Device,
    acked: bool,         // the device has acknowledged it
    given: seq<byte>,    // everything ever passed to USBH_CDC_Transmit
    calls: nat,          // how often it was called, and how many times
    callbacks: nat)      // USBH_CDC_TransmitCallback

  datatype Event = Transmit(message: seq<byte>) | Poll | Deliver | Handle(hcint: Ints)

  ghost predicate Enabled(l: Link, e: Event) {
    match e
    case Transmit(_) => l.tx.state.CDC_IDLE?
    case Poll => true
    case Deliver => l.live
    case Handle(hcint) => l.live && (hcint.xfercompl ==> l.acked)
  }

  /** What a device does with a data packet: it acknowledges every one, and
      keeps those whose PID is the one it expects. */
  function Receive(d: Device, p: Packet): Device {
    if p.pid == d.toggle then Device(!d.toggle, d.accepted + p.data) else d
  }

  function Apply(l: Link, e: Event): Link {
    match e
    case Transmit(m) =>
      l.(tx := Tx(CDC_SEND_DATA, m), given := l.given + m, calls := l.calls + 1)
    case Poll =>
      var r := TxPoll(l.tx, l.epSize, l.c.urb);
      var l' := l.(tx := r.tx, callbacks := l.callbacks + if r.callback then 1 else 0);
      if r.submit.Some? then
        // USBH_BulkSendData: the PID is the channel's OUT toggle
        l'.(c := Submit(l.c), packet := Packet(r.submit.value, l.c.toggleOut), live := true)
      else l'
    case Deliver => l.(dev := Receive(l.dev, l.packet), acked := true)
    case Handle(hcint) =>
      var c := OutIsr(l.c, hcint);
      l.(c := c,
         live := !TakesHalted(false, hcint.And(l.c.mask)),
         acked := l.acked && c.urb != URB_DONE)
  }

  /** A freshly opened pipe and a freshly configured device. */
  ghost predicate Initial(l: Link) {
    && 0 < l.epSize
    && l.tx == Tx(CDC_IDLE, [])
    && l.c == Opened(BULK, false, l.c.status).c
    && !l.live && !l.acked
    && l.dev == Device(false, []) && l.given == []
    && l.calls == l.callbacks == 0
  }

  ghost predicate Run(l: Link, events: seq<Event>)
    decreases |events|
  {
    events != [] ==> Enabled(l, events[0]) && Run(Apply(l, events[0]), events[1..])
  }

  function Final(l: Link, events: seq<Event>): Link
    decreases |events|
  {
    if events == [] then l else Final(Apply(l, events[0]), events[1..])
  }

  // -- The invariant ------------------------------------------------------------

  /** What the device has still to accept: the current packet no longer counts
      once it has been acknowledged, or reported done. */
  function Pending(l: Link): seq<byte> {
    if l.acked || (l.tx.state.CDC_SEND_DATA_WAIT? && l.c.urb == URB_DONE)
    then Rest(l.tx.data, l.epSize) else l.tx.data
  }

  ghost predicate ChannelInv(l: Link) {
    && 0 < l.epSize && l.c.epType == BULK
    && l.c.mask == InitialMask(false).(chhltd := l.c.mask.chhltd)
    && (l.c.mask.chhltd ==> l.live)
    && (l.c.mask.chhltd && l.c.status == HC_XFRC ==> l.acked)
    && (l.live ==>
          && l.tx.state.CDC_SEND_DATA_WAIT? && l.c.urb == URB_IDLE
          && l.packet == Packet(Chunk(l.tx.data, l.epSize), l.c.toggleOut))
  }

  ghost predicate Inv(l: Link) {
    && ChannelInv(l)
    && (l.acked <==> l.dev.toggle != l.c.toggleOut)
    && (l.acked && l.tx.state.CDC_SEND_DATA_WAIT? ==> l.c.urb != URB_DONE)
    && (l.tx.state.CDC_IDLE? || l.tx.state.CDC_SEND_DATA? || l.tx.state.CDC_SEND_DATA_WAIT?)
    && (l.tx.state.CDC_IDLE? ==> l.tx.data == [] && !l.acked)
    && l.given == l.dev.accepted + Pending(l)
    && l.calls == l.callbacks + if l.tx.state.CDC_IDLE? then 0 else 1
  }

  lemma ChunkRest(data: seq<byte>, epSize: nat)
    ensures Chunk(data, epSize) + Rest(data, epSize) == data
  {
  }

  lemma DeliverInv(l: Link)
    requires Inv(l) && Enabled(l, Deliver)
    ensures Inv(Apply(l, Deliver))
  {
    ChunkRest(l.tx.data, l.epSize);
    var chunk, rest := Chunk(l.tx.data, l.epSize), Rest(l.tx.data, l.epSize);
    assert l.dev.accepted + (chunk + rest) == l.dev.accepted + chunk + rest;
  }

  lemma HandleInv(l: Link, hcint: Ints)
    requires Inv(l) && Enabled(l, Handle(hcint))
    ensures Inv(Apply(l, Handle(hcint)))
  {
    OutOutcomes(l.c, hcint);
    OutcomeInv(l, hcint.And(l.c.mask), OutIsr(l.c, hcint));
  }

  lemma OutcomeInv(l: Link, i: Ints, c: Chan)
    requires Inv(l) && l.live && (i.xfercompl ==> l.acked)
    requires OutOutcome(l.c, i, c) && (TakesHalted(false, i) ==> l.c.mask.chhltd && !c.mask.chhltd)
    ensures Inv(l.(c := c, live := !TakesHalted(false, i), acked := l.acked && c.urb != URB_DONE))
  {
  }

  lemma PollInv(l: Link)
    requires Inv(l)
    ensures Inv(Apply(l, Poll))
  {
  }

  lemma StepInv(l: Link, e: Event)
    requires Inv(l) && Enabled(l, e)
    ensures Inv(Apply(l, e))
  {
    match e
    case Transmit(m) =>
    case Poll => PollInv(l);
    case Deliver => DeliverInv(l);
    case Handle(hcint) => HandleInv(l, hcint);
  }

  lemma {:induction false} RunInv(l: Link, events: seq<Event>)
    requires Inv(l) && Run(l, events)
    ensures Inv(Final(l, events))
    decreases |events|
  {
    if events == [] {
    } else {
      StepInv(l, events[0]);
      RunInv(Apply(l, events[0]), events[1..]);
    }
  }

  // -- The theorems ---------------------------------------------------------------

  /** In every run the device has accepted a prefix of the bytes given, in order
      and without repeats; all of them when no transfer is in progress, and then
      the two data toggles agree. Each call has had its one callback, except the
      call in progress, and each submission was a single packet. */
  lemma ExactlyOnce(l: Link, events: seq<Event>)
    requires Initial(l) && Run(l, events)
    ensures var f := Final(l, events);
            && f.dev.accepted <= f.given
            && (f.tx.state.CDC_IDLE? ==>
                  && f.dev.accepted == f.given
                  && f.dev.toggle == f.c.toggleOut
                  && f.callbacks == f.calls)
            && (!f.tx.state.CDC_IDLE? ==> f.callbacks + 1 == f.calls)
            && (f.live ==> NumPackets(|f.packet.data|, l.epSize) == 1)
  {
    RunInv(l, events);
    EpSizeFixed(l, events);
    var f := Final(l, events);
    OnePacketIff(|f.packet.data|, f.epSize);
  }

  lemma {:induction false} EpSizeFixed(l: Link, events: seq<Event>)
    ensures Final(l, events).epSize == l.epSize
    decreases |events|
  {
    if events == [] {
    } else {
      EpSizeFixed(Apply(l, events[0]), events[1..]);
    }
  }

  /** The callback comes after the last acknowledgement: on the very step that
      makes it, the device has accepted everything. */
  lemma CallbackAfterLastAck(l: Link, events: seq<Event>, e: Event)
    requires Initial(l) && Run(l, events) && Enabled(Final(l, events), e)
    ensures var f, f' := Final(l, events), Apply(Final(l, events), e);
            f'.callbacks != f.callbacks ==> f'.callbacks == f.callbacks + 1 && f.dev.accepted == f.given
  {
    RunInv(l, events);
  }

  /** No event that can happen changes anything any more. */
  ghost predicate Stuck(l: Link) {
    forall e :: Enabled(l, e) ==> Apply(l, e) == l
  }

  /** The machine waits for ever exactly when it waits for a packet that has been
      halted without having been reported done or not ready. */
  lemma StuckIff(l: Link)
    requires Inv(l)
    ensures Stuck(l) <==>
              l.tx.state.CDC_SEND_DATA_WAIT? && !l.live && l.c.urb != URB_DONE && l.c.urb != URB_NOTREADY
  {
    assert Enabled(l, Poll);
    if l.tx.state.CDC_IDLE? {
      assert Enabled(l, Transmit([]));
      assert Apply(l, Transmit([])).calls == l.calls + 1;
    } else if l.live {
      assert Enabled(l, Deliver);
      QuietHalts(l);
    }
  }

  /** A packet in flight can always be brought to a halt that changes the channel. */
  lemma QuietHalts(l: Link)
    requires Inv(l) && l.live
    ensures !Stuck(l)
  {
    var e := Handle(if l.c.mask.chhltd then HALTED else ONLY_STALL);
    assert Enabled(l, e);
    assert Apply(l, e).c.mask.chhltd != l.c.mask.chhltd;
  }

  const ONLY_STALL := HALTED.(chhltd := false, stall := true)
  const ONLY_XACTERR := HALTED.(chhltd := false, xacterr := true)
  const ONLY_DATATGLERR := HALTED.(chhltd := false, datatglerr := true)

  lemma {:induction false} StuckForEver(l: Link, events: seq<Event>)
    requires Stuck(l) && Run(l, events)
    ensures Final(l, events) == l
    decreases |events|
  {
    if events == [] {
    } else {
      StuckForEver(l, events[1..]);
    }
  }

  /** The halt of a packet leaves the machine stuck exactly when it was asked for by
      something other than a completion, a NAK or a NYET: a stall, a transaction error,
      or a toggle error, which is not even reported. */
  lemma HaltSticksIff(l: Link, hcint: Ints)
    requires Inv(l) && Enabled(l, Handle(hcint)) && TakesHalted(false, hcint.And(l.c.mask))
    ensures Stuck(Apply(l, Handle(hcint))) <==> l.c.status !in {HC_XFRC, HC_NAK, HC_NYET}
  {
    HandleInv(l, hcint);
    StuckIff(Apply(l, Handle(hcint)));
  }

  /** Any message can end in each of the three ways. */
  lemma StuckIsReached(l: Link, m: seq<byte>, cause: Ints) returns (events: seq<Event>)
    requires Initial(l) && cause in {ONLY_STALL, ONLY_XACTERR, ONLY_DATATGLERR}
    ensures Run(l, events) && Stuck(Final(l, events))
    ensures Final(l, events).given == m && Final(l, events).callbacks == 0
    ensures Final(l, events).c.urb == if cause.stall then URB_STALL else if cause.xacterr then URB_ERROR else URB_IDLE
  {
    var l2 := Apply(Apply(l, Transmit(m)), Poll);
    assert Run(l, [Transmit(m), Poll]) && Final(l, [Transmit(m), Poll]) == l2 by {
      assert [Transmit(m), Poll][1..] == [Poll] && [Poll][1..] == [];
    }
    RunInv(l, [Transmit(m), Poll]);
    HaltedBy(l2, cause);
    var l4 := Apply(Apply(l2, Handle(cause)), Handle(HALTED));
    events := [Transmit(m), Poll, Handle(cause), Handle(HALTED)];
    hide Apply, Enabled, Inv, Initial, Stuck;
    assert events[1..] == [Poll, Handle(cause), Handle(HALTED)];
    assert events[1..][1..] == [Handle(cause), Handle(HALTED)];
    assert events[1..][1..][1..] == [Handle(HALTED)];
    assert events[1..][1..][1..][1..] == [];
    assert Run(l4, []) && Final(l4, []) == l4;
    assert Run(l2, events[1..][1..]) && Final(l2, events[1..][1..]) == l4;
  }

  lemma HaltedBy(l: Link, cause: Ints)
    requires Inv(l) && l.live && !l.c.mask.chhltd && cause in {ONLY_STALL, ONLY_XACTERR, ONLY_DATATGLERR}
    ensures Enabled(l, Handle(cause)) && Enabled(Apply(l, Handle(cause)), Handle(HALTED))
    ensures var f := Apply(Apply(l, Handle(cause)), Handle(HALTED));
            && Stuck(f) && f.given == l.given && f.callbacks == l.callbacks
            && f.c.urb == if cause.stall then URB_STALL else if cause.xacterr then URB_ERROR else URB_IDLE
  {
    var l1 := Apply(l, Handle(cause));
    HandleInv(l, cause);
    HandleInv(l1, HALTED);
    StuckIff(Apply(l1, Handle(HALTED)));
  }

  /** Packets that the rest of the message needs: at least one, even if empty. */
  function Work(l: Link): nat
    requires 0 < l.epSize
  {
    if l.tx.state.CDC_IDLE? then 0
    else if l.tx.data == [] then 1
    else (|l.tx.data| + l.epSize - 1) / l.epSize
  }

  /** Only a packet reported done makes progress, by exactly one packet, so a
      message of n bytes takes max(1, ceil(n / epSize)) of them. */
  lemma DoneIsProgress(l: Link)
    requires Inv(l)
    ensures Work(Apply(l, Poll))
            == Work(l) - if l.tx.state.CDC_SEND_DATA_WAIT? && l.c.urb == URB_DONE then 1 else 0
  {
    if l.tx.state.CDC_SEND_DATA_WAIT? && l.c.urb == URB_DONE && l.tx.data != [] {
      PacketsShift(|l.tx.data|, l.epSize);
    }
  }

  lemma PacketsShift(n: nat, m: nat)
    requires 0 < n && 0 < m
    ensures (n + m - 1) / m == if n > m then (n - m + m - 1) / m + 1 else 1
  {
    if n > m {
      DivShift(n - 1, m);
    } else {
      DivUnique(n + m - 1, m, 1, n - 1);
    }
  }
}
