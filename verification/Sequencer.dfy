/**
  The test sequencer: one command at a time over the CDC pipes, and the walk of the
  states from 1 to 20. A run is the main loop, turn by turn, on whatever the bus, the
  device and the board do.
*/
module Sequencer {
  import opened Options
  import opened Channel
  import opened Cdc
  import opened Commands
  import opened Pins
  import opened Words

  datatype ResponseState = CMD_IDLE | TX_BUSY | TX_DONE | RX_BUSY | RX_DONE

  /** Errors never return: they are left only by unplugging. */
  datatype Failure = Error(nr: nat) | PinError(pin: Pin) | Message(text: string)

  /** The main loop, the CDC data machine, what the two sides drive (`board`,
      `device`), how many bytes the command expects in answer and how many the last packet
      taken for an answer had, how many commands, responses and turns of the state switch
      there have been, and the bytes of the command that the device has taken. */
  datatype World = World(
    state: nat, cmdrsp: ResponseState, command: Option<Command>, expected: nat, pinIter: nat, outerIter: nat,
    rsp: Mask, transfer: bool, tx: Tx, rx: DataState, board: Mask, device: Mask,
    failed: Option<Failure>, received: nat, issued: nat, answered: nat, turns: nat, taken: seq<byte>)

  /** One turn of the loop: whether the class handler runs and what it finds, whether
      the device is connected, what it answers (`report`) and the board senses, whether
      a wait has become too long, and whether the checks other than of pins pass. */
  datatype Turn = Turn(
    handled: bool, txUrb: UrbState, rxUrb: UrbState, count: nat, connected: bool,
    report: Mask, sensed: Mask, late: bool, good: bool)

  const INITIAL := World(
    0, CMD_IDLE, None, 0, 0, 0, {}, false, Tx(CDC_IDLE, []), CDC_IDLE, Outputs(ALL_HIGH), ALL_HIGH, None, 0, 0, 0, 0,
    [])

  // -- The command machine -----------------------------------------------------------

  function Fail(w: World, f: Failure): World { w.(failed := Some(f)) }

  /** command_response */
  function Send(w: World, c: Command): World {
    w.(transfer := true, tx := Tx(CDC_SEND_DATA, Encoded(c)), cmdrsp := TX_BUSY, command := Some(c),
       expected := Expected(c), issued := w.issued + 1, taken := [])
  }

  /** USBH_CDC_TransmitCallback: the device has the whole command, and drives what it reads
      in a pin command. */
  function Transmitted(w: World): World {
    if w.cmdrsp != TX_BUSY then Fail(w, Error(11))
    else
      var device := match Decode(w.taken) case Some(SetPins(m)) => m case _ => w.device;
      w.(cmdrsp := TX_DONE, device := device)
  }

  /** The response buffer when a packet of `count` bytes has come in: behind them it holds
      what it held. */
  function Landed(was: Mask, report: Mask, count: nat): Mask {
    set p: Pin | if p / 8 < count then p in report else p in was
  }

  /** USBH_CDC_ReceiveCallback, which does not ask how many bytes there are. */
  function Received(w: World, report: Mask, count: nat): World {
    if w.cmdrsp != RX_BUSY then Fail(w, Error(21))
    else w.(cmdrsp := RX_DONE, rsp := Landed(w.rsp, report, count), received := count, answered := w.answered + 1)
  }

  /** What the device has taken once the packet in flight is reported done. */
  function Taken(w: World, t: Turn, epSize: nat): seq<byte> {
    if w.tx.state == CDC_SEND_DATA_WAIT && t.txUrb == URB_DONE then w.taken + Chunk(w.tx.data, epSize) else w.taken
  }

  /** The class handler: transmission, then reception. */
  function ProcessTx(w: World, t: Turn, epSize: nat): World {
    var r := TxPoll(w.tx, epSize, t.txUrb);
    var w1 := w.(tx := r.tx, taken := Taken(w, t, epSize));
    if r.callback then Transmitted(w1) else w1
  }

  function ProcessRx(w: World, t: Turn): World {
    var r := RxPoll(w.rx, t.rxUrb, t.count);
    var w1 := w.(rx := r.state);
    if r.callback then Received(w1, t.report, t.count) else w1
  }

  function ProcessCdc(w: World, t: Turn, epSize: nat): World {
    if !t.handled || !w.transfer then w
    else
      var w1 := ProcessTx(w, t, epSize);
      if w1.failed.Some? then w1 else ProcessRx(w1, t)
  }

  /** command_response_handle */
  function HandleResponse(w: World, t: Turn): World {
    match w.cmdrsp
    case TX_BUSY => if t.late then Fail(w, Error(10)) else w
    case TX_DONE => w.(transfer := true, rx := CDC_RECEIVE_DATA, cmdrsp := RX_BUSY)
    case RX_BUSY => if t.late then Fail(w, Error(20)) else w
    case RX_DONE =>
      if w.command == Some(TestMode) && !t.good then Fail(w, Error(30)) else w.(cmdrsp := CMD_IDLE)
    case CMD_IDLE => w
  }

  // -- The states ---------------------------------------------------------------------

  function Checked(w: World, wrong: Option<Pin>): World {
    match wrong
    case Some(p) => Fail(w, PinError(p))
    case None => w
  }

  function Must(w: World, good: bool, f: Failure): World { if good then w else Fail(w, f) }

  /** The end of a walk, or the next pin of it: `next` is the state to go on with. */
  function Walk(w: World, pins: nat, next: nat): (World, bool) {
    if w.pinIter >= pins then
      if w.outerIter > 10 then (w.(pinIter := 0, outerIter := 0, state := next), false)
      else (w.(pinIter := 0, outerIter := w.outerIter + 1), true)
    else (w, true)
  }

  function At(pins: seq<Pin>, k: nat): Pin { if k < |pins| then pins[k] else 0 }

  /** The switch on the state that has just been entered. */
  function Dispatch(w: World, t: Turn): World {
    match w.state
    case 1 => Send(w, GetInfo)
    case 2 => Must(w, t.good, Error(30))
    case 3 => Send(w, TestMode)
    case 4 =>
      var (w1, more) := Walk(w, |INP|, 5);
      if more then Send(w1, SetPins(OneLow(At(INP, w1.pinIter)))) else w1
    case 5 =>
      var w1 := Checked(w, Check(w.rsp, t.sensed, Some(At(INP, w.pinIter))));
      if w1.failed.Some? then w1 else w1.(pinIter := w.pinIter + 1, state := 3)
    case 6 => Send(w, SetPins(ALL_HIGH))
    case 7 => Checked(w, Check(w.rsp, t.sensed, None))
    case 8 =>
      var (w1, more) := Walk(w, |OUTP|, 10);
      if more then w1.(board := Outputs(OneLow(At(OUTP, w1.pinIter)))) else w1
    case 9 => Send(w, SetPins(ALL_HIGH))
    case 10 =>
      var w1 := Checked(w, Check(w.rsp, t.sensed, Some(At(OUTP, w.pinIter))));
      if w1.failed.Some? then w1 else w1.(pinIter := w.pinIter + 1, state := 7)
    case 11 => Send(w.(board := Outputs(ALL_LOW)), SetPins(ALL_LOW))
    case 12 => Checked(w, CheckLow(w.rsp, t.sensed))
    case 13 => Send(w, OptionBytes)
    case 14 => Must(w, t.good, Message("OPT"))
    case 15 => Send(w, TestHeaders)
    case 16 => Must(w, t.good, Message("HDR"))
    case 17 => Send(w, OscOn)
    case 18 => if t.good then Send(w, OscOff) else Fail(w, Message("OSC"))
    case 19 => Must(w, t.good, Message("CCN"))
    case 20 => Send(w.(board := Outputs(ALL_HIGH)), SetPins(ALL_HIGH))
    case 21 => Send(w, Led(true))
    case 22 => Send(w, Led(false)).(state := 20)
    case _ => w
  }

  /** One turn of the main loop. */
  function Step(w: World, t: Turn, epSize: nat): World {
    if w.failed.Some? then if t.connected then w else INITIAL
    else
      var p := ProcessCdc(w, t, epSize);
      if p.failed.Some? then p
      else if !t.connected then
        if p.state != 0 || p.cmdrsp != CMD_IDLE then INITIAL else p
      else if p.cmdrsp != CMD_IDLE then HandleResponse(p, t)
      else Dispatch(p.(state := p.state + 1, turns := p.turns + 1), t)
  }

  // -- Runs -----------------------------------------------------------------------------

  /** The bytes of a packet that say what the device sees of the pins are right. */
  ghost predicate Reported(report: Mask, count: nat, b: Board, low: set<Pin>) {
    forall p: Pin :: p in OUTP && p / 8 < count ==> (p in report <==> !Low(b, low, p))
  }

  /** As far as its packet goes the device reports, and the board senses, what the wiring
      makes of what both drive. Answers to other commands say nothing about pins. */
  ghost predicate Genuine(w: World, t: Turn, b: Board) {
    var low := Driven(w.board, w.device);
    && (AwaitsPins(w) ==> Reported(t.report, t.count, b, low))
    && Sees(t.sensed, b, low, INP)
  }

  predicate AwaitsPins(w: World) { w.cmdrsp == RX_BUSY && w.command.Some? && w.command.value.SetPins? }

  /** The bytes of an answer in which the pins that the device observes are found. */
  const PIN_BYTES := 5

  /** No answer to a pin command ends before these bytes. */
  predicate Whole(w: World, t: Turn) {
    AwaitsPins(w) && RxPoll(w.rx, t.rxUrb, t.count).callback ==> PIN_BYTES <= t.count
  }

  function Run(turns: seq<Turn>, epSize: nat): World {
    if turns == [] then INITIAL else Step(Run(turns[..|turns| - 1], epSize), turns[|turns| - 1], epSize)
  }

  /** Since the program last started, each turn has been genuine; what a failed program
      does not look at does not matter. */
  ghost predicate AllGenuine(turns: seq<Turn>, epSize: nat, b: Board)
    decreases |turns|
  {
    turns != [] && Run(turns, epSize) != INITIAL ==>
      var n := |turns| - 1;
      var w := Run(turns[..n], epSize);
      (w.failed.None? ==> Genuine(w, turns[n], b)) && AllGenuine(turns[..n], epSize, b)
  }

  /** Since then, every answer to a pin command has had the bytes that matter. */
  predicate AllWhole(turns: seq<Turn>, epSize: nat)
    decreases |turns|
  {
    turns != [] && Run(turns, epSize) != INITIAL ==>
      var n := |turns| - 1;
      var w := Run(turns[..n], epSize);
      (w.failed.None? ==> Whole(w, turns[n])) && AllWhole(turns[..n], epSize)
  }

  // -- The invariant ---------------------------------------------------------------------

  /** The command machine and the CDC machine are busy together, one way at a time. */
  predicate Coupled(w: World) {
    && (w.cmdrsp == TX_BUSY <==> w.tx.state != CDC_IDLE)
    && w.tx.state in {CDC_IDLE, CDC_SEND_DATA, CDC_SEND_DATA_WAIT}
    && (w.cmdrsp == RX_BUSY <==> w.rx != CDC_IDLE)
    && w.rx in {CDC_IDLE, CDC_RECEIVE_DATA, CDC_RECEIVE_DATA_WAIT}
    && (w.cmdrsp == TX_BUSY || w.cmdrsp == RX_BUSY ==> w.transfer)
    && w.issued == w.answered + (if w.cmdrsp == CMD_IDLE || w.cmdrsp == RX_DONE then 0 else 1)
  }

  /** What is expected is the answer to the last command, and the first is GetInfo. */
  predicate Asked(w: World) {
    && w.expected == (match w.command case Some(c) => Expected(c) case None => 0)
    && (w.issued == 0 <==> w.command.None?)
    && (w.issued == 1 ==> w.command == Some(GetInfo))
  }

  /** What the device has taken and what is still to be sent are the command; once it has all
      been sent, the device reads it as it was meant. */
  predicate Carried(w: World) {
    && (w.cmdrsp != CMD_IDLE ==> w.command.Some?)
    && (w.cmdrsp == TX_BUSY ==> w.taken + w.tx.data == Encoded(w.command.value))
    && (w.cmdrsp != TX_BUSY && w.command.Some? ==> w.taken == Encoded(w.command.value))
    && (w.cmdrsp != TX_BUSY && w.command.Some? ==> Decode(w.taken) == w.command)
  }

  /** How many commands have been sent when a state stands at a pin of a walk. */
  function IssuedAt(state: nat, outer: nat, pin: nat): nat {
    if state <= 2 then (if state == 0 then 0 else 1)
    else if state <= 4 then 2 + 13 * outer + pin + (state - 3)
    else if state <= 6 then 158 + (state - 5)
    else if state <= 9 then 159 + 5 * outer + pin + (if state == 9 then 1 else 0)
    else if state == 10 then 219
    else if state <= 12 then 220
    else if state <= 14 then 221
    else if state <= 16 then 222
    else if state == 17 then 223
    else 224
  }

  /** How many turns of the state switch that has taken. */
  function TurnsAt(state: nat, outer: nat, pin: nat): nat {
    if state <= 2 then state
    else if state <= 4 then 3 + 26 * outer + 2 * pin + (state - 3)
    else if state <= 6 then 316 + (state - 5)
    else if state <= 9 then 318 + 15 * outer + 3 * pin + (state - 7)
    else 499 + (state - 10)
  }

  predicate Place(w: World) {
    && w.state <= 21
    && (if w.state <= 2 || w.state == 5 || w.state == 6 || 10 <= w.state then w.pinIter == 0 && w.outerIter == 0
        else
          var pins := if w.state <= 4 then |INP| else |OUTP|;
          w.outerIter <= 11 && w.pinIter <= pins && (w.state != 3 && w.state != 7 ==> w.pinIter < pins))
    && (if w.state < 20 then
          w.issued == IssuedAt(w.state, w.outerIter, w.pinIter) && w.turns == TurnsAt(w.state, w.outerIter, w.pinIter)
        else w.issued >= 225 && w.turns >= 509)
  }

  function DeviceMask(w: World): Option<Mask> {
    match w.state
    case 4 => Some(OneLow(At(INP, w.pinIter)))
    case 6 => Some(ALL_HIGH)
    case 9 => Some(ALL_HIGH)
    case 11 => Some(ALL_LOW)
    case _ => None
  }

  function BoardMask(w: World): Option<Mask> {
    if w.state <= 6 then Some(Outputs(ALL_HIGH))
    else if w.state == 8 || w.state == 9 then Some(Outputs(OneLow(At(OUTP, w.pinIter))))
    else if w.state == 11 then Some(Outputs(ALL_LOW))
    else None
  }

  /** What is driven while a pin command is on its way, and what came back from it. */
  ghost predicate Driving(w: World, b: Board) {
    && (var m := DeviceMask(w); m.Some? ==>
          && w.command == Some(SetPins(m.value))
          && (w.cmdrsp != TX_BUSY ==> w.device == m.value)
          && (w.cmdrsp == RX_DONE || w.cmdrsp == CMD_IDLE ==> Sees(w.rsp, b, Driven(w.board, w.device), OUTP)))
    && (var m := BoardMask(w); m.Some? ==> w.board == m.value)
  }

  ghost predicate WalkedUpTo(b: Board, pins: seq<Pin>, outer: nat, pin: nat) {
    forall j :: 0 <= j < |pins| && (outer > 0 || j < pin) ==> Faithful(b, {pins[j]})
  }

  /** What the checks so far have shown about the board. */
  ghost predicate Walked(w: World, b: Board) {
    && (3 <= w.state <= 4 ==> WalkedUpTo(b, INP, w.outerIter, w.pinIter))
    && (5 <= w.state ==> WalkedUpTo(b, INP, 1, 0))
    && (7 <= w.state <= 9 ==> WalkedUpTo(b, OUTP, w.outerIter, w.pinIter))
    && (10 <= w.state ==> WalkedUpTo(b, OUTP, 1, 0))
  }

  /** Whatever the device reports and the board senses. */
  predicate Order(w: World) {
    match w.failed
    case None => Coupled(w) && Asked(w) && Carried(w) && Place(w)
    case Some(f) => f != Error(11) && f != Error(21)
  }

  /** While both tell the truth about one board. */
  ghost predicate OnBoard(w: World, b: Board) {
    match w.failed
    case None => Driving(w, b) && Walked(w, b)
    case Some(f) => f.PinError? ==> !Identity(b)
  }

  ghost predicate Inv(w: World, b: Board) { Order(w) && OnBoard(w, b) }

  lemma InitialInv(b: Board)
    ensures Inv(INITIAL, b)
  {
  }

  // -- The order of states and commands --------------------------------------------------

  lemma PlaceFrame(w: World, v: World)
    requires v.state == w.state && v.pinIter == w.pinIter && v.outerIter == w.outerIter
    requires v.issued == w.issued && v.turns == w.turns
    ensures Place(v) <==> Place(w)
  {
  }

  lemma TakenIsCarried(w: World, t: Turn, epSize: nat)
    requires w.failed.None? && Coupled(w) && Carried(w)
    ensures var r := TxPoll(w.tx, epSize, t.txUrb);
            && (w.cmdrsp != TX_BUSY ==> r.tx == w.tx && Taken(w, t, epSize) == w.taken)
            && (w.cmdrsp == TX_BUSY && !r.callback ==>
                  Taken(w, t, epSize) + r.tx.data == Encoded(w.command.value))
            && (r.callback ==>
                  w.cmdrsp == TX_BUSY && Taken(w, t, epSize) == Encoded(w.command.value)
                  && Decode(Taken(w, t, epSize)) == w.command)
  {
    hide Encoded, Decode, Chunk, Rest;
    var done, left := Chunk(w.tx.data, epSize), Rest(w.tx.data, epSize);
    ChunkAndRest(w.tx.data, epSize);
    assert w.taken + (done + left) == (w.taken + done) + left;
    if w.command.Some? {
      DecodeEncoded(w.command.value);
    }
  }

  lemma ChunkAndRest(data: seq<byte>, epSize: nat)
    ensures Chunk(data, epSize) + Rest(data, epSize) == data
  {
  }

  lemma ProcessTxOrder(w: World, t: Turn, epSize: nat)
    requires w.failed.None? && Order(w) && w.transfer
    ensures var v := ProcessTx(w, t, epSize);
            && v.failed.None? && Order(v) && v.transfer
            && (v == w.(tx := v.tx, taken := v.taken) || v.cmdrsp == TX_DONE)
            && (w.cmdrsp != TX_BUSY ==> v == w)
  {
    TakenIsCarried(w, t, epSize);
    hide Place, Chunk, Rest, Encoded, Decode, Taken;
    PlaceFrame(w, ProcessTx(w, t, epSize));
  }

  lemma ProcessRxOrder(w: World, t: Turn)
    requires w.failed.None? && Order(w) && w.transfer
    ensures var v := ProcessRx(w, t);
            && v.failed.None? && Order(v)
            && (v == w.(rx := v.rx) || (w.cmdrsp == RX_BUSY && v == Received(w.(rx := v.rx), t.report, t.count)))
  {
    hide Place, Landed;
    PlaceFrame(w, ProcessRx(w, t));
  }

  lemma ProcessOrder(w: World, t: Turn, epSize: nat)
    requires w.failed.None? && Order(w)
    ensures var p := ProcessCdc(w, t, epSize);
            p.failed.None? && Order(p) && (p.cmdrsp == CMD_IDLE ==> p == w)
  {
    if t.handled && w.transfer {
      ProcessTxOrder(w, t, epSize);
      ProcessRxOrder(ProcessTx(w, t, epSize), t);
      hide Place, TxPoll, Landed;
    }
  }

  lemma HandleOrder(w: World, t: Turn)
    requires w.failed.None? && Order(w) && w.cmdrsp != CMD_IDLE
    ensures Order(HandleResponse(w, t))
  {
    hide Place;
    PlaceFrame(w, HandleResponse(w, t));
  }

  /** A state is entered when no command is outstanding. */
  function Entered(w: World, t: Turn): World {
    Dispatch(w.(state := w.state + 1, turns := w.turns + 1), t)
  }

  lemma EnterWalkIn(w: World, t: Turn)
    requires w.failed.None? && Order(w) && w.cmdrsp == CMD_IDLE && (w.state == 3 || w.state == 4)
    ensures Order(Entered(w, t))
  {
    hide Check, OneLow, Encoded, Decode, Outputs, ALL_HIGH;
  }

  lemma EnterWalkOut(w: World, t: Turn)
    requires w.failed.None? && Order(w) && w.cmdrsp == CMD_IDLE && (w.state == 7 || w.state == 8)
    ensures Order(Entered(w, t))
  {
    hide OneLow, Encoded, Decode, Outputs, ALL_HIGH, INP;
  }

  lemma EnterSeenOut(w: World, t: Turn)
    requires w.failed.None? && Order(w) && w.cmdrsp == CMD_IDLE && w.state == 9
    ensures Order(Entered(w, t))
  {
    hide Check, Encoded, Decode, Outputs, ALL_HIGH, INP;
  }

  lemma EnterEarly(w: World, t: Turn)
    requires w.failed.None? && Order(w) && w.cmdrsp == CMD_IDLE && w.state <= 11 && w.state !in {3, 4, 7, 8, 9}
    ensures Order(Entered(w, t))
  {
    hide Check, CheckLow, OneLow, Encoded, Decode, Outputs, ALL_HIGH, ALL_LOW;
  }

  lemma EnterLate(w: World, t: Turn)
    requires w.failed.None? && Order(w) && w.cmdrsp == CMD_IDLE && 12 <= w.state
    ensures Order(Entered(w, t))
  {
    hide Check, CheckLow, OneLow, Encoded, Decode, Outputs, ALL_HIGH, ALL_LOW;
  }

  lemma EnterOrder(w: World, t: Turn)
    requires w.failed.None? && Order(w) && w.cmdrsp == CMD_IDLE
    ensures Order(Entered(w, t))
  {
    hide Order, Entered;
    if w.state == 3 || w.state == 4 {
      EnterWalkIn(w, t);
    } else if w.state == 7 || w.state == 8 {
      EnterWalkOut(w, t);
    } else if w.state == 9 {
      EnterSeenOut(w, t);
    } else if w.state <= 11 {
      EnterEarly(w, t);
    } else {
      EnterLate(w, t);
    }
  }

  /** Every turn keeps the order, whatever is reported and sensed. */
  lemma StepOrder(w: World, t: Turn, epSize: nat)
    requires Order(w)
    ensures Order(Step(w, t, epSize))
  {
    hide Order, Dispatch, ProcessCdc, HandleResponse;
    InitialOrder();
    if w.failed.None? {
      ProcessOrder(w, t, epSize);
      var p := ProcessCdc(w, t, epSize);
      if p.cmdrsp != CMD_IDLE {
        HandleOrder(p, t);
      } else {
        EnterOrder(p, t);
      }
    }
  }

  lemma InitialOrder()
    ensures Order(INITIAL)
  {
  }

  lemma {:induction false} RunOrder(turns: seq<Turn>, epSize: nat)
    ensures Order(Run(turns, epSize))
  {
    hide Order, Step;
    if turns == [] {
      InitialOrder();
    } else {
      var n := |turns| - 1;
      RunOrder(turns[..n], epSize);
      StepOrder(Run(turns[..n], epSize), turns[n], epSize);
    }
  }

  // -- What is known about the board ------------------------------------------------------

  /** An answer with the bytes that matter says all about the pins. */
  lemma LandedSees(was: Mask, report: Mask, count: nat, b: Board, low: set<Pin>)
    requires PIN_BYTES <= count && Reported(report, count, b, low)
    ensures Sees(Landed(was, report, count), b, low, OUTP)
  {
    hide Low;
  }

  /** What the buffer holds after a pin command is what the device sees, and what is
      sensed is what the board sees. */
  ghost predicate Truthful(w: World, t: Turn, b: Board) {
    var low := Driven(w.board, w.device);
    && (DeviceMask(w).Some? && AwaitsPins(w) && RxPoll(w.rx, t.rxUrb, t.count).callback ==>
          Sees(Landed(w.rsp, t.report, t.count), b, low, OUTP))
    && Sees(t.sensed, b, low, INP)
  }

  /** Only then does a check always say what it would say of the report: with fewer bytes
      it is made, for some pins, on what an earlier answer has left. */
  lemma AnswerDecidesIff(count: nat)
    ensures (forall was, report, sensed, asserted :: SameCheck(was, report, sensed, asserted, count))
            <==> PIN_BYTES <= count
  {
    forall was, report, sensed, asserted | PIN_BYTES <= count
      ensures SameCheck(was, report, sensed, asserted, count)
    {
      InputsDecide(OUTP, Landed(was, report, count), report, asserted);
    }
    if count < PIN_BYTES {
      var report := ALL_HIGH - {34};
      FirstWrongIff(OUTP, Landed(ALL_HIGH, report, count), None);
      FirstWrongIff(INP, ALL_HIGH, None);
      FirstWrongIff(OUTP, report, None);
      assert OUTP[4] == 34 && Wrong(OUTP[4] in report, OUTP[4], None);
      assert !SameCheck(ALL_HIGH, report, ALL_HIGH, None, count);
    }
  }

  predicate SameCheck(was: Mask, report: Mask, sensed: Mask, asserted: Option<Pin>, count: nat) {
    Check(Landed(was, report, count), sensed, asserted) == Check(report, sensed, asserted)
  }

  lemma GenuineIsTruthful(w: World, t: Turn, b: Board)
    requires Genuine(w, t, b) && Whole(w, t)
    ensures Truthful(w, t, b)
  {
    hide Sees, Reported, Landed, Driven;
    if AwaitsPins(w) && RxPoll(w.rx, t.rxUrb, t.count).callback {
      LandedSees(w.rsp, t.report, t.count, b, Driven(w.board, w.device));
    }
  }

  lemma ProcessBoard(w: World, t: Turn, epSize: nat, b: Board)
    requires w.failed.None? && Inv(w, b) && Truthful(w, t, b)
    ensures OnBoard(ProcessCdc(w, t, epSize), b)
  {
    if t.handled && w.transfer {
      ProcessTxBoard(w, t, epSize, b);
      ProcessTxOrder(w, t, epSize);
      var v := ProcessTx(w, t, epSize);
      hide OnBoard, Place, Order, ProcessTx, Truthful;
      ProcessRxBoard(v, t, b);
    }
  }

  /** What is known stays while the same commands and checks go on, if the device drives
      what it is told and the buffer shows what it sees. */
  lemma BoardKept(w: World, v: World, b: Board)
    requires w.failed.None? && v.failed.None? && OnBoard(w, b)
    requires v.state == w.state && v.pinIter == w.pinIter && v.outerIter == w.outerIter
    requires v.board == w.board && v.command == w.command
    requires v.cmdrsp != TX_BUSY && w.cmdrsp == TX_BUSY && v.command.Some? && v.command.value.SetPins? ==>
               v.device == v.command.value.levels
    requires w.cmdrsp != TX_BUSY ==> v.cmdrsp != TX_BUSY && v.device == w.device
    requires (v.cmdrsp == RX_DONE || v.cmdrsp == CMD_IDLE) && DeviceMask(w).Some? ==>
               || Sees(v.rsp, b, Driven(v.board, v.device), OUTP)
               || (v.cmdrsp == w.cmdrsp && v.rsp == w.rsp && v.device == w.device)
    ensures OnBoard(v, b)
  {
    hide Place, WalkedUpTo, Sees, Driven, OneLow, Outputs;
  }

  lemma ProcessTxBoard(w: World, t: Turn, epSize: nat, b: Board)
    requires w.failed.None? && Inv(w, b) && w.transfer
    ensures OnBoard(ProcessTx(w, t, epSize), b)
  {
    hide OnBoard, Place, Chunk, Rest, Encoded, Decode, Taken;
    ProcessTxOrder(w, t, epSize);
    TakenIsCarried(w, t, epSize);
    BoardKept(w, ProcessTx(w, t, epSize), b);
  }

  lemma ProcessRxBoard(w: World, t: Turn, b: Board)
    requires w.failed.None? && Order(w) && OnBoard(w, b) && w.transfer
    requires w.cmdrsp == RX_BUSY ==> Truthful(w, t, b)
    ensures OnBoard(ProcessRx(w, t), b)
  {
    ProcessRxOrder(w, t);
    hide Carried, Place, Sees, Driven, Landed, Walked;
    BoardKept(w, ProcessRx(w, t), b);
  }

  lemma HandleBoard(w: World, t: Turn, b: Board)
    requires w.failed.None? && Inv(w, b) && w.cmdrsp != CMD_IDLE
    ensures OnBoard(HandleResponse(w, t), b)
  {
    hide Carried, Place, WalkedUpTo, Sees, Driven, OneLow, Outputs;
  }

  /** What is low while one side drives one pin, neither side, or both sides all pins. */
  lemma DrivenAre(k: nat)
    ensures k < |INP| ==> Driven(Outputs(ALL_HIGH), OneLow(INP[k])) == {INP[k]}
    ensures k < |OUTP| ==> Driven(Outputs(OneLow(OUTP[k])), ALL_HIGH) == {OUTP[k]}
    ensures Driven(Outputs(ALL_HIGH), ALL_HIGH) == {}
    ensures forall p: Pin :: p in Driven(Outputs(ALL_LOW), ALL_LOW) <==> Tested(p)
  {
  }

  /** A check after a single pin has been driven low passes exactly when the board is
      faithful to that pin; an identity board always passes. */
  lemma PinChecked(b: Board, p: Pin, report: Mask, sensed: Mask)
    requires Tested(p) && Sees(report, b, {p}, OUTP) && Sees(sensed, b, {p}, INP)
    ensures Check(report, sensed, Some(p)).None? <==> Faithful(b, {p})
    ensures Identity(b) ==> Faithful(b, {p})
  {
    hide Check, Low, Identity;
    CheckIff(b, {p}, report, sensed, Some(p));
    RowsDecide(b);
  }

  lemma AllHighChecked(b: Board, report: Mask, sensed: Mask)
    requires Sees(report, b, {}, OUTP) && Sees(sensed, b, {}, INP) && Identity(b)
    ensures Check(report, sensed, None).None?
  {
    hide Check, Identity;
    CheckIff(b, {}, report, sensed, None);
    RowsDecide(b);
    assert Faithful(b, {});
  }

  lemma AllLowChecked(b: Board, low: set<Pin>, report: Mask, sensed: Mask)
    requires Sees(report, b, low, OUTP) && Sees(sensed, b, low, INP) && Identity(b)
    requires forall p: Pin :: p in low <==> Tested(p)
    ensures CheckLow(report, sensed).None?
  {
    hide CheckLow, Identity;
    CheckLowIff(b, low, report, sensed);
    RowsDecide(b);
    assert Faithful(b, low);
  }

  lemma WalkedOne(b: Board, pins: seq<Pin>, outer: nat, pin: nat)
    requires pin < |pins| && WalkedUpTo(b, pins, outer, pin) && Faithful(b, {pins[pin]})
    ensures WalkedUpTo(b, pins, outer, pin + 1)
  {
    hide Faithful;
  }

  lemma WalkedPass(b: Board, pins: seq<Pin>, outer: nat)
    requires WalkedUpTo(b, pins, outer, |pins|)
    ensures WalkedUpTo(b, pins, outer + 1, 0) && WalkedUpTo(b, pins, 1, 0)
  {
    hide Faithful;
  }

  ghost predicate Ready(w: World, t: Turn, b: Board) {
    w.failed.None? && Inv(w, b) && w.cmdrsp == CMD_IDLE && Sees(t.sensed, b, Driven(w.board, w.device), INP)
  }

  lemma EnterDriveIn(w: World, t: Turn, b: Board)
    requires Ready(w, t, b) && w.state == 3
    ensures OnBoard(Entered(w, t), b)
  {
    hide Sees, Driven, OneLow, Encoded, WalkedUpTo;
    if w.pinIter == |INP| {
      WalkedPass(b, INP, w.outerIter);
    }
  }

  lemma EnterCheckIn(w: World, t: Turn, b: Board)
    requires Ready(w, t, b) && w.state == 4
    ensures OnBoard(Entered(w, t), b)
  {
    hide Carried, Sees, Driven, OneLow, Check, Faithful, Identity, WalkedUpTo;
    DrivenAre(w.pinIter);
    PinChecked(b, INP[w.pinIter], w.rsp, t.sensed);
    if Faithful(b, {INP[w.pinIter]}) {
      WalkedOne(b, INP, w.outerIter, w.pinIter);
    }
  }

  lemma EnterDriveOut(w: World, t: Turn, b: Board)
    requires Ready(w, t, b) && w.state == 7
    ensures OnBoard(Entered(w, t), b)
  {
    hide Sees, Driven, OneLow, WalkedUpTo;
    if w.pinIter == |OUTP| {
      WalkedPass(b, OUTP, w.outerIter);
    }
  }

  lemma EnterCheckOut(w: World, t: Turn, b: Board)
    requires Ready(w, t, b) && w.state == 9
    ensures OnBoard(Entered(w, t), b)
  {
    hide Carried, Sees, Driven, OneLow, Check, Faithful, Identity, WalkedUpTo;
    DrivenAre(w.pinIter);
    PinChecked(b, OUTP[w.pinIter], w.rsp, t.sensed);
    if Faithful(b, {OUTP[w.pinIter]}) {
      WalkedOne(b, OUTP, w.outerIter, w.pinIter);
    }
  }

  lemma EnterCheckAll(w: World, t: Turn, b: Board)
    requires Ready(w, t, b) && (w.state == 6 || w.state == 11)
    ensures OnBoard(Entered(w, t), b)
  {
    hide Carried, Sees, Driven, OneLow, Check, CheckLow, Identity, WalkedUpTo;
    DrivenAre(0);
    if Identity(b) {
      if w.state == 6 {
        AllHighChecked(b, w.rsp, t.sensed);
      } else {
        AllLowChecked(b, Driven(Outputs(ALL_LOW), ALL_LOW), w.rsp, t.sensed);
      }
    }
    NothingWalked(b);
  }

  lemma NothingWalked(b: Board)
    ensures WalkedUpTo(b, OUTP, 0, 0) && WalkedUpTo(b, INP, 0, 0)
  {
  }

  lemma EnterOther(w: World, t: Turn, b: Board)
    requires Ready(w, t, b) && w.state !in {3, 4, 6, 7, 9, 11}
    ensures OnBoard(Entered(w, t), b)
  {
    hide Carried, Sees, Driven, OneLow, WalkedUpTo, Encoded, Identity;
    NothingWalked(b);
  }

  lemma EnterBoard(w: World, t: Turn, b: Board)
    requires Ready(w, t, b)
    ensures OnBoard(Entered(w, t), b)
  {
    hide Inv, Sees, Driven, Dispatch;
    match w.state
    case 3 => EnterDriveIn(w, t, b);
    case 4 => EnterCheckIn(w, t, b);
    case 6 => EnterCheckAll(w, t, b);
    case 7 => EnterDriveOut(w, t, b);
    case 9 => EnterCheckOut(w, t, b);
    case 11 => EnterCheckAll(w, t, b);
    case _ => EnterOther(w, t, b);
  }

  /** A turn handles the response under way or, without one, enters the next state. */
  lemma StepIs(w: World, t: Turn, epSize: nat)
    requires w.failed.None? && ProcessCdc(w, t, epSize).failed.None?
    ensures var p := ProcessCdc(w, t, epSize);
            Step(w, t, epSize) ==
              if !t.connected then if p.state != 0 || p.cmdrsp != CMD_IDLE then INITIAL else p
              else if p.cmdrsp != CMD_IDLE then HandleResponse(p, t)
              else Entered(p, t)
  {
    hide ProcessCdc, HandleResponse, Dispatch;
  }

  lemma FailedStays(w: World, t: Turn, epSize: nat)
    requires w.failed.Some?
    ensures Step(w, t, epSize) == if t.connected then w else INITIAL
  {
  }

  /** Every turn of the loop keeps what is known. */
  lemma StepInv(w: World, t: Turn, epSize: nat, b: Board)
    requires Inv(w, b) && (w.failed.None? ==> Truthful(w, t, b))
    ensures Inv(Step(w, t, epSize), b)
  {
    StepOrder(w, t, epSize);
    InitialInv(b);
    if w.failed.None? {
      ProcessOrder(w, t, epSize);
      StepIs(w, t, epSize);
      ProcessBoard(w, t, epSize, b);
      hide Order, OnBoard, Sees, Driven, Step, Entered, ProcessCdc, HandleResponse;
      var p := ProcessCdc(w, t, epSize);
      if p.cmdrsp != CMD_IDLE {
        HandleBoard(p, t, b);
      } else {
        EnterBoard(p, t, b);
      }
    }
  }

  lemma {:induction false} RunInv(turns: seq<Turn>, epSize: nat, b: Board)
    requires AllGenuine(turns, epSize, b) && AllWhole(turns, epSize)
    ensures Inv(Run(turns, epSize), b)
  {
    hide Inv, Genuine, Whole, Truthful, Step;
    InitialInv(b);
    if turns == [] || Run(turns, epSize) == INITIAL {
    } else {
      var n := |turns| - 1;
      var w := Run(turns[..n], epSize);
      RunInv(turns[..n], epSize, b);
      if w.failed.None? {
        GenuineIsTruthful(w, turns[n], b);
      }
      StepInv(w, turns[n], epSize, b);
    }
  }

  // -- What every run does -----------------------------------------------------------

  ghost predicate PipesBusyWith(w: World) {
    && (w.cmdrsp == TX_BUSY <==> w.tx.state != CDC_IDLE)
    && (w.cmdrsp == RX_BUSY <==> w.rx != CDC_IDLE)
    && !(w.tx.state != CDC_IDLE && w.rx != CDC_IDLE)
  }

  /** In every run a command is sent only when every earlier one has had an answer and
      both pipes are quiet, and an answer has at least one byte; the pipes are busy exactly
      while a command or a response is on its way, never both; and neither callback ever
      comes at a wrong time. */
  lemma NoPipelining(turns: seq<Turn>, t: Turn, epSize: nat)
    ensures var w := Run(turns, epSize);
            && w.failed != Some(Error(11)) && w.failed != Some(Error(21))
            && (w.failed.None? ==> PipesBusyWith(w))
            && (Step(w, t, epSize).issued > w.issued ==>
                  w.failed.None? && w.answered == w.issued && w.tx.state == CDC_IDLE && w.rx == CDC_IDLE)
            && (Step(w, t, epSize).answered > w.answered ==>
                  w.cmdrsp == RX_BUSY && w.rx == CDC_RECEIVE_DATA_WAIT && t.rxUrb == URB_DONE && 0 < t.count)
  {
    hide Place, Asked, Run;
    RunOrder(turns, epSize);
    var w := Run(turns, epSize);
    if w.failed.None? {
      IssuesWhenIdle(w, t, epSize);
      AnsweredByBytes(w, t, epSize);
    }
  }

  lemma AnsweredByBytes(w: World, t: Turn, epSize: nat)
    requires w.failed.None? && Coupled(w)
    ensures Step(w, t, epSize).answered > w.answered ==>
              w.cmdrsp == RX_BUSY && w.rx == CDC_RECEIVE_DATA_WAIT && t.rxUrb == URB_DONE && 0 < t.count
  {
    AnsweredByPoll(w, t, epSize);
    hide ProcessCdc, Check, CheckLow, Encoded, Expected, Outputs, OneLow, ALL_HIGH, ALL_LOW, INP, OUTP;
  }

  lemma AnsweredByPoll(w: World, t: Turn, epSize: nat)
    requires w.failed.None? && Coupled(w)
    ensures ProcessCdc(w, t, epSize).answered > w.answered ==>
              w.cmdrsp == RX_BUSY && w.rx == CDC_RECEIVE_DATA_WAIT && t.rxUrb == URB_DONE && 0 < t.count
  {
    hide Chunk, Rest, Landed;
  }

  lemma IssuesWhenIdle(w: World, t: Turn, epSize: nat)
    requires w.failed.None? && Coupled(w)
    ensures Step(w, t, epSize).issued > w.issued ==> w.cmdrsp == CMD_IDLE
  {
    hide Check, CheckLow, Encoded, Chunk, Rest, Dispatch;
  }

  lemma PlaceBounds(w: World)
    requires Place(w)
    ensures w.state < 20 ==> w.issued <= 224 && w.turns <= 508
    ensures w.state == 5 ==> w.issued == 2 + 12 * |INP|
    ensures w.state == 10 ==> w.issued == 3 + 12 * |INP| + 12 * |OUTP|
  {
  }

  /** Each walk makes exactly twelve passes over its pins, one command a pin; a run
      without error is past state 19 after 509 turns of the switch and 225 commands, and
      not before. */
  lemma StateTwentyIsReached(turns: seq<Turn>, epSize: nat)
    ensures var w := Run(turns, epSize);
            w.failed.None? ==>
              && (w.state >= 20 <==> w.turns >= 509) && (w.state >= 20 <==> w.issued >= 225)
              && (w.state == 5 ==> w.issued == 2 + 12 * |INP|)
              && (w.state == 10 ==> w.issued == 3 + 12 * |INP| + 12 * |OUTP|)
  {
    hide Coupled, Asked, Run;
    RunOrder(turns, epSize);
    var w := Run(turns, epSize);
    if w.failed.None? {
      PlaceBounds(w);
    }
  }

  lemma WalkedIsIdentity(b: Board)
    requires WalkedUpTo(b, INP, 1, 0) && WalkedUpTo(b, OUTP, 1, 0)
    ensures Identity(b)
  {
    hide Faithful, Identity;
    forall p: Pin | Tested(p) ensures Faithful(b, {p}) {
      if p in INP {
        var j :| 0 <= j < |INP| && INP[j] == p;
      } else {
        var j :| 0 <= j < |OUTP| && OUTP[j] == p;
      }
    }
    RowsDecide(b);
  }

  /** The walking-zero test is complete: a run that gets past it without error proves
      that every tested pin reaches its partner and nothing else, so that the board is
      right for every pattern of driven pins; and no run on such a board ever reports a
      pin. */
  lemma WalkingZeroComplete(turns: seq<Turn>, epSize: nat, b: Board)
    requires AllGenuine(turns, epSize, b) && AllWhole(turns, epSize)
    ensures var w := Run(turns, epSize);
            && (w.failed.None? && w.state >= 10 ==>
                  Identity(b) && forall low: set<Pin> | (forall p: Pin :: p in low ==> Tested(p)) :: Faithful(b, low))
            && (Identity(b) ==> !(w.failed.Some? && w.failed.value.PinError?))
  {
    hide Coupled, Place, Driving, Run, Identity, WalkedUpTo, Faithful;
    RunInv(turns, epSize, b);
    var w := Run(turns, epSize);
    if w.failed.None? && w.state >= 10 {
      WalkedIsIdentity(b);
      RowsDecide(b);
    }
  }

  /** Under the same conditions an error that names a pin names one that, at that very step,
      is seen otherwise than it is driven. */
  lemma PinErrorMeans(turns: seq<Turn>, t: Turn, epSize: nat, b: Board)
    requires AllGenuine(turns + [t], epSize, b) && AllWhole(turns + [t], epSize)
    requires var w := Run(turns, epSize);
             w.failed.None? && Step(w, t, epSize).failed.Some? && Step(w, t, epSize).failed.value.PinError?
    ensures var w := Run(turns, epSize);
            var p, low := Step(w, t, epSize).failed.value.pin, Driven(w.board, w.device);
            Tested(p) && (Low(b, low, p) <==> p !in low)
  {
    var w := Run(turns, epSize);
    assert (turns + [t])[..|turns|] == turns && (turns + [t])[|turns|] == t;
    assert Run(turns + [t], epSize) == Step(w, t, epSize) != INITIAL;
    hide Genuine, Whole, Step;
    RunInv(turns, epSize, b);
    PinErrorStep(w, t, epSize, b);
  }

  lemma PinErrorStep(w: World, t: Turn, epSize: nat, b: Board)
    requires w.failed.None? && Inv(w, b) && Genuine(w, t, b)
    requires Step(w, t, epSize).failed.Some? && Step(w, t, epSize).failed.value.PinError?
    ensures var p, low := Step(w, t, epSize).failed.value.pin, Driven(w.board, w.device);
            Tested(p) && (Low(b, low, p) <==> p !in low)
  {
    ProcessOrder(w, t, epSize);
    PinErrorIsEntered(w, t, epSize);
    PinErrorEntered(w, t, b);
  }

  /** Only entering a state checks pins. */
  lemma PinErrorIsEntered(w: World, t: Turn, epSize: nat)
    requires w.failed.None?
    requires var p := ProcessCdc(w, t, epSize); p.failed.None? && (p.cmdrsp == CMD_IDLE ==> p == w)
    requires Step(w, t, epSize).failed.Some? && Step(w, t, epSize).failed.value.PinError?
    ensures w.cmdrsp == CMD_IDLE && Step(w, t, epSize) == Entered(w, t)
  {
    hide ProcessCdc, Dispatch, Expected, Encoded;
  }

  lemma PinErrorEntered(w: World, t: Turn, b: Board)
    requires Ready(w, t, b) && Entered(w, t).failed.Some? && Entered(w, t).failed.value.PinError?
    ensures var p, low := Entered(w, t).failed.value.pin, Driven(w.board, w.device);
            Tested(p) && (Low(b, low, p) <==> p !in low)
  {
    DrivenAre(w.pinIter);
    var low := Driven(w.board, w.device);
    hide Sees, Driven, OneLow, Outputs, Check, CheckLow, Low, WalkedUpTo, Encoded;
    if w.state == 4 {
      WrongIsUnfaithful(b, low, w.rsp, t.sensed, Some(INP[w.pinIter]));
    } else if w.state == 6 {
      WrongIsUnfaithful(b, low, w.rsp, t.sensed, None);
    } else if w.state == 9 {
      WrongIsUnfaithful(b, low, w.rsp, t.sensed, Some(OUTP[w.pinIter]));
    } else {
      assert w.state == 11;
      HighIsUnfaithful(b, low, w.rsp, t.sensed);
    }
  }
}
