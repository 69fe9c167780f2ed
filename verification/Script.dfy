/**
  What the states of the test do: the command that the device reads in each, what both
  sides drive, and the checks other than of pins that a run has passed to get there.
*/
module Script {
  import opened Options
  import opened Channel
  import opened Cdc
  import opened Commands
  import opened Pins
  import opened Sequencer
  import opened Words

  /** The whole message of the last command. */
  function Sent(w: World): seq<byte> { if w.cmdrsp == TX_BUSY then w.taken + w.tx.data else w.taken }

  // -- The commands ----------------------------------------------------------------------

  /** The command of each state, and how many bytes its answer should have. State 3 is also
      where the program comes back to after the check of a pin. */
  predicate Ordered(state: nat, pin: nat, c: Option<Command>, expected: nat)
    requires pin <= 13
  {
    match state
    case 0 => c == None && expected == 0
    case 1 => c == Some(GetInfo) && expected == 34
    case 2 => c == Some(GetInfo) && expected == 34
    case 3 =>
      if pin == 0 then c == Some(TestMode) && expected == 2
      else c == Some(SetPins(OneLow(INP[pin - 1]))) && expected == 32
    case 4 => pin < 13 && c == Some(SetPins(OneLow(INP[pin]))) && expected == 32
    case 5 => c == Some(SetPins(OneLow(33))) && expected == 32
    case 11 => c == Some(SetPins(ALL_LOW)) && expected == 32
    case 12 => c == Some(SetPins(ALL_LOW)) && expected == 32
    case 13 => c == Some(OptionBytes) && expected == 32
    case 14 => c == Some(OptionBytes) && expected == 32
    case 15 => c == Some(TestHeaders) && expected == 32
    case 16 => c == Some(TestHeaders) && expected == 32
    case 17 => c == Some(OscOn) && expected == 32
    case 18 => c == Some(OscOff) && expected == 32
    case 19 => c == Some(OscOff) && expected == 32
    case 20 => (c == Some(SetPins(ALL_HIGH)) || c == Some(Led(false))) && expected == 32
    case 21 => c == Some(Led(true)) && expected == 32
    case _ => state < 22 && c == Some(SetPins(ALL_HIGH)) && expected == 32
  }

  // -- What both sides drive ----------------------------------------------------------------

  /** The pins that the board drives high in a state: all, all but one, or none of its own. */
  function BoardHigh(state: nat, pin: nat): Mask
    requires pin <= 13 && (7 <= state <= 9 ==> pin <= 5)
  {
    if state == 7 then if pin == 0 then ALL_HIGH else OneLow(OUTP[pin - 1])
    else if state == 8 || state == 9 then if pin < 5 then OneLow(OUTP[pin]) else ALL_HIGH
    else if state == 10 then OneLow(34)
    else if 11 <= state <= 19 then ALL_LOW
    else ALL_HIGH
  }

  /** And what the device drives high once it has taken the command of the state. */
  function DeviceHigh(state: nat, pin: nat): Mask
    requires pin <= 13
  {
    if state == 3 then if pin == 0 then ALL_HIGH else OneLow(INP[pin - 1])
    else if state == 4 then if pin < 13 then OneLow(INP[pin]) else ALL_HIGH
    else if state == 5 then OneLow(33)
    else if 11 <= state <= 19 then ALL_LOW
    else ALL_HIGH
  }

  predicate InRange(w: World) {
    w.pinIter <= 13 && (7 <= w.state <= 9 ==> w.pinIter <= 5)
  }

  /** What is expected of a world by the state it is in. */
  predicate OnScript(w: World) {
    && InRange(w)
    && Ordered(w.state, w.pinIter, w.command, w.expected)
    && w.board == Outputs(BoardHigh(w.state, w.pinIter))
    && (w.cmdrsp != TX_BUSY || (w.command.Some? && !w.command.value.SetPins?) ==>
          w.device == DeviceHigh(w.state, w.pinIter))
  }

  lemma PollScript(w: World, t: Turn, epSize: nat)
    requires w.failed.None? && Order(w) && OnScript(w)
    ensures OnScript(ProcessCdc(w, t, epSize))
  {
    hide Chunk, Rest, Encoded, Decode, Taken, Outputs, OneLow, ALL_HIGH, Asked, Place, Landed;
    TakenIsCarried(w, t, epSize);
  }

  lemma HandleScript(w: World, t: Turn)
    requires OnScript(w) && w.cmdrsp != CMD_IDLE && HandleResponse(w, t).failed.None?
    ensures OnScript(HandleResponse(w, t))
  {
    hide Outputs, OneLow, ALL_HIGH;
  }

  lemma EnterWalks(w: World, t: Turn)
    requires w.failed.None? && Order(w) && OnScript(w) && w.cmdrsp == CMD_IDLE && Entered(w, t).failed.None?
    requires 2 <= w.state <= 5
    ensures OnScript(Entered(w, t))
  {
    hide Encoded, Check, Outputs, OneLow, ALL_HIGH, OUTP, Coupled, Asked, Carried;
    assert INP[12] == 33;
  }

  lemma EnterWalksOut(w: World, t: Turn)
    requires w.failed.None? && Order(w) && OnScript(w) && w.cmdrsp == CMD_IDLE && Entered(w, t).failed.None?
    requires 6 <= w.state <= 10
    ensures OnScript(Entered(w, t))
  {
    hide Encoded, Check, Outputs, OneLow, ALL_HIGH, INP, Coupled, Asked, Carried;
    assert OUTP[4] == 34;
  }

  lemma EnterOthers(w: World, t: Turn)
    requires w.failed.None? && Order(w) && OnScript(w) && w.cmdrsp == CMD_IDLE && Entered(w, t).failed.None?
    requires w.state < 2 || 10 < w.state <= 15
    ensures OnScript(Entered(w, t))
  {
    hide Encoded, CheckLow, Outputs, OneLow, ALL_HIGH, ALL_LOW, INP, OUTP, Coupled, Asked, Carried;
  }

  lemma EnterLast(w: World, t: Turn)
    requires w.failed.None? && Order(w) && OnScript(w) && w.cmdrsp == CMD_IDLE && Entered(w, t).failed.None?
    requires 15 < w.state
    ensures OnScript(Entered(w, t))
  {
    hide Encoded, CheckLow, Outputs, OneLow, ALL_HIGH, ALL_LOW, INP, OUTP, Coupled, Asked, Carried;
  }

  lemma EnterScript(w: World, t: Turn)
    requires w.failed.None? && Order(w) && OnScript(w) && w.cmdrsp == CMD_IDLE && Entered(w, t).failed.None?
    ensures OnScript(Entered(w, t))
  {
    hide Order, OnScript, Entered;
    if w.state > 15 {
      EnterLast(w, t);
    } else if w.state < 2 || 10 < w.state {
      EnterOthers(w, t);
    } else if w.state <= 5 {
      EnterWalks(w, t);
    } else {
      EnterWalksOut(w, t);
    }
  }

  lemma InitialScript()
    ensures OnScript(INITIAL)
  {
  }

  lemma {:induction false} RunScript(turns: seq<Turn>, epSize: nat)
    ensures var w := Sequencer.Run(turns, epSize); w.failed.None? ==> OnScript(w)
  {
    hide OnScript, Order, ProcessCdc, HandleResponse, Entered, Sequencer.Step;
    if turns == [] {
      InitialScript();
    } else {
      var n := |turns| - 1;
      var w, t := Sequencer.Run(turns[..n], epSize), turns[n];
      RunScript(turns[..n], epSize);
      RunOrder(turns[..n], epSize);
      InitialScript();
      if w.failed.None? {
        var p := ProcessCdc(w, t, epSize);
        ProcessOrder(w, t, epSize);
        StepIs(w, t, epSize);
        PollScript(w, t, epSize);
        if p.cmdrsp != CMD_IDLE && HandleResponse(p, t).failed.None? {
          HandleScript(p, t);
        } else if p.cmdrsp == CMD_IDLE && Entered(p, t).failed.None? {
          EnterScript(p, t);
        }
      } else {
        assert Sequencer.Step(w, t, epSize) in {w, INITIAL} by {
          FailedStays(w, t, epSize);
        }
      }
    }
  }

  /** In every run the bytes sent in each state are, to the device, the command that the
      state is for, and the board drives its pins as the state says; so does the device
      once it has that command. */
  lemma StateTable(turns: seq<Turn>, epSize: nat)
    ensures var w := Sequencer.Run(turns, epSize);
            w.failed.None? ==>
              && InRange(w) && w.board == Outputs(BoardHigh(w.state, w.pinIter))
              && (0 < w.state ==> Ordered(w.state, w.pinIter, Decode(Sent(w)), w.expected))
              && (w.cmdrsp != TX_BUSY ==> w.device == DeviceHigh(w.state, w.pinIter))
  {
    hide Sequencer.Run, Outputs, OneLow, ALL_HIGH, ALL_LOW, INP, OUTP, Encoded, Decode, Coupled, Asked, Place;
    RunScript(turns, epSize);
    RunOrder(turns, epSize);
    var w := Sequencer.Run(turns, epSize);
    if w.failed.None? && w.command.Some? {
      DecodeEncoded(w.command.value);
    }
  }

  // -- The other checks --------------------------------------------------------------------

  /** The states that check something other than pins, and the error that each reports. */
  function Gate(state: nat): Option<Failure> {
    match state
    case 2 => Some(Error(30))
    case 14 => Some(Message("OPT"))
    case 16 => Some(Message("HDR"))
    case 18 => Some(Message("OSC"))
    case 19 => Some(Message("CCN"))
    case _ => None
  }

  /** The command has been taken whole, or its answer has come, in this turn. */
  predicate SentWhole(w: World, t: Turn, epSize: nat) {
    t.handled && w.tx.state == CDC_SEND_DATA_WAIT && t.txUrb == URB_DONE && |w.tx.data| <= epSize
  }

  predicate AnswerCome(w: World, t: Turn) {
    t.handled && w.rx == CDC_RECEIVE_DATA_WAIT && t.rxUrb == URB_DONE && t.count > 0
  }

  /** What stops the program in a turn: a command or an answer that is late, a wrong answer
      to the test-mode command, or the check of the next state. */
  function Stops(w: World, t: Turn, epSize: nat): Option<Failure> {
    match w.cmdrsp
    case TX_BUSY => if t.late && !SentWhole(w, t, epSize) then Some(Error(10)) else None
    case RX_BUSY =>
      if AnswerCome(w, t) then if Decode(w.taken) == Some(TestMode) && !t.good then Some(Error(30)) else None
      else if t.late then Some(Error(20))
      else None
    case _ => if t.good then None else Gate(w.state + 1)
  }

  /** In every run a turn stops the program with exactly that error, unless pins are checked;
      and a turn that finds the device gone starts it again. */
  lemma StopsExactly(turns: seq<Turn>, t: Turn, epSize: nat)
    ensures var w, v := Sequencer.Run(turns, epSize), Sequencer.Step(Sequencer.Run(turns, epSize), t, epSize);
            && (!t.connected ==> v == INITIAL)
            && (w.failed.None? ==> w.cmdrsp in {CMD_IDLE, TX_BUSY, RX_BUSY})
            && (w.failed.None? && t.connected && !(w.cmdrsp == CMD_IDLE && w.state + 1 in {5, 7, 10, 12}) ==>
                  v.failed == Stops(w, t, epSize))
  {
    hide Sequencer.Run, Sequencer.Step, Entered, Encoded, Decode, Place, Asked, HandleResponse;
    RunOrder(turns, epSize);
    RunBetween(turns, epSize);
    var w := Sequencer.Run(turns, epSize);
    if w.failed.None? {
      ProcessOrder(w, t, epSize);
      StepIs(w, t, epSize);
      ProcessCounts(w, t, epSize);
      if w.cmdrsp == CMD_IDLE {
        IdleWaits(w, t, epSize);
        if w.state + 1 !in {5, 7, 10, 12} {
          EnteredFails(w, t);
        }
      } else {
        BusyFails(w, t, epSize);
      }
    } else {
      FailedStays(w, t, epSize);
    }
  }

  lemma EnteredFails(w: World, t: Turn)
    requires w.failed.None? && w.state + 1 !in {5, 7, 10, 12}
    ensures Entered(w, t).failed == if t.good then None else Gate(w.state + 1)
  {
    hide Check, CheckLow, Encoded, Expected, Outputs, OneLow, ALL_HIGH, ALL_LOW, INP, OUTP;
  }

  lemma BusyFails(w: World, t: Turn, epSize: nat)
    requires w.failed.None? && Coupled(w) && Carried(w) && (w.cmdrsp == TX_BUSY || w.cmdrsp == RX_BUSY)
    requires ProcessCdc(w, t, epSize).failed.None?
    ensures HandleResponse(ProcessCdc(w, t, epSize), t).failed == Stops(w, t, epSize)
  {
    hide Encoded, Decode, Landed;
  }

  /** Between two turns nothing has just been sent or answered, and in state 0 the program is
      as it started. */
  lemma {:induction false} RunBetween(turns: seq<Turn>, epSize: nat)
    ensures var w := Sequencer.Run(turns, epSize);
            w.failed.None? ==> w.cmdrsp in {CMD_IDLE, TX_BUSY, RX_BUSY} && (w.state == 0 ==> w == INITIAL)
  {
    hide Sequencer.Step, Order;
    if turns != [] {
      var n := |turns| - 1;
      var w := Sequencer.Run(turns[..n], epSize);
      RunBetween(turns[..n], epSize);
      RunOrder(turns[..n], epSize);
      if w.failed.Some? {
        FailedStays(w, turns[n], epSize);
      } else {
        StepBetween(w, turns[n], epSize);
      }
    }
  }

  lemma StepBetween(w: World, t: Turn, epSize: nat)
    requires w.failed.None? && Order(w) && w.cmdrsp in {CMD_IDLE, TX_BUSY, RX_BUSY} && (w.state == 0 ==> w == INITIAL)
    ensures var v := Sequencer.Step(w, t, epSize);
            v.failed.None? ==> v.cmdrsp in {CMD_IDLE, TX_BUSY, RX_BUSY} && (v.state == 0 ==> v == INITIAL)
  {
    hide ProcessCdc, Sequencer.Step, Entered, Place, Asked, Carried;
    ProcessOrder(w, t, epSize);
    ProcessCounts(w, t, epSize);
    StepIs(w, t, epSize);
    if w.cmdrsp == CMD_IDLE {
      IdleWaits(w, t, epSize);
      EnteredBetween(w, t);
    }
  }

  lemma IdleWaits(w: World, t: Turn, epSize: nat)
    requires w.failed.None? && Coupled(w) && w.cmdrsp == CMD_IDLE
    ensures ProcessCdc(w, t, epSize) == w
  {
    hide Chunk, Rest;
  }

  lemma EnteredBetween(w: World, t: Turn)
    requires w.failed.None? && w.cmdrsp == CMD_IDLE
    ensures var v := Entered(w, t);
            (v.cmdrsp == CMD_IDLE || v.cmdrsp == TX_BUSY) && v.state > 0
  {
    hide Check, CheckLow, Encoded, Expected, Outputs, OneLow, At, ALL_HIGH, ALL_LOW, INP, OUTP;
  }

  /** The states entered with a good check since the program last started. */
  function Passed(turns: seq<Turn>, epSize: nat): set<nat>
    decreases |turns|
  {
    if turns == [] || Sequencer.Run(turns, epSize) == INITIAL then {}
    else
      var n := |turns| - 1;
      var w := Sequencer.Run(turns[..n], epSize);
      Passed(turns[..n], epSize)
      + (if turns[n].good && Sequencer.Run(turns, epSize).turns > w.turns then {w.state + 1} else {})
  }

  /** No state that checks something is jumped over. */
  lemma GateIsEntered(w: World, t: Turn, epSize: nat, gate: nat)
    requires w.failed.None? && Order(w) && Gate(gate).Some?
    requires var v := Sequencer.Step(w, t, epSize); v.failed.None? && v != INITIAL && w.state < gate <= v.state
    ensures t.good && Sequencer.Step(w, t, epSize).turns > w.turns && gate == w.state + 1
  {
    ProcessOrder(w, t, epSize);
    StepIs(w, t, epSize);
    ProcessCounts(w, t, epSize);
    var p := ProcessCdc(w, t, epSize);
    hide Order, ProcessCdc, Sequencer.Step;
    if p.cmdrsp == CMD_IDLE {
      EnteredCounts(w, t, gate);
    }
  }

  lemma ProcessCounts(w: World, t: Turn, epSize: nat)
    ensures var p := ProcessCdc(w, t, epSize);
            p.state == w.state && p.turns == w.turns
  {
    hide Chunk, Rest, Encoded, Decode, Landed;
  }

  lemma EnteredCounts(w: World, t: Turn, gate: nat)
    requires w.failed.None? && Gate(gate).Some?
    requires var v := Entered(w, t); v.failed.None? && w.state < gate <= v.state
    ensures t.good && Entered(w, t).turns > w.turns && gate == w.state + 1
  {
    hide Check, CheckLow, Encoded, Expected, Outputs, OneLow, ALL_HIGH, ALL_LOW, INP, OUTP;
  }

  /** A run without error that has come to or past such a state has passed its check since
      the program last started. */
  lemma {:induction false} GatesPassed(turns: seq<Turn>, epSize: nat, gate: nat)
    requires Gate(gate).Some? && Sequencer.Run(turns, epSize).failed.None?
    requires gate <= Sequencer.Run(turns, epSize).state
    ensures gate in Passed(turns, epSize)
  {
    hide Order, Sequencer.Step;
    if turns != [] && Sequencer.Run(turns, epSize) != INITIAL {
      var n := |turns| - 1;
      var w := Sequencer.Run(turns[..n], epSize);
      RunOrder(turns[..n], epSize);
      if w.failed.Some? {
        FailedStays(w, turns[n], epSize);
        assert false;
      } else if gate <= w.state {
        GatesPassed(turns[..n], epSize, gate);
      } else {
        GateIsEntered(w, turns[n], epSize, gate);
      }
    } else {
      assert false;
    }
  }
}
