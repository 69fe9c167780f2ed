/**
  Runs that pass the walking-zero test: one on every identity board, and one on a board
  with crosstalk whose device cuts an answer short.
*/
module WalkRuns {
  import opened Channel
  import opened Cdc
  import opened Commands
  import opened Pins
  import opened Sequencer
  import opened Words

  /** The two pins of the crosstalk: while the device drives FROM low, the board's TO is low. */
  const FROM: Pin := 4
  const TO: Pin := 8

  const IDEAL := Board(set p: Pin | Tested(p) :: (p, p), {})
  const CROSSTALK := IDEAL.(wired := IDEAL.wired + {(FROM, TO)})

  ghost function Level(b: Board, low: set<Pin>): Mask { set p: Pin | !Low(b, low, p) }

  /** Everything is in time and true; but while only FROM is driven low, answers have one
      byte if `cut`. */
  ghost function Prompt(w: World, b: Board, cut: bool): Turn {
    var low := Driven(w.board, w.device);
    Turn(true, URB_DONE, URB_DONE, if cut && low == {FROM} then 1 else 32, true,
         Level(b, low), Level(b, low), false, true)
  }

  lemma PromptIsGenuine(w: World, b: Board, cut: bool)
    ensures Genuine(w, Prompt(w, b, cut), b)
    ensures !cut ==> Whole(w, Prompt(w, b, cut))
  {
  }

  // -- Such turns make progress -------------------------------------------------------------

  /** How far the command under way is from being answered. */
  function Distance(w: World): nat {
    match w.cmdrsp
    case CMD_IDLE => 0
    case RX_DONE => 1
    case RX_BUSY => if w.rx == CDC_RECEIVE_DATA then 3 else 2
    case TX_DONE => 4
    case TX_BUSY => 5 + 2 * |w.tx.data| + (if w.tx.state == CDC_SEND_DATA then 1 else 0)
  }

  /** In time, answered and without an error but perhaps of a pin. */
  predicate InTime(t: Turn) {
    t.handled && t.txUrb == URB_DONE && t.rxUrb == URB_DONE && t.count > 0 && t.connected && !t.late && t.good
  }

  lemma RestIsLess(data: seq<byte>, epSize: nat)
    requires 0 < epSize
    ensures Rest(data, epSize) != [] ==> |Rest(data, epSize)| < |data|
  {
  }

  lemma TxNearer(w: World, t: Turn, epSize: nat)
    requires w.failed.None? && Coupled(w) && w.transfer && 0 < epSize && InTime(t)
    ensures var v := ProcessTx(w, t, epSize);
            && Distance(v) <= Distance(w) && v.turns == w.turns
            && (w.cmdrsp == TX_BUSY ==> Distance(v) < Distance(w))
  {
    RestIsLess(w.tx.data, epSize);
    hide Chunk, Rest;
  }

  lemma RxNearer(w: World, t: Turn)
    requires w.failed.None? && Coupled(w) && w.transfer && InTime(t)
    ensures var v := ProcessRx(w, t);
            && Distance(v) <= Distance(w) && v.turns == w.turns
            && (w.cmdrsp == RX_BUSY ==> Distance(v) < Distance(w))
  {
    hide Landed;
  }

  lemma PollNearer(w: World, t: Turn, epSize: nat)
    requires w.failed.None? && Order(w) && 0 < epSize && InTime(t)
    ensures var p := ProcessCdc(w, t, epSize);
            && Distance(p) <= Distance(w) && p.turns == w.turns
            && (w.cmdrsp == TX_BUSY || w.cmdrsp == RX_BUSY ==> Distance(p) < Distance(w))
            && (w.cmdrsp != TX_BUSY && w.cmdrsp != RX_BUSY ==> p.cmdrsp == w.cmdrsp)
  {
    if w.transfer {
      TxNearer(w, t, epSize);
      ProcessTxOrder(w, t, epSize);
      RxNearer(ProcessTx(w, t, epSize), t);
      ProcessRxOrder(ProcessTx(w, t, epSize), t);
    }
    hide ProcessTx, ProcessRx, Place, Asked;
  }

  lemma HandleNearer(w: World, t: Turn)
    requires w.failed.None? && w.cmdrsp != CMD_IDLE && InTime(t)
    ensures var v := HandleResponse(w, t);
            && v.failed.None? && v.turns == w.turns && Distance(v) <= Distance(w)
            && (w.cmdrsp == TX_DONE || w.cmdrsp == RX_DONE ==> Distance(v) < Distance(w))
  {
  }

  lemma EnterAdvances(w: World, t: Turn)
    requires w.failed.None? && InTime(t)
    ensures var v := Entered(w, t);
            v.turns == w.turns + 1 && (v.failed.Some? ==> v.failed.value.PinError?)
  {
    hide Check, CheckLow, Encoded, Expected, Outputs, OneLow, ALL_HIGH, ALL_LOW, INP, OUTP;
  }

  /** A turn brings an answer nearer or enters the next state; the only failures left are
      those of pins. */
  lemma PromptStep(w: World, t: Turn, epSize: nat)
    requires w.failed.None? && Order(w) && 0 < epSize && InTime(t)
    ensures var v := Sequencer.Step(w, t, epSize);
            && (v.failed.Some? ==> v.failed.value.PinError?)
            && (v.failed.None? ==>
                  || v.turns == w.turns + 1
                  || (v.turns == w.turns && Distance(v) < Distance(w)))
  {
    PollNearer(w, t, epSize);
    ProcessOrder(w, t, epSize);
    StepIs(w, t, epSize);
    hide ProcessCdc, HandleResponse, Entered, Order, Distance, InTime, Sequencer.Step;
    var p := ProcessCdc(w, t, epSize);
    if p.cmdrsp != CMD_IDLE {
      HandleNearer(p, t);
    } else {
      EnterAdvances(p, t);
    }
  }

  // -- And they keep the test passing -------------------------------------------------------

  /** From the second pin of the first walk on, the buffer shows the outputs high until
      the next answer. */
  predicate Clean(w: World) {
    1 <= w.pinIter ==>
      && (w.state == 3 || w.state == 4 ==> forall p :: p in OUTP ==> p in w.rsp)
      && (w.state == 3 ==> w.cmdrsp == CMD_IDLE)
  }

  /** A world that an identity board would have led to. */
  ghost predicate Passing(w: World, b: Board) { w.failed.None? && Sequencer.Inv(w, b) && Clean(w) && Identity(b) }

  lemma HighShowsHigh(levels: Mask, b: Board, k: nat)
    requires Identity(b) && k < |INP| && Sees(levels, b, {INP[k]}, OUTP)
    ensures forall p :: p in OUTP ==> p in levels
  {
    RowsDecide(b);
    assert Faithful(b, {INP[k]});
  }

  lemma CleanProcess(w: World, t: Turn, epSize: nat, b: Board)
    requires Passing(w, b) && Truthful(w, t, b)
    ensures Clean(ProcessCdc(w, t, epSize))
  {
    if t.handled && w.transfer {
      ProcessTxOrder(w, t, epSize);
      ProcessRxOrder(ProcessTx(w, t, epSize), t);
      if w.state == 4 && AwaitsPins(w) && RxPoll(w.rx, t.rxUrb, t.count).callback {
        DrivenAre(w.pinIter);
        HighShowsHigh(Landed(w.rsp, t.report, t.count), b, w.pinIter);
      }
      hide Sees, Driven, OneLow, Outputs, Landed, WalkedUpTo, Identity, ProcessTx;
    }
  }

  lemma SeenHigh(w: World, b: Board)
    requires Passing(w, b) && w.cmdrsp == CMD_IDLE && w.state == 4
    ensures forall p :: p in OUTP ==> p in w.rsp
  {
    DrivenAre(w.pinIter);
    HighShowsHigh(w.rsp, b, w.pinIter);
  }

  /** Where the states of the first walk are entered from. */
  lemma EnterWhere(w: World, t: Turn)
    requires w.failed.None?
    ensures var v := Entered(w, t);
            v.failed.None? ==>
              && v.rsp == w.rsp
              && (v.state == 3 ==> (w.state == 2 && v.pinIter == w.pinIter) || (w.state == 4 && v.cmdrsp == w.cmdrsp))
              && (v.state == 4 ==> w.state == 3 && (v.pinIter == w.pinIter || v.pinIter == 0))
  {
    hide Check, CheckLow, Encoded, Expected, Outputs, OneLow, ALL_HIGH, ALL_LOW, INP, OUTP;
  }

  lemma CleanEnter(w: World, t: Turn, b: Board)
    requires Passing(w, b) && w.cmdrsp == CMD_IDLE && Entered(w, t).failed.None?
    ensures Clean(Entered(w, t))
  {
    assert w.state == 2 ==> w.pinIter == 0;
    hide Order, OnBoard, Identity, Entered;
    EnterWhere(w, t);
    if w.state == 4 {
      SeenHigh(w, b);
    }
  }

  lemma PassingStep(w: World, t: Turn, epSize: nat, b: Board)
    requires Passing(w, b) && Truthful(w, t, b) && InTime(t) && 0 < epSize
    ensures var v := Sequencer.Step(w, t, epSize);
            Passing(v, b) && (v.turns == w.turns + 1 || (v.turns == w.turns && Distance(v) < Distance(w)))
  {
    PromptStep(w, t, epSize);
    Sequencer.StepInv(w, t, epSize, b);
    ProcessOrder(w, t, epSize);
    ProcessBoard(w, t, epSize, b);
    StepIs(w, t, epSize);
    CleanProcess(w, t, epSize, b);
    var p := ProcessCdc(w, t, epSize);
    hide Order, ProcessCdc, Entered, Truthful, Driving, Walked, Identity, InTime, Distance, Sequencer.Step;
    if p.cmdrsp == CMD_IDLE {
      CleanEnter(p, t, b);
    } else {
      HandleKeeps(p, t);
    }
  }

  lemma HandleKeeps(w: World, t: Turn)
    ensures var v := HandleResponse(w, t);
            && v.state == w.state && v.pinIter == w.pinIter && v.rsp == w.rsp
            && (w.cmdrsp == CMD_IDLE ==> v.cmdrsp == CMD_IDLE)
    ensures Clean(w) ==> Clean(HandleResponse(w, t))
  {
  }

  // -- The crosstalk goes unseen -------------------------------------------------------------

  lemma IdealIsIdentity()
    ensures Identity(IDEAL) && !Identity(CROSSTALK)
  {
    assert (FROM, TO) in CROSSTALK.wired && Tested(FROM) && Tested(TO);
  }

  /** It changes one pin, and that only while the other is driven and it is not. */
  lemma CrosstalkIs(low: set<Pin>, o: Pin)
    ensures Low(CROSSTALK, low, o) <==> Low(IDEAL, low, o) || (FROM in low && o == TO)
  {
  }

  lemma LevelSees(b: Board, low: set<Pin>, pins: seq<Pin>)
    ensures Sees(Level(b, low), b, low, pins)
  {
  }

  /** What is driven while a pin command is answered. */
  lemma WalkDrives(w: World, b: Board)
    requires Passing(w, b) && AwaitsPins(w) && DeviceMask(w).Some?
    ensures var low := Driven(w.board, w.device);
            && (FROM in low ==> TO in low || low == {FROM})
            && (low == {FROM} ==> forall p :: p in OUTP ==> p in w.rsp)
  {
    hide Carried, Coupled, Asked, Walked, Driven, OneLow, Outputs, ALL_HIGH, ALL_LOW, Sees, Identity;
    DrivenAre(w.pinIter);
    var low := Driven(w.board, w.device);
    if w.state == 4 {
      assert low == {INP[w.pinIter]} && INP[w.pinIter] in low;
    } else if w.state == 6 {
      assert low == {};
    } else if w.state == 9 {
      assert low == {OUTP[w.pinIter]} && OUTP[w.pinIter] in low;
    } else {
      assert TO in low;
    }
  }

  /** One byte says nothing of the outputs, 32 say all. */
  lemma LandedIs(was: Mask, report: Mask, p: Pin)
    requires p in OUTP
    ensures p in Landed(was, report, 1) <==> p in was
    ensures p in Landed(was, report, 32) <==> p in report
  {
  }

  lemma LandsIdeal(was: Mask, low: set<Pin>, p: Pin)
    requires p in OUTP && (FROM in low ==> TO in low || low == {FROM}) && (low == {FROM} ==> p in was)
    ensures p in Landed(was, Level(CROSSTALK, low), if low == {FROM} then 1 else 32) <==> !Low(IDEAL, low, p)
  {
    LandedIs(was, Level(CROSSTALK, low), p);
    CrosstalkIs(low, p);
    IdealLow(low, p);
    hide Landed, Low, Level;
    assert p in Level(CROSSTALK, low) <==> !Low(CROSSTALK, low, p) by {
      LevelIs(CROSSTALK, low, p);
    }
  }

  lemma LevelIs(b: Board, low: set<Pin>, p: Pin)
    ensures p in Level(b, low) <==> !Low(b, low, p)
  {
  }

  /** What a cut answer leaves in the buffer is what the ideal board would have shown. */
  lemma CutShowsIdeal(w: World)
    requires Passing(w, IDEAL) && AwaitsPins(w) && DeviceMask(w).Some?
    ensures var low, t := Driven(w.board, w.device), Prompt(w, CROSSTALK, true);
            Sees(Landed(w.rsp, t.report, t.count), IDEAL, low, OUTP)
  {
    hide Driven, Low, Passing, Landed, Level, DeviceMask, AwaitsPins;
    WalkDrives(w, IDEAL);
    var low, t := Driven(w.board, w.device), Prompt(w, CROSSTALK, true);
    forall p: Pin | p in OUTP ensures p in Landed(w.rsp, t.report, t.count) <==> !Low(IDEAL, low, p) {
      LandsIdeal(w.rsp, low, p);
    }
  }

  lemma IdealLow(low: set<Pin>, p: Pin)
    requires Tested(p)
    ensures Low(IDEAL, low, p) <==> p in low
  {
  }

  lemma CutIsTruthful(w: World)
    requires Passing(w, IDEAL)
    ensures Truthful(w, Prompt(w, CROSSTALK, true), IDEAL)
  {
    var low, t := Driven(w.board, w.device), Prompt(w, CROSSTALK, true);
    hide Driven, Low, Passing;
    if AwaitsPins(w) && DeviceMask(w).Some? {
      CutShowsIdeal(w);
    }
    forall p: Pin | p in INP ensures p in t.sensed <==> !Low(IDEAL, low, p) {
      CrosstalkIs(low, p);
    }
  }

  // -- The runs --------------------------------------------------------------------------------

  /** One more turn of a run that an identity board could have led to. */
  lemma OneMore(turns: seq<Turn>, t: Turn, epSize: nat, b: Board, ideal: Board)
    requires 0 < epSize && AllGenuine(turns, epSize, b) && Passing(Sequencer.Run(turns, epSize), ideal)
    requires var w := Sequencer.Run(turns, epSize);
             Genuine(w, t, b) && Truthful(w, t, ideal) && InTime(t)
    ensures AllGenuine(turns + [t], epSize, b)
    ensures AllWhole(turns, epSize) && Whole(Sequencer.Run(turns, epSize), t) ==> AllWhole(turns + [t], epSize)
    ensures var w, v := Sequencer.Run(turns, epSize), Sequencer.Run(turns + [t], epSize);
            Passing(v, ideal) && (v.turns == w.turns + 1 || (v.turns == w.turns && Distance(v) < Distance(w)))
  {
    var w := Sequencer.Run(turns, epSize);
    assert (turns + [t])[..|turns|] == turns;
    PassingStep(w, t, epSize, ideal);
  }

  lemma PassingPlace(w: World, b: Board)
    requires Passing(w, b) && w.state < 20
    ensures w.turns <= 508
  {
    PlaceBounds(w);
  }

  /** From any such run on, turns on an identity board that are all in time get to state 20. */
  lemma {:induction false} WalksOn(turns: seq<Turn>, epSize: nat, b: Board) returns (all: seq<Turn>)
    requires 0 < epSize && AllGenuine(turns, epSize, b) && AllWhole(turns, epSize)
    requires Passing(Sequencer.Run(turns, epSize), b)
    ensures AllGenuine(all, epSize, b) && AllWhole(all, epSize)
    ensures Passing(Sequencer.Run(all, epSize), b) && Sequencer.Run(all, epSize).state >= 20
    decreases 509 - Sequencer.Run(turns, epSize).turns, Distance(Sequencer.Run(turns, epSize))
  {
    hide AllGenuine, AllWhole, Passing, Distance, Genuine, Whole, Truthful, Prompt, Sequencer.Run;
    var w := Sequencer.Run(turns, epSize);
    if w.state >= 20 {
      all := turns;
    } else {
      PassingPlace(w, b);
      var t := Prompt(w, b, false);
      PromptIsGenuine(w, b, false);
      GenuineIsTruthful(w, t, b);
      PromptInTime(w, b, false);
      OneMore(turns, t, epSize, b, b);
      all := WalksOn(turns + [t], epSize, b);
    }
  }

  lemma PromptInTime(w: World, b: Board, cut: bool)
    ensures InTime(Prompt(w, b, cut))
  {
  }

  lemma {:induction false} WalksOnCut(turns: seq<Turn>, epSize: nat) returns (all: seq<Turn>)
    requires 0 < epSize && AllGenuine(turns, epSize, CROSSTALK) && Passing(Sequencer.Run(turns, epSize), IDEAL)
    ensures AllGenuine(all, epSize, CROSSTALK)
    ensures Passing(Sequencer.Run(all, epSize), IDEAL) && Sequencer.Run(all, epSize).state >= 20
    decreases 509 - Sequencer.Run(turns, epSize).turns, Distance(Sequencer.Run(turns, epSize))
  {
    hide AllGenuine, AllWhole, Passing, Distance, Genuine, Whole, Truthful, Prompt, Sequencer.Run;
    var w := Sequencer.Run(turns, epSize);
    if w.state >= 20 {
      all := turns;
    } else {
      PassingPlace(w, IDEAL);
      var t := Prompt(w, CROSSTALK, true);
      PromptIsGenuine(w, CROSSTALK, true);
      CutIsTruthful(w);
      PromptInTime(w, CROSSTALK, true);
      OneMore(turns, t, epSize, CROSSTALK, IDEAL);
      all := WalksOnCut(turns + [t], epSize);
    }
  }

  lemma StartPasses(epSize: nat, b: Board)
    requires Identity(b)
    ensures Passing(Sequencer.Run([], epSize), b)
  {
    InitialInv(b);
  }

  /** Every identity board can pass the whole test. */
  lemma IdentityPasses(epSize: nat, b: Board) returns (turns: seq<Turn>)
    requires 0 < epSize && Identity(b)
    ensures AllGenuine(turns, epSize, b) && AllWhole(turns, epSize)
    ensures var w := Sequencer.Run(turns, epSize); w.failed.None? && w.state >= 20
  {
    StartPasses(epSize, b);
    turns := WalksOn([], epSize, b);
  }

  /** Without the bytes that matter in every answer the test is not complete: a board with
      crosstalk passes too, with a device that reports nothing wrong. */
  lemma CrosstalkPasses(epSize: nat) returns (turns: seq<Turn>)
    requires 0 < epSize
    ensures !Identity(CROSSTALK) && AllGenuine(turns, epSize, CROSSTALK) && !AllWhole(turns, epSize)
    ensures var w := Sequencer.Run(turns, epSize); w.failed.None? && w.state >= 20
  {
    IdealIsIdentity();
    StartPasses(epSize, IDEAL);
    turns := WalksOnCut([], epSize);
    hide AllGenuine, AllWhole, Identity, Sequencer.Run;
    PassingNow(Sequencer.Run(turns, epSize), IDEAL);
    if AllWhole(turns, epSize) {
      WalkingZeroComplete(turns, epSize, CROSSTALK);
    }
  }

  lemma PassingNow(w: World, b: Board)
    requires Passing(w, b)
    ensures w.failed.None?
  {
  }
}
