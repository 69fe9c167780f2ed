/**
  The test decides: with a device that answers in time, every long enough run either reports
  a pin or gets through, and it gets through exactly on the right boards.
*/
module Decides {
  import opened Commands
  import opened Pins
  import opened Sequencer
  import opened WalkRuns

  /** Turns of the main loop still needed at most: no command takes more than 70. */
  function TurnsLeft(w: World): int { 71 * (509 - w.turns) + Distance(w) }

  const ENOUGH := 36210

  lemma EncodedShort(c: Command)
    ensures |Encoded(c)| <= 32
  {
  }

  lemma DistanceBound(w: World)
    requires w.failed.None? && Order(w)
    ensures Distance(w) <= 70
  {
    hide Encoded, Decode, Place, Asked;
    if w.cmdrsp == TX_BUSY {
      EncodedShort(w.command.value);
      assert |w.taken + w.tx.data| <= 32;
    }
  }

  predicate AllInTime(turns: seq<Turn>) { forall k :: 0 <= k < |turns| ==> InTime(turns[k]) }

  /** What such a turn makes of a world. */
  lemma TurnLowers(w: World, t: Turn, epSize: nat)
    requires w.failed.None? && Order(w) && 0 < epSize && InTime(t)
    ensures var v := Sequencer.Step(w, t, epSize);
            && (v.failed.Some? ==> v.failed.value.PinError?)
            && (v.failed.None? ==> v.turns >= w.turns && TurnsLeft(v) < TurnsLeft(w))
  {
    PromptStep(w, t, epSize);
    StepOrder(w, t, epSize);
    hide Sequencer.Step, Order, Distance, InTime;
    var v := Sequencer.Step(w, t, epSize);
    if v.failed.None? {
      DistanceBound(v);
    }
  }

  lemma {:induction false} TurnsLower(turns: seq<Turn>, more: seq<Turn>, epSize: nat)
    requires Sequencer.Run(turns, epSize).failed.None? && AllInTime(more) && 0 < epSize
    ensures var v := Sequencer.Run(turns + more, epSize);
            && (v.failed.Some? ==> v.failed.value.PinError?)
            && (v.failed.None? ==> TurnsLeft(v) + |more| <= TurnsLeft(Sequencer.Run(turns, epSize)))
    decreases |more|
  {
    hide Sequencer.Step, InTime, Order, TurnsLeft;
    if more == [] {
      assert turns + more == turns;
    } else {
      var n := |more| - 1;
      var all := turns + more;
      assert all[..|all| - 1] == turns + more[..n] && all[|all| - 1] == more[n];
      TurnsLower(turns, more[..n], epSize);
      RunOrder(turns + more[..n], epSize);
      var u := Sequencer.Run(turns + more[..n], epSize);
      assert Sequencer.Run(all, epSize) == Sequencer.Step(u, more[n], epSize);
      if u.failed.Some? {
        FailedStays(u, more[n], epSize);
        Connected(more[n]);
      } else {
        TurnLowers(u, more[n], epSize);
      }
    }
  }

  lemma Connected(t: Turn)
    requires InTime(t)
    ensures t.connected
  {
  }

  /** From wherever the program has got without an error: if from then on everything is in
      time and every other check passes, it is past the last check of pins after 36210
      turns, or has reported a pin. */
  lemma AlwaysFinishes(turns: seq<Turn>, more: seq<Turn>, epSize: nat)
    requires Sequencer.Run(turns, epSize).failed.None? && AllInTime(more) && ENOUGH <= |more| && 0 < epSize
    ensures var v := Sequencer.Run(turns + more, epSize);
            if v.failed.Some? then v.failed.value.PinError? else v.state >= 20
  {
    TurnsLower(turns, more, epSize);
    RunOrder(turns, epSize);
    StateTwentyIsReached(turns + more, epSize);
    hide Sequencer.Run, Order, Distance, AllInTime;
    DistanceBound(Sequencer.Run(turns, epSize));
  }

  /** So the test decides: if besides the device and the board tell the truth, and each
      answer to a pin command has the bytes that matter, the program is then without an
      error exactly if the board is right. */
  lemma TestDecides(turns: seq<Turn>, more: seq<Turn>, epSize: nat, b: Board)
    requires Sequencer.Run(turns, epSize).failed.None? && AllInTime(more) && ENOUGH <= |more| && 0 < epSize
    requires AllGenuine(turns + more, epSize, b) && AllWhole(turns + more, epSize)
    ensures Sequencer.Run(turns + more, epSize).failed.None? <==> Identity(b)
  {
    hide Sequencer.Run, Identity, AllGenuine, AllWhole, AllInTime;
    AlwaysFinishes(turns, more, epSize);
    WalkingZeroComplete(turns + more, epSize, b);
  }
}
