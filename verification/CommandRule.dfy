/**
  The rule of the command protocol: no new command before the previous one is completed
  with all its expected bytes received. The program takes the first packet that is not
  empty for the whole answer, so the rule is kept only as long as answers come in one
  packet.
*/
module CommandRule {
  import opened Options
  import opened Channel
  import opened Cdc
  import opened Commands
  import opened Pins
  import opened Sequencer

  /** The world before turn k of a run. */
  function Before(turns: seq<Turn>, k: nat, epSize: nat): World
    requires k <= |turns|
  {
    Sequencer.Run(turns[..k], epSize)
  }

  /** Turn j sends a command. */
  predicate Issues(turns: seq<Turn>, j: nat, epSize: nat)
    requires j < |turns|
  {
    Before(turns, j + 1, epSize).issued > Before(turns, j, epSize).issued
  }

  /** Turn k brings a packet that is taken for the answer to a command. */
  predicate Ends(turns: seq<Turn>, k: nat, epSize: nat)
    requires k < |turns|
  {
    Before(turns, k + 1, epSize).answered > Before(turns, k, epSize).answered
  }

  /** No other answer comes after that of turn k, and no reset, until turn j. */
  predicate LastEnd(turns: seq<Turn>, k: nat, j: nat, epSize: nat)
    requires k < j <= |turns|
  {
    && Ends(turns, k, epSize)
    && forall i :: k < i <= j ==> Before(turns, i, epSize).answered == Before(turns, k + 1, epSize).answered
  }

  /** Every command so far is answered, the last one with all bytes expected. */
  predicate AllReceived(w: World) { w.answered == w.issued && w.expected <= w.received }

  ghost predicate RuleKept(turns: seq<Turn>, epSize: nat) {
    forall j :: 0 <= j < |turns| && Issues(turns, j, epSize) ==> AllReceived(Before(turns, j, epSize))
  }

  /** After the answer of turn k, turn j sends the next command. */
  predicate Followed(turns: seq<Turn>, k: nat, j: nat, epSize: nat)
    requires k < j < |turns|
  {
    LastEnd(turns, k, j, epSize) && Issues(turns, j, epSize)
  }

  /** The pipes bring an answer only while one is awaited. */
  lemma PollEffects(w: World, t: Turn, epSize: nat)
    requires w.failed.None? && Coupled(w)
    ensures var v := ProcessCdc(w, t, epSize);
            && v.expected == w.expected && v.issued == w.issued
            && (v.cmdrsp == CMD_IDLE <==> w.cmdrsp == CMD_IDLE)
            && (w.cmdrsp == CMD_IDLE ==> v.answered == w.answered == w.issued)
            && (|| (v.answered == w.answered && v.received == w.received)
                || (w.issued == v.answered == w.answered + 1 && v.received == t.count && v.cmdrsp == RX_DONE))
  {
    hide Encoded, Chunk, Rest;
  }

  lemma HandleEffects(w: World, t: Turn)
    ensures var v := HandleResponse(w, t);
            && v.expected == w.expected && v.issued == w.issued && v.answered == w.answered && v.received == w.received
  {
  }

  lemma DispatchEffects(w: World, t: Turn)
    ensures var v := Dispatch(w, t);
            && v.answered == w.answered && v.received == w.received
            && (v.issued == w.issued ==> v.expected == w.expected) && w.issued <= v.issued <= w.issued + 1
  {
    hide Check, CheckLow, Encoded, Expected, Outputs, OneLow, INP, OUTP, ALL_HIGH, ALL_LOW;
    if w.state <= 10 {
    } else {
    }
  }

  /** What one turn does to the history of commands and answers: it starts again, or an
      answer comes, or perhaps a command goes. */
  predicate Keeps(w: World, v: World, count: nat) {
    || v == INITIAL
    || (v.answered == w.answered + 1 && w.issued == v.issued == v.answered
        && v.received == count && v.expected == w.expected)
    || (v.answered == w.answered && v.received == w.received
        && (v.issued == w.issued ==> v.expected == w.expected)
        && w.issued <= v.issued <= w.issued + 1
        && (v.issued > w.issued ==> w.issued == w.answered))
  }

  /** A turn polls the pipes, and then does one other thing at most. */
  lemma TurnIs(w: World, t: Turn, epSize: nat)
    requires w.failed.None?
    ensures var p, v := ProcessCdc(w, t, epSize), Sequencer.Step(w, t, epSize);
            || v == INITIAL || v == p
            || (p.cmdrsp != CMD_IDLE && v == HandleResponse(p, t))
            || (p.cmdrsp == CMD_IDLE && v == Dispatch(p.(state := p.state + 1, turns := p.turns + 1), t))
  {
    hide ProcessCdc, HandleResponse, Dispatch, INITIAL;
  }

  lemma TurnEffects(w: World, t: Turn, epSize: nat)
    requires w.failed.None? && Coupled(w)
    ensures Keeps(w, Sequencer.Step(w, t, epSize), t.count)
  {
    hide ProcessCdc, HandleResponse, Dispatch, Coupled, INITIAL, Sequencer.Step;
    PollEffects(w, t, epSize);
    TurnIs(w, t, epSize);
    var p := ProcessCdc(w, t, epSize);
    HandleEffects(p, t);
    DispatchEffects(p.(state := p.state + 1, turns := p.turns + 1), t);
  }

  lemma BeforeFirst(turns: seq<Turn>, epSize: nat)
    ensures Before(turns, 0, epSize) == INITIAL
  {
  }

  lemma BeforeNext(turns: seq<Turn>, k: nat, epSize: nat)
    requires k < |turns|
    ensures Before(turns, k + 1, epSize) == Sequencer.Step(Before(turns, k, epSize), turns[k], epSize)
  {
    assert turns[..k + 1][..k] == turns[..k];
  }

  lemma BeforeOrder(turns: seq<Turn>, k: nat, epSize: nat)
    requires k <= |turns|
    ensures Order(Before(turns, k, epSize))
  {
    RunOrder(turns[..k], epSize);
  }

  /** The last answer: how many bytes it had, and how many were expected unless another
      command has been sent since. */
  lemma {:induction false} LastAnswer(turns: seq<Turn>, n: nat, epSize: nat) returns (k: nat)
    requires n <= |turns| && Before(turns, n, epSize).answered > 0
    ensures k < n && LastEnd(turns, k, n, epSize)
    ensures var w := Before(turns, n, epSize);
            && w.received == turns[k].count
            && (w.answered == w.issued ==> w.expected == Before(turns, k, epSize).expected)
            && w.answered <= w.issued
  {
    hide Sequencer.Step, Before, Coupled, Carried, Place;
    if n == 0 {
      BeforeFirst(turns, epSize);
      assert false;
    } else {
      BeforeNext(turns, n - 1, epSize);
      var w := Before(turns, n - 1, epSize);
      BeforeOrder(turns, n - 1, epSize);
      if w.failed.Some? {
        FailedStays(w, turns[n - 1], epSize);
      } else {
        TurnEffects(w, turns[n - 1], epSize);
      }
      if Ends(turns, n - 1, epSize) {
        k := n - 1;
      } else {
        k := LastAnswer(turns, n - 1, epSize);
      }
    }
  }

  // -- When the rule is kept ---------------------------------------------------------

  /** There is only one last answer. */
  lemma LastEndUnique(turns: seq<Turn>, k: nat, l: nat, j: nat, epSize: nat)
    requires k < j <= |turns| && l < j && LastEnd(turns, k, j, epSize) && LastEnd(turns, l, j, epSize)
    ensures k == l
  {
    hide Before;
    assert Before(turns, j, epSize).answered == Before(turns, k + 1, epSize).answered
        == Before(turns, l + 1, epSize).answered;
  }

  /** A command is sent only once all earlier ones are answered in some way. */
  lemma IssueFacts(turns: seq<Turn>, j: nat, epSize: nat)
    requires j < |turns| && Issues(turns, j, epSize)
    ensures var w := Before(turns, j, epSize);
            && w.failed.None? && w.answered == w.issued
            && (w.issued == 0 ==> w.expected == 0)
            && (w.issued == 1 ==> w.expected == 34)
            && Before(turns, j + 1, epSize).issued == w.issued + 1
  {
    hide Sequencer.Step, Before, Place;
    var w := Before(turns, j, epSize);
    BeforeNext(turns, j, epSize);
    BeforeOrder(turns, j, epSize);
    if w.failed.Some? {
      FailedStays(w, turns[j], epSize);
    } else {
      TurnEffects(w, turns[j], epSize);
    }
  }

  /** In every run the rule is kept exactly if each packet that ends an answer after
      which another command is sent has all the bytes expected: the program itself
      never looks how many there are. */
  lemma RuleKeptIff(turns: seq<Turn>, epSize: nat)
    ensures RuleKept(turns, epSize) <==>
              forall k, j :: 0 <= k < j < |turns| && Followed(turns, k, j, epSize) ==>
                Before(turns, k, epSize).expected <= turns[k].count
  {
    hide Before, Issues, LastEnd;
    forall k, j | 0 <= k < j < |turns| && Followed(turns, k, j, epSize)
      ensures AllReceived(Before(turns, j, epSize)) <==> Before(turns, k, epSize).expected <= turns[k].count
    {
      FollowedIsLast(turns, k, j, epSize);
    }
    forall j | 0 <= j < |turns| && Issues(turns, j, epSize) && !AllReceived(Before(turns, j, epSize))
      ensures exists k :: 0 <= k < j && Followed(turns, k, j, epSize)
    {
      IssueFacts(turns, j, epSize);
      if Before(turns, j, epSize).answered == 0 {
        FirstIsKept(turns, j, epSize);
      }
      var k := LastAnswer(turns, j, epSize);
      assert Followed(turns, k, j, epSize);
    }
  }

  lemma FirstIsKept(turns: seq<Turn>, j: nat, epSize: nat)
    requires j < |turns| && Issues(turns, j, epSize)
    requires Before(turns, j, epSize).answered == 0
    ensures AllReceived(Before(turns, j, epSize))
  {
    hide Before, Issues;
    IssueFacts(turns, j, epSize);
  }

  lemma FollowedIsLast(turns: seq<Turn>, k: nat, j: nat, epSize: nat)
    requires k < j < |turns| && Followed(turns, k, j, epSize)
    ensures AllReceived(Before(turns, j, epSize)) <==> Before(turns, k, epSize).expected <= turns[k].count
  {
    hide Before;
    assert Before(turns, j, epSize).answered == Before(turns, k + 1, epSize).answered > 0;
    IssueFacts(turns, j, epSize);
    var l := LastAnswer(turns, j, epSize);
    LastEndUnique(turns, k, l, j, epSize);
  }

  /** While no packet is as long as the answer to the first command, as with an IN
      endpoint of fewer than 34 bytes, every second command breaks the rule. */
  lemma {:induction false} ShortPacketsBreakRule(turns: seq<Turn>, n: nat, epSize: nat)
    requires RuleKept(turns, epSize) && n <= |turns|
    requires forall k :: 0 <= k < |turns| ==> turns[k].count < 34
    ensures Before(turns, n, epSize).issued <= 1
  {
    hide Before, Issues, LastEnd, Sequencer.Step;
    if n == 0 {
      BeforeFirst(turns, epSize);
    } else {
      ShortPacketsBreakRule(turns, n - 1, epSize);
      var w := Before(turns, n - 1, epSize);
      assert Issues(turns, n - 1, epSize) <==> Before(turns, n, epSize).issued > w.issued by {
        IssuesIs(turns, n - 1, epSize);
      }
      if Issues(turns, n - 1, epSize) {
        IssueFacts(turns, n - 1, epSize);
        if w.issued == 1 {
          var k := LastAnswer(turns, n - 1, epSize);
          assert false;
        }
      }
    }
  }

  lemma IssuesIs(turns: seq<Turn>, j: nat, epSize: nat)
    requires j < |turns|
    ensures Issues(turns, j, epSize) <==> Before(turns, j + 1, epSize).issued > Before(turns, j, epSize).issued
  {
  }

  // -- A run that breaks it ----------------------------------------------------------

  /** The device answers every time, with `count` bytes, and drives nothing. */
  function Short(count: nat, b: Board): Turn {
    Turn(true, URB_DONE, URB_DONE, count, true, {}, ALL_HIGH - b.stuck, false, true)
  }

  function Turns(n: nat, t: Turn): (turns: seq<Turn>)
    ensures |turns| == n && forall k :: 0 <= k < n ==> turns[k] == t
  {
    seq(n, k => t)
  }

  /** The world after k such turns. */
  function ShortWorld(k: nat, count: nat): World
    requires k <= 7
  {
    if k == 0 then INITIAL
    else
      World(
        if k <= 5 then 1 else k - 4,
        if k <= 2 || k == 7 then TX_BUSY else if k <= 4 then RX_BUSY else CMD_IDLE,
        Some(if k == 7 then TestMode else GetInfo), if k == 7 then 2 else 34, 0, 0, {}, true,
        if k == 7 then Tx(CDC_SEND_DATA, Encoded(TestMode))
        else if k >= 3 then Tx(CDC_IDLE, [])
        else Tx(if k == 1 then CDC_SEND_DATA else CDC_SEND_DATA_WAIT, Encoded(GetInfo)),
        if k == 3 then CDC_RECEIVE_DATA else if k == 4 then CDC_RECEIVE_DATA_WAIT else CDC_IDLE,
        Outputs(ALL_HIGH), ALL_HIGH, None,
        if k >= 5 then count else 0, if k == 7 then 2 else 1, if k >= 5 then 1 else 0, if k <= 5 then 1 else k - 4,
        if 3 <= k <= 6 then Encoded(GetInfo) else [])
  }

  lemma ShortTurn(k: nat, count: nat, epSize: nat, b: Board)
    requires k < 7 && 0 < count && 3 <= epSize
    ensures Sequencer.Step(ShortWorld(k, count), Short(count, b), epSize) == ShortWorld(k + 1, count)
    ensures Genuine(ShortWorld(k, count), Short(count, b), b)
  {
    hide Check, CheckLow, OneLow;
    ShortGenuine(k, count, b);
  }

  lemma ShortGenuine(k: nat, count: nat, b: Board)
    requires k < 7
    ensures Genuine(ShortWorld(k, count), Short(count, b), b)
  {
    hide Driven, OneLow, Outputs;
    var w := ShortWorld(k, count);
    assert w.board == INITIAL.board && w.device == INITIAL.device;
    assert w.command == None || w.command == Some(GetInfo);
    DrivenAre(0);
  }

  lemma {:induction false} ShortRun(k: nat, count: nat, epSize: nat, b: Board)
    requires k <= 7 && 0 < count && 3 <= epSize
    ensures Before(Turns(7, Short(count, b)), k, epSize) == ShortWorld(k, count)
  {
    hide Sequencer.Step, ShortWorld, Before, Turns, Genuine;
    var turns := Turns(7, Short(count, b));
    if k == 0 {
      BeforeFirst(turns, epSize);
      ShortStarts(count);
    } else {
      ShortRun(k - 1, count, epSize, b);
      BeforeNext(turns, k - 1, epSize);
      ShortTurn(k - 1, count, epSize, b);
    }
  }

  lemma {:induction false} ShortGenuineRun(k: nat, count: nat, epSize: nat, b: Board)
    requires k <= 7 && 0 < count && 3 <= epSize
    ensures AllGenuine(Turns(7, Short(count, b))[..k], epSize, b)
  {
    hide Sequencer.Step, ShortWorld, Turns, Genuine, Sequencer.Run;
    var turns := Turns(7, Short(count, b));
    if k == 0 {
    } else {
      ShortGenuineRun(k - 1, count, epSize, b);
      assert turns[..k][..k - 1] == turns[..k - 1];
      ShortRun(k - 1, count, epSize, b);
      ShortTurn(k - 1, count, epSize, b);
    }
  }

  lemma ShortStarts(count: nat)
    ensures ShortWorld(0, count) == INITIAL
  {
  }

  lemma ShortEnds(count: nat)
    requires count < 34
    ensures var v, w := ShortWorld(6, count), ShortWorld(7, count);
            && v.issued == 1 && !AllReceived(v)
            && w.failed.None? && w.issued == 2 && w.command == Some(TestMode) && w.received == count
  {
  }

  /** One byte in answer to GetInfo is enough for the next command to be sent. */
  lemma ShortAnswerHappens(count: nat, epSize: nat, b: Board) returns (turns: seq<Turn>)
    requires 0 < count < 34 && 3 <= epSize
    ensures AllGenuine(turns, epSize, b) && !RuleKept(turns, epSize)
    ensures var w := Sequencer.Run(turns, epSize);
            w.failed.None? && w.issued == 2 && w.command == Some(TestMode) && w.received == count
  {
    hide Sequencer.Step, ShortWorld, AllReceived, Genuine, Sequencer.Run;
    turns := Turns(7, Short(count, b));
    assert turns[..7] == turns;
    ShortRun(6, count, epSize, b);
    ShortRun(7, count, epSize, b);
    ShortEnds(count);
    assert Issues(turns, 6, epSize);
    ShortGenuineRun(7, count, epSize, b);
  }
}
