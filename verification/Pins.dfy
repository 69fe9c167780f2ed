/**
  The pins of the test board: which are driven from which side, a board as an
  arbitrary wired-AND relation from driven to observed pins, and what a check of
  all pins says about it.
*/
module Pins {
  import opened Options

  type Pin = p: nat | p < 64

  /** A 64-bit pin mask, as the set of its one bits: the pins that are HIGH. */
  type Mask = set<Pin>

  /** Driven by the test board and observed by the device. */
  const OUTP: seq<Pin> := [8, 26, 28, 30, 34]

  /** Driven by the device and observed by the test board. */
  const INP: seq<Pin> := [2, 4, 6, 10, 12, 14, 16, 18, 20, 22, 24, 32, 33]

  predicate Tested(p: Pin) { p in OUTP || p in INP }

  // -- The board -------------------------------------------------------------------

  /** (d, o) is wired when driving pin d low pulls pin o low; a stuck pin is always
      low. */
  datatype Board = Board(wired: set<(Pin, Pin)>, stuck: set<Pin>)

  /** Pin o is low while both sides together drive `low`. */
  ghost predicate Low(b: Board, low: set<Pin>, o: Pin) {
    o in b.stuck || exists d: Pin :: d in low && (d, o) in b.wired
  }

  /** Every tested pin reaches its partner, and nothing else. */
  ghost predicate Identity(b: Board) {
    && (forall p: Pin :: Tested(p) ==> p !in b.stuck)
    && (forall d: Pin, o: Pin :: Tested(d) && Tested(o) ==> ((d, o) in b.wired <==> d == o))
  }

  /** What is seen while only `low` is driven low is `low` itself. */
  ghost predicate Faithful(b: Board, low: set<Pin>) {
    forall o: Pin :: Tested(o) ==> (Low(b, low, o) <==> o in low)
  }

  /** The rows of the identity are enough: a board on which every single pin, driven
      low alone, shows itself and nothing else is faithful to every pattern. */
  lemma RowsDecide(b: Board)
    ensures (forall p: Pin :: Tested(p) ==> Faithful(b, {p})) <==> Identity(b)
    ensures Identity(b) ==> forall low: set<Pin> | (forall p: Pin :: p in low ==> Tested(p)) :: Faithful(b, low)
  {
    if forall p: Pin :: Tested(p) ==> Faithful(b, {p}) {
      forall p: Pin | Tested(p) ensures p !in b.stuck {
        var q: Pin := if p == 8 then 26 else 8;
        assert Faithful(b, {q});
      }
      forall d: Pin, o: Pin | Tested(d) && Tested(o) ensures (d, o) in b.wired <==> d == o {
        assert Faithful(b, {d});
      }
    }
  }

  // -- Drivers and observers ----------------------------------------------------------

  const ALL_HIGH: Mask := set p: Pin | 0 <= p < 64
  const ALL_LOW: Mask := {}

  /** The levels of the pins that the board drives, under a mask. */
  function Outputs(mask: Mask): Mask { set p: Pin | p in OUTP && p in mask }

  /** A mask that drives one pin low. */
  function OneLow(p: Pin): Mask { ALL_HIGH - {p} }

  /** The pins that the two sides together drive low. */
  function Driven(board: Mask, device: Mask): set<Pin> {
    (set p: Pin | p in OUTP && p !in board) + (set p: Pin | p in INP && p !in device)
  }

  /** The outcome of a check: the first pin found wrong, outputs before inputs. */
  predicate Wrong(level: bool, pin: Pin, asserted: Option<Pin>) {
    level == (asserted == Some(pin))
  }

  function FirstWrong(pins: seq<Pin>, levels: Mask, asserted: Option<Pin>): Option<Pin> {
    if pins == [] then None
    else if Wrong(pins[0] in levels, pins[0], asserted) then Some(pins[0])
    else FirstWrong(pins[1..], levels, asserted)
  }

  /** check_pins: the device's view of the pins the board drives, then the board's
      view of those the device drives. */
  function Check(device: Mask, board: Mask, asserted: Option<Pin>): Option<Pin> {
    var r := FirstWrong(OUTP, device, asserted);
    if r.Some? then r else FirstWrong(INP, board, asserted)
  }

  lemma {:induction false} FirstWrongIff(pins: seq<Pin>, levels: Mask, asserted: Option<Pin>)
    ensures FirstWrong(pins, levels, asserted).None?
            <==> forall k :: 0 <= k < |pins| ==> !Wrong(pins[k] in levels, pins[k], asserted)
  {
    if pins == [] {
    } else {
      FirstWrongIff(pins[1..], levels, asserted);
    }
  }

  /** What each side sees on a board. */
  ghost predicate Sees(levels: Mask, b: Board, low: set<Pin>, pins: seq<Pin>) {
    forall p: Pin :: p in pins ==> (p in levels <==> !Low(b, low, p))
  }

  /** A check passes exactly when the asserted pin, and no other, is seen low. */
  lemma CheckIff(b: Board, low: set<Pin>, device: Mask, board: Mask, asserted: Option<Pin>)
    requires Sees(device, b, low, OUTP) && Sees(board, b, low, INP)
    ensures Check(device, board, asserted).None?
            <==> forall p: Pin :: Tested(p) ==> (Low(b, low, p) <==> asserted == Some(p))
  {
    FirstWrongIff(OUTP, device, asserted);
    FirstWrongIff(INP, board, asserted);
    forall p: Pin | p in OUTP ensures exists k :: 0 <= k < |OUTP| && OUTP[k] == p {}
    forall p: Pin | p in INP ensures exists k :: 0 <= k < |INP| && INP[k] == p {}
  }

  /** All tested pins, in the order in which they are checked. */
  const CHECKED: seq<Pin> := OUTP + INP

  /** A pin is seen on the side that does not drive it. */
  predicate SeenHigh(device: Mask, board: Mask, p: Pin) { if p in OUTP then p in device else p in board }

  lemma {:induction false} FirstWrongAt(pins: seq<Pin>, levels: Mask, asserted: Option<Pin>, k: nat)
    requires k < |pins| && Wrong(pins[k] in levels, pins[k], asserted)
    requires forall j :: 0 <= j < k ==> !Wrong(pins[j] in levels, pins[j], asserted)
    ensures FirstWrong(pins, levels, asserted) == Some(pins[k])
  {
    if k == 0 {
    } else {
      FirstWrongAt(pins[1..], levels, asserted, k - 1);
    }
  }

  /** The pin reported is the first that is wrong: seen high although it is asserted, or low
      although it is not. */
  lemma CheckReports(device: Mask, board: Mask, asserted: Option<Pin>, k: nat)
    requires k < |CHECKED|
    requires asserted == Some(CHECKED[k]) <==> SeenHigh(device, board, CHECKED[k])
    requires forall j :: 0 <= j < k ==> (asserted == Some(CHECKED[j]) <==> !SeenHigh(device, board, CHECKED[j]))
    ensures Check(device, board, asserted) == Some(CHECKED[k])
  {
    Sides(k);
    if k < |OUTP| {
      forall j | 0 <= j < k ensures !Wrong(OUTP[j] in device, OUTP[j], asserted) {
        Sides(j);
      }
      FirstWrongAt(OUTP, device, asserted, k);
    } else {
      forall j | 0 <= j < |OUTP| ensures !Wrong(OUTP[j] in device, OUTP[j], asserted) {
        Sides(j);
      }
      FirstWrongIff(OUTP, device, asserted);
      forall j | 0 <= j < k - |OUTP| ensures !Wrong(INP[j] in board, INP[j], asserted) {
        Sides(j + |OUTP|);
      }
      FirstWrongAt(INP, board, asserted, k - |OUTP|);
    }
  }

  /** And only such a pin is reported. */
  lemma ReportedPin(device: Mask, board: Mask, asserted: Option<Pin>) returns (k: nat)
    requires Check(device, board, asserted).Some?
    ensures k < |CHECKED| && Check(device, board, asserted) == Some(CHECKED[k]) && Tested(CHECKED[k])
    ensures asserted == Some(CHECKED[k]) <==> SeenHigh(device, board, CHECKED[k])
    ensures forall j :: 0 <= j < k ==> (asserted == Some(CHECKED[j]) <==> !SeenHigh(device, board, CHECKED[j]))
  {
    k := 0;
    while k < |CHECKED| && (asserted == Some(CHECKED[k]) <==> !SeenHigh(device, board, CHECKED[k]))
      invariant k <= |CHECKED|
      invariant forall j :: 0 <= j < k ==> (asserted == Some(CHECKED[j]) <==> !SeenHigh(device, board, CHECKED[j]))
    {
      k := k + 1;
    }
    if k == |CHECKED| {
      NoneWrong(device, board, asserted);
    } else {
      CheckReports(device, board, asserted, k);
      Sides(k);
      assert CHECKED[k] in OUTP || CHECKED[k] in INP;
    }
  }

  lemma NoneWrong(device: Mask, board: Mask, asserted: Option<Pin>)
    requires forall j :: 0 <= j < |CHECKED| ==> (asserted == Some(CHECKED[j]) <==> !SeenHigh(device, board, CHECKED[j]))
    ensures Check(device, board, asserted).None?
  {
    forall j | 0 <= j < |OUTP| ensures !Wrong(OUTP[j] in device, OUTP[j], asserted) {
      Sides(j);
    }
    FirstWrongIff(OUTP, device, asserted);
    forall j | 0 <= j < |INP| ensures !Wrong(INP[j] in board, INP[j], asserted) {
      Sides(j + |OUTP|);
    }
    FirstWrongIff(INP, board, asserted);
  }

  lemma Sides(k: nat)
    requires k < |CHECKED|
    ensures if k < |OUTP| then CHECKED[k] == OUTP[k] && CHECKED[k] in OUTP
            else CHECKED[k] == INP[k - |OUTP|] && CHECKED[k] !in OUTP
  {
  }

  /** The last check: every pin low. */
  function FirstHigh(pins: seq<Pin>, levels: Mask): Option<Pin> {
    if pins == [] then None
    else if pins[0] in levels then Some(pins[0])
    else FirstHigh(pins[1..], levels)
  }

  function CheckLow(device: Mask, board: Mask): Option<Pin> {
    var r := FirstHigh(OUTP, device);
    if r.Some? then r else FirstHigh(INP, board)
  }

  lemma {:induction false} FirstHighIff(pins: seq<Pin>, levels: Mask)
    ensures FirstHigh(pins, levels).None? <==> forall k :: 0 <= k < |pins| ==> pins[k] !in levels
  {
    if pins == [] {
    } else {
      FirstHighIff(pins[1..], levels);
    }
  }

  lemma {:induction false} FirstHighAt(pins: seq<Pin>, levels: Mask, k: nat)
    requires k < |pins| && pins[k] in levels && forall j :: 0 <= j < k ==> pins[j] !in levels
    ensures FirstHigh(pins, levels) == Some(pins[k])
  {
    if k == 0 {
    } else {
      FirstHighAt(pins[1..], levels, k - 1);
    }
  }

  /** The last check reports the first pin that is seen high. */
  lemma LowReports(device: Mask, board: Mask, k: nat)
    requires k < |CHECKED| && SeenHigh(device, board, CHECKED[k])
    requires forall j :: 0 <= j < k ==> !SeenHigh(device, board, CHECKED[j])
    ensures CheckLow(device, board) == Some(CHECKED[k])
  {
    Sides(k);
    if k < |OUTP| {
      forall j | 0 <= j < k ensures OUTP[j] !in device {
        Sides(j);
      }
      FirstHighAt(OUTP, device, k);
    } else {
      forall j | 0 <= j < |OUTP| ensures OUTP[j] !in device {
        Sides(j);
      }
      FirstHighIff(OUTP, device);
      forall j | 0 <= j < k - |OUTP| ensures INP[j] !in board {
        Sides(j + |OUTP|);
      }
      FirstHighAt(INP, board, k - |OUTP|);
    }
  }

  lemma ReportedHigh(device: Mask, board: Mask) returns (k: nat)
    requires CheckLow(device, board).Some?
    ensures k < |CHECKED| && CheckLow(device, board) == Some(CHECKED[k]) && Tested(CHECKED[k])
    ensures SeenHigh(device, board, CHECKED[k]) && forall j :: 0 <= j < k ==> !SeenHigh(device, board, CHECKED[j])
  {
    k := 0;
    while k < |CHECKED| && !SeenHigh(device, board, CHECKED[k])
      invariant k <= |CHECKED|
      invariant forall j :: 0 <= j < k ==> !SeenHigh(device, board, CHECKED[j])
    {
      k := k + 1;
    }
    if k == |CHECKED| {
      NoneHigh(device, board);
    } else {
      LowReports(device, board, k);
      Sides(k);
      assert CHECKED[k] in OUTP || CHECKED[k] in INP;
    }
  }

  lemma NoneHigh(device: Mask, board: Mask)
    requires forall j :: 0 <= j < |CHECKED| ==> !SeenHigh(device, board, CHECKED[j])
    ensures CheckLow(device, board).None?
  {
    forall j | 0 <= j < |OUTP| ensures OUTP[j] !in device {
      Sides(j);
    }
    FirstHighIff(OUTP, device);
    forall j | 0 <= j < |INP| ensures INP[j] !in board {
      Sides(j + |OUTP|);
    }
    FirstHighIff(INP, board);
  }

  /** A board on which what is driven low is seen as the check expects has no wrong pin; the
      pin that is reported is seen otherwise than it is driven. */
  lemma WrongIsUnfaithful(b: Board, low: set<Pin>, device: Mask, board: Mask, asserted: Option<Pin>)
    requires Sees(device, b, low, OUTP) && Sees(board, b, low, INP)
    requires forall p: Pin :: Tested(p) ==> (p in low <==> asserted == Some(p))
    requires Check(device, board, asserted).Some?
    ensures var p := Check(device, board, asserted).value; Tested(p) && (Low(b, low, p) <==> p !in low)
  {
    var k := ReportedPin(device, board, asserted);
    hide Check, Low;
  }

  lemma HighIsUnfaithful(b: Board, low: set<Pin>, device: Mask, board: Mask)
    requires Sees(device, b, low, OUTP) && Sees(board, b, low, INP)
    requires forall p: Pin :: Tested(p) ==> p in low
    requires CheckLow(device, board).Some?
    ensures var p := CheckLow(device, board).value; Tested(p) && p in low && !Low(b, low, p)
  {
    var k := ReportedHigh(device, board);
    hide CheckLow, Low;
  }

  lemma CheckLowIff(b: Board, low: set<Pin>, device: Mask, board: Mask)
    requires Sees(device, b, low, OUTP) && Sees(board, b, low, INP)
    ensures CheckLow(device, board).None? <==> forall p: Pin :: Tested(p) ==> Low(b, low, p)
  {
    FirstHighIff(OUTP, device);
    FirstHighIff(INP, board);
    forall p: Pin | p in OUTP ensures exists k :: 0 <= k < |OUTP| && OUTP[k] == p {}
    forall p: Pin | p in INP ensures exists k :: 0 <= k < |INP| && INP[k] == p {}
  }

  /** A check of the inputs looks at the inputs only. */
  lemma {:induction false} InputsDecide(pins: seq<Pin>, mask: Mask, sensed: Mask, asserted: Option<Pin>)
    requires forall p: Pin :: p in pins ==> (p in mask <==> p in sensed)
    ensures FirstWrong(pins, mask, asserted) == FirstWrong(pins, sensed, asserted)
    ensures FirstHigh(pins, mask) == FirstHigh(pins, sensed)
  {
    if pins == [] {
    } else {
      InputsDecide(pins[1..], mask, sensed, asserted);
    }
  }

  // -- The port ------------------------------------------------------------------------

  /** The board's own pins: the levels it drives, and those that it is driven to, which
      are not its to change. */
  class Port {
    var driven: Mask
    var sensed: Mask

    ghost predicate Valid()
      reads this
    {
      forall p: Pin :: p in driven ==> p in OUTP
    }

    /** pins_init */
    constructor ()
      ensures Valid() && driven == Outputs(ALL_HIGH)
    {
      driven, sensed := Outputs(ALL_HIGH), {};
    }

    /** set_pinmask */
    method SetPinmask(mask: Mask)
      requires Valid()
      modifies this`driven
      ensures Valid() && driven == Outputs(mask)
    {
      for k := 0 to |OUTP|
        invariant forall p: Pin :: p in driven <==> if p in OUTP[..k] then p in mask else p in old(driven)
      {
        var pin := OUTP[k];
        assert OUTP[..k + 1] == OUTP[..k] + [pin];
        driven := if pin in mask then driven + {pin} else driven - {pin};
      }
      assert OUTP[..|OUTP|] == OUTP;
    }

    /** read_pinmask */
    method ReadPinmask() returns (mask: Mask)
      ensures forall p: Pin :: p in mask <==> p in INP && p in sensed
    {
      mask := {};
      for k := 0 to |INP|
        invariant forall p: Pin :: p in mask <==> p in INP[..k] && p in sensed
      {
        var pin := INP[k];
        assert INP[..k + 1] == INP[..k] + [pin];
        if pin in sensed {
          mask := mask + {pin};
        }
      }
      assert INP[..|INP|] == INP;
    }
  }

  /** check_pins, on what the device reported and what the board read. */
  method CheckPins(device: Mask, board: Mask, asserted: Option<Pin>) returns (r: Option<Pin>)
    ensures r == Check(device, board, asserted)
  {
    r := CheckLevels(OUTP, device, asserted);
    if r.None? {
      r := CheckLevels(INP, board, asserted);
    }
  }

  method CheckLevels(pins: seq<Pin>, levels: Mask, asserted: Option<Pin>) returns (r: Option<Pin>)
    ensures r == FirstWrong(pins, levels, asserted)
  {
    for i := 0 to |pins|
      invariant FirstWrong(pins[i..], levels, asserted) == FirstWrong(pins, levels, asserted)
    {
      var pin := pins[i];
      var level := pin in levels;
      if (asserted == Some(pin) && level) || (asserted != Some(pin) && !level) {
        return Some(pin);
      }
    }
    r := None;
  }

  /** The check that every pin is low. */
  method CheckLowPins(device: Mask, board: Mask) returns (r: Option<Pin>)
    ensures r == CheckLow(device, board)
  {
    for i := 0 to |OUTP|
      invariant FirstHigh(OUTP[i..], device) == FirstHigh(OUTP, device)
    {
      if OUTP[i] in device {
        return Some(OUTP[i]);
      }
    }
    for i := 0 to |INP|
      invariant FirstHigh(INP[i..], board) == FirstHigh(INP, board)
    {
      if INP[i] in board {
        return Some(INP[i]);
      }
    }
    r := None;
  }
}
