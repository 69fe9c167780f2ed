/**
  Control transfers on the default pipe: USBH_HandleControl, stepped by the main
  loop while the host is in HOST_CTRL_XFER, and the shape of the traffic it puts
  on the wire (section 8.5.3 of the USB 2.0 specification).
*/
module Control {
  import opened Channel
  import opened Hcs
  import opened Words

  datatype CtrlState =
    | CTRL_IDLE | CTRL_SETUP | CTRL_SETUP_WAIT | CTRL_DATA_IN | CTRL_DATA_IN_WAIT
    | CTRL_DATA_OUT | CTRL_DATA_OUT_WAIT | CTRL_STATUS_IN | CTRL_STATUS_IN_WAIT
    | CTRL_STATUS_OUT | CTRL_STATUS_OUT_WAIT | CTRL_ERROR | CTRL_STALLED | CTRL_COMPLETE

  datatype Pid = SETUP | DATA0 | DATA1

  /** The eight bytes of a SETUP packet; `d2h` is the direction bit. */
  datatype Setup = Setup(d2h: bool, bRequest: u8, wValue: u16, wIndex: u16, wLength: u16)

  /** One submission on the default pipe. */
  datatype Stage = Stage(isIn: bool, pid: Pid, len: nat, addr: u8)

  datatype Ctrl = Ctrl(
    state: CtrlState, setup: Setup, length: u16, errorCount: u8, hcIn: u8, hcOut: u8,
    ep0size: u8,
    sent: seq<Stage>,    // history: the submissions since the last SETUP,
    sentSetup: Setup,    // what that SETUP packet said,
    data: nat,           // how many were data stages
    status: nat,         // and status stages,
    restarts: nat)       // and how often this request went back to SETUP

  /** What the poll of this step finds. */
  datatype Poll = Poll(urbOut: UrbState, urbIn: UrbState, timedOut: bool)

  /** `back`: the host returns to the state it was in before the request. */
  datatype Outcome = Outcome(ctrl: Ctrl, s: Channels, back: bool)

  const USBH_MAX_ERROR_COUNT := 2
  const SETUP_PKT_SIZE := 8

  ghost predicate Piped(c: Ctrl, s: Channels) { Sized(s) && c.hcOut < HC_MAX && c.hcIn < HC_MAX }

  /** USBH_CtlSendSetup */
  function SendSetup(c: Ctrl, s: Channels): Outcome
    requires Piped(c, s)
  {
    var h := s.hc[c.hcOut];
    Outcome(c.(state := CTRL_SETUP_WAIT, sent := [Stage(h.regIsIn, SETUP, SETUP_PKT_SIZE, h.regAddr)],
               sentSetup := c.setup, data := 0, status := 0), s, false)
  }

  /** USBH_CtlSendData: an empty packet is always DATA1. */
  function SendData(c: Ctrl, s: Channels, len: nat, toggle: bool): Outcome
    requires Piped(c, s)
  {
    var h := s.hc[c.hcOut].(toggleOut := toggle || len == 0);
    Outcome(c.(sent := c.sent + [Stage(h.regIsIn, if h.toggleOut then DATA1 else DATA0, len, h.regAddr)]),
            s.(hc := s.hc[c.hcOut := h]), false)
  }

  /** USBH_CtlReceiveData */
  function ReceiveData(c: Ctrl, s: Channels, len: nat): Outcome
    requires Piped(c, s)
  {
    var h := s.hc[c.hcIn];
    Outcome(c.(sent := c.sent + [Stage(h.regIsIn, DATA1, len, h.regAddr)]), s, false)
  }

  function Goto(c: Ctrl, s: Channels, state: CtrlState): Outcome { Outcome(c.(state := state), s, false) }

  function GoBack(c: Ctrl, s: Channels, state: CtrlState): Outcome { Outcome(c.(state := state), s, true) }

  /** USBH_HandleControl */
  function HandleControl(c: Ctrl, s: Channels, p: Poll): Outcome
    requires Piped(c, s)
  {
    match c.state
    case CTRL_SETUP => SendSetup(c, s)
    case CTRL_SETUP_WAIT =>
      if p.urbOut == URB_DONE then
        if c.setup.wLength != 0 then Goto(c, s, if c.setup.d2h then CTRL_DATA_IN else CTRL_DATA_OUT)
        else Goto(c, s, if c.setup.d2h then CTRL_STATUS_OUT else CTRL_STATUS_IN)
      else if p.urbOut == URB_ERROR then Goto(c, s, CTRL_ERROR)
      else Goto(c, s, c.state)
    case CTRL_DATA_IN =>
      var o := ReceiveData(c, s, c.length);
      o.(ctrl := o.ctrl.(state := CTRL_DATA_IN_WAIT, data := c.data + 1))
    case CTRL_DATA_IN_WAIT =>
      if p.urbIn == URB_STALL then GoBack(c, s, CTRL_STALLED)
      else if p.urbIn == URB_ERROR || p.timedOut then Goto(c, s, CTRL_ERROR)
      else if p.urbIn == URB_DONE then Goto(c, s, CTRL_STATUS_OUT)
      else Goto(c, s, c.state)
    case CTRL_DATA_OUT =>
      var o := SendData(c, s, c.length, true);
      o.(ctrl := o.ctrl.(state := CTRL_DATA_OUT_WAIT, data := c.data + 1))
    case CTRL_DATA_OUT_WAIT =>
      if p.urbOut == URB_DONE then Goto(c, s, CTRL_STATUS_IN)
      else if p.urbOut == URB_STALL then GoBack(c, s, CTRL_STALLED)
      else if p.urbOut == URB_NOTREADY then Goto(c, s, CTRL_DATA_OUT)
      else if p.urbOut == URB_ERROR then Goto(c, s, CTRL_ERROR)
      else Goto(c, s, c.state)
    case CTRL_STATUS_IN =>
      var o := ReceiveData(c, s, 0);
      o.(ctrl := o.ctrl.(state := CTRL_STATUS_IN_WAIT, status := c.status + 1))
    case CTRL_STATUS_IN_WAIT =>
      if p.urbIn == URB_DONE then GoBack(c, s, CTRL_COMPLETE)
      else if p.urbIn == URB_ERROR || p.timedOut then Goto(c, s, CTRL_ERROR)
      else if p.urbIn == URB_STALL then GoBack(c, s, CTRL_STALLED)
      else Goto(c, s, c.state)
    case CTRL_STATUS_OUT =>
      var o := SendData(c, s, 0, !s.hc[c.hcOut].toggleOut);
      o.(ctrl := o.ctrl.(state := CTRL_STATUS_OUT_WAIT, status := c.status + 1))
    case CTRL_STATUS_OUT_WAIT =>
      if p.urbOut == URB_DONE then GoBack(c, s, CTRL_COMPLETE)
      else if p.urbOut == URB_NOTREADY then Goto(c, s, CTRL_STATUS_OUT)
      else if p.urbOut == URB_ERROR then Goto(c, s, CTRL_ERROR)
      else Goto(c, s, c.state)
    case CTRL_ERROR =>
      var c' := c.(errorCount := (c.errorCount + 1) % 0x100);
      if c'.errorCount <= USBH_MAX_ERROR_COUNT then Goto(c'.(restarts := c.restarts + 1), s, CTRL_SETUP)
      else GoBack(c', s, CTRL_ERROR)
    case _ => Goto(c, s, c.state)
  }

  // -- The shape of a transfer ---------------------------------------------------

  /** `d` data stages and `t` status stages, all DATA1, follow the SETUP; a stage
      is repeated only because the device was not ready. The status stages go in
      direction `statusIn` and are empty. */
  ghost predicate Stages(sent: seq<Stage>, x: Setup, d: nat, t: nat, statusIn: bool, addr: u8) {
    && |sent| == 1 + d + t
    && sent[0] == Stage(false, SETUP, 8, addr)
    && (forall i :: 1 <= i <= d ==> sent[i] == Stage(x.d2h, DATA1, x.wLength, addr))
    && (forall i :: d < i < |sent| ==> sent[i] == Stage(statusIn, DATA1, 0, addr))
  }

  /** The direction of the status stage: IN when there is no data stage. */
  predicate StandardStatusIn(x: Setup) { x.wLength == 0 || !x.d2h }

  /** A complete transfer by the rules of USB: a data stage in the direction of
      the request if and only if wLength is not zero, then a status stage in the
      opposite direction, which is IN when there is no data stage. */
  ghost predicate StandardTransfer(sent: seq<Stage>, x: Setup, addr: u8) {
    exists d: nat, t: nat ::
      0 < t && (0 < d <==> x.wLength != 0)
      && Stages(sent, x, d, t, StandardStatusIn(x), addr)
  }

  /** The pipes are open in their directions at address `addr`. */
  ghost predicate PipesAt(c: Ctrl, s: Channels, addr: u8) {
    && Piped(c, s) && c.hcOut != c.hcIn
    && s.hc[c.hcOut].regAddr == s.hc[c.hcOut].devAddr == addr
    && s.hc[c.hcIn].regAddr == s.hc[c.hcIn].devAddr == addr
    && !s.hc[c.hcOut].regIsIn && !s.hc[c.hcOut].epIsIn
    && s.hc[c.hcIn].regIsIn && s.hc[c.hcIn].epIsIn
  }

  /** How far the transfer has got, by state. */
  ghost predicate Progress(c: Ctrl, addr: u8) {
    var x := c.setup;
    var so_far := c.sentSetup == x && Stages(c.sent, x, c.data, c.status, !x.d2h, addr);
    match c.state
    case CTRL_SETUP_WAIT => so_far && c.data == c.status == 0
    case CTRL_DATA_IN => so_far && x.wLength != 0 && x.d2h && c.data == c.status == 0
    case CTRL_DATA_IN_WAIT => so_far && x.wLength != 0 && x.d2h && c.data == 1 && c.status == 0
    case CTRL_DATA_OUT => so_far && x.wLength != 0 && !x.d2h && c.status == 0
    case CTRL_DATA_OUT_WAIT => so_far && x.wLength != 0 && !x.d2h && 0 < c.data && c.status == 0
    case CTRL_STATUS_IN => so_far && !x.d2h && (0 < c.data <==> x.wLength != 0) && c.status == 0
    case CTRL_STATUS_IN_WAIT => so_far && !x.d2h && (0 < c.data <==> x.wLength != 0) && c.status == 1
    case CTRL_STATUS_OUT => so_far && x.d2h && (0 < c.data <==> x.wLength != 0)
    case CTRL_STATUS_OUT_WAIT => so_far && x.d2h && (0 < c.data <==> x.wLength != 0) && 0 < c.status
    case CTRL_COMPLETE => so_far && (0 < c.data <==> x.wLength != 0) && 0 < c.status
    case _ => true
  }

  /** The error counter is never reset, and wraps; still a request restarts at
      most three times, whatever the counter held when it began. */
  ghost predicate RestartInv(c: Ctrl) {
    c.restarts == 0 || (c.errorCount <= USBH_MAX_ERROR_COUNT && c.restarts <= c.errorCount + 1)
  }

  ghost predicate CtrlInv(c: Ctrl, s: Channels, addr: u8) {
    && PipesAt(c, s, addr)
    && c.length == c.setup.wLength
    && Progress(c, addr)
    && RestartInv(c)
  }

  /** The states that end a request, in which the host resumes it. */
  predicate Final(state: CtrlState) {
    state == CTRL_COMPLETE || state == CTRL_ERROR || state == CTRL_STALLED
  }

  lemma AddStage(sent: seq<Stage>, x: Setup, d: nat, t: nat, statusIn: bool, addr: u8)
    requires Stages(sent, x, d, t, statusIn, addr)
    ensures t == 0 ==> Stages(sent + [Stage(x.d2h, DATA1, x.wLength, addr)], x, d + 1, 0, statusIn, addr)
    ensures Stages(sent + [Stage(statusIn, DATA1, 0, addr)], x, d, t + 1, statusIn, addr)
  {
  }

  predicate Sends(state: CtrlState) {
    state.CTRL_SETUP? || state.CTRL_DATA_IN? || state.CTRL_DATA_OUT? || state.CTRL_STATUS_IN? || state.CTRL_STATUS_OUT?
  }

  ghost predicate OnlyToggles(s: Channels, s': Channels) {
    && Sized(s) && Sized(s') && s'.channel == s.channel
    && forall i :: 0 <= i < HC_MAX ==> s'.hc[i] == s.hc[i].(toggleOut := s'.hc[i].toggleOut)
  }

  lemma SendInv(c: Ctrl, s: Channels, p: Poll, addr: u8)
    requires CtrlInv(c, s, addr) && Sends(c.state)
    ensures var o := HandleControl(c, s, p);
            && CtrlInv(o.ctrl, o.s, addr) && OnlyToggles(s, o.s)
            && !o.back && o.ctrl == c.(state := o.ctrl.state, sent := o.ctrl.sent, sentSetup := c.setup,
                                       data := o.ctrl.data, status := o.ctrl.status)
            && o.ctrl.state !in {CTRL_IDLE, CTRL_STALLED, CTRL_COMPLETE}
  {
    if !c.state.CTRL_SETUP? {
      AddStage(c.sent, c.setup, c.data, c.status, !c.setup.d2h, addr);
    }
  }

  lemma WaitFrame(c: Ctrl, s: Channels, p: Poll)
    requires Piped(c, s) && !Sends(c.state)
    ensures var o := HandleControl(c, s, p);
            && o.s == s
            && o.ctrl == c.(state := o.ctrl.state, errorCount := o.ctrl.errorCount, restarts := o.ctrl.restarts)
  {
  }

  lemma WaitRestarts(c: Ctrl, s: Channels, p: Poll)
    requires Piped(c, s) && !Sends(c.state) && RestartInv(c)
    ensures var o := HandleControl(c, s, p);
            && o.ctrl.restarts <= USBH_MAX_ERROR_COUNT + 1
            && (!o.back ==> RestartInv(o.ctrl))
  {
  }

  lemma WaitProgress(c: Ctrl, s: Channels, p: Poll, addr: u8)
    requires CtrlInv(c, s, addr) && !Sends(c.state) && c.state !in {CTRL_IDLE, CTRL_STALLED, CTRL_COMPLETE}
    ensures var o := HandleControl(c, s, p);
            && Progress(o.ctrl, addr)
            && if o.back then Final(o.ctrl.state)
               else o.ctrl.state !in {CTRL_IDLE, CTRL_STALLED, CTRL_COMPLETE}
  {
    WaitFrame(c, s, p);
  }

  /** Every step keeps the shape of the transfer, leaves HOST_CTRL_XFER only in
      a final state, and sends everything to the same address. */
  lemma HandleControlInv(c: Ctrl, s: Channels, p: Poll, addr: u8)
    requires CtrlInv(c, s, addr) && c.state !in {CTRL_IDLE, CTRL_STALLED, CTRL_COMPLETE}
    ensures var o := HandleControl(c, s, p);
            && PipesAt(o.ctrl, o.s, addr) && Progress(o.ctrl, addr) && OnlyToggles(s, o.s)
            && o.ctrl == c.(state := o.ctrl.state, sent := o.ctrl.sent, sentSetup := o.ctrl.sentSetup,
                            data := o.ctrl.data, status := o.ctrl.status,
                            errorCount := o.ctrl.errorCount, restarts := o.ctrl.restarts)
            && o.ctrl.restarts <= USBH_MAX_ERROR_COUNT + 1
            && if o.back then Final(o.ctrl.state)
               else RestartInv(o.ctrl) && o.ctrl.state !in {CTRL_IDLE, CTRL_STALLED, CTRL_COMPLETE}
  {
    if Sends(c.state) {
      SendInv(c, s, p, addr);
    } else {
      WaitFrame(c, s, p);
      WaitRestarts(c, s, p);
      WaitProgress(c, s, p, addr);
    }
  }

  /** A transfer that completed was a SETUP, then data if and only if wLength is
      not zero, then status. It meets the standard exactly unless it asked the
      device for no data at all: then the code sends the status stage OUT. */
  lemma CompleteMeansStandardIff(c: Ctrl, addr: u8)
    requires Progress(c, addr) && c.state == CTRL_COMPLETE
    ensures c.sentSetup == c.setup
    ensures Stages(c.sent, c.setup, c.data, c.status, !c.setup.d2h, addr)
            && 0 < c.status && (0 < c.data <==> c.setup.wLength != 0)
    ensures StandardTransfer(c.sent, c.setup, addr) <==> !(c.setup.d2h && c.setup.wLength == 0)
  {
    var x := c.setup;
    var last := c.sent[|c.sent| - 1];
    assert last == Stage(!x.d2h, DATA1, 0, addr);
    if !(x.d2h && x.wLength == 0) {
      assert Stages(c.sent, x, c.data, c.status, StandardStatusIn(x), addr);
    } else {
      assert forall d: nat, t: nat :: 0 < t && Stages(c.sent, x, d, t, StandardStatusIn(x), addr) ==> last.isIn;
    }
  }

  // -- Runs of the machine on a steady bus -----------------------------------------

  lemma PipedKept(c: Ctrl, s: Channels, p: Poll)
    requires Piped(c, s)
    ensures var o := HandleControl(c, s, p); Piped(o.ctrl, o.s)
  {
  }

  /** Up to `n` steps that all find the same, until the host leaves the transfer. */
  function Steps(c: Ctrl, s: Channels, p: Poll, n: nat): Outcome
    requires Piped(c, s)
    decreases n
  {
    if n == 0 then Outcome(c, s, false)
    else
      PipedKept(c, s, p);
      var o := HandleControl(c, s, p);
      if o.back then o else Steps(o.ctrl, o.s, p, n - 1)
  }

  const ALL_DONE := Poll(URB_DONE, URB_DONE, false)

  /** Every device-to-host request of length zero that meets no error completes, and
      not by a standard transfer. */
  lemma ZeroLengthReadCompletes(c: Ctrl, s: Channels, addr: u8)
    requires CtrlInv(c, s, addr) && c.state == CTRL_SETUP && c.setup.d2h && c.setup.wLength == 0
    ensures var f := Steps(c, s, ALL_DONE, 4).ctrl;
            f.state == CTRL_COMPLETE && f.setup == c.setup && !StandardTransfer(f.sent, f.setup, addr)
  {
    var o1 := HandleControl(c, s, ALL_DONE);
    HandleControlInv(c, s, ALL_DONE, addr);
    var o2 := HandleControl(o1.ctrl, o1.s, ALL_DONE);
    HandleControlInv(o1.ctrl, o1.s, ALL_DONE, addr);
    var o3 := HandleControl(o2.ctrl, o2.s, ALL_DONE);
    HandleControlInv(o2.ctrl, o2.s, ALL_DONE, addr);
    var o4 := HandleControl(o3.ctrl, o3.s, ALL_DONE);
    HandleControlInv(o3.ctrl, o3.s, ALL_DONE, addr);
    assert o4.ctrl.state == CTRL_COMPLETE;
    assert Steps(o3.ctrl, o3.s, ALL_DONE, 1) == o4;
    assert Steps(o1.ctrl, o1.s, ALL_DONE, 3) == Steps(o2.ctrl, o2.s, ALL_DONE, 2);
    CompleteMeansStandardIff(o4.ctrl, addr);
  }

  /** How many steps that find everything done a request still needs. */
  function StepsLeft(state: CtrlState, x: Setup): nat {
    match state
    case CTRL_SETUP => if x.wLength == 0 then 4 else 6
    case CTRL_SETUP_WAIT => if x.wLength == 0 then 3 else 5
    case CTRL_DATA_IN => 4
    case CTRL_DATA_OUT => 4
    case CTRL_DATA_IN_WAIT => 3
    case CTRL_DATA_OUT_WAIT => 3
    case CTRL_STATUS_IN => 2
    case CTRL_STATUS_OUT => 2
    case CTRL_STATUS_IN_WAIT => 1
    case CTRL_STATUS_OUT_WAIT => 1
    case _ => 0
  }

  lemma AllDoneStep(c: Ctrl, s: Channels)
    requires Piped(c, s) && StepsLeft(c.state, c.setup) > 0
    ensures var o := HandleControl(c, s, ALL_DONE);
            && o.ctrl.setup == c.setup
            && StepsLeft(o.ctrl.state, c.setup) == StepsLeft(c.state, c.setup) - 1
            && (o.back <==> o.ctrl.state == CTRL_COMPLETE)
            && (StepsLeft(c.state, c.setup) == 1 <==> o.back)
  {
  }
}
