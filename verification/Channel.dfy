/**
  One host channel of the OTG core: the interrupt handlers that turn hardware
  events into the outcome (`URB_State`) that the rest of the host stack polls.
  Slave mode (no DMA), control and bulk endpoints.
*/
module Channel {
  import opened Options

  /** HC_STATUS, HC_PID_* and URB_STATE */
  datatype HcStatus = HC_IDLE | HC_XFRC | HC_NAK | HC_NYET | HC_STALL | HC_XACTERR | HC_DATATGLERR
  datatype UrbState = URB_IDLE | URB_DONE | URB_NOTREADY | URB_ERROR | URB_STALL
  datatype EpType = CTRL | BULK

  /** The bits of HCINT and HCINTMSK. */
  datatype Ints = Ints(
    xfercompl: bool, chhltd: bool, ahberr: bool, stall: bool, nak: bool, ack: bool,
    nyet: bool, xacterr: bool, bblerr: bool, frmovrun: bool, datatglerr: bool)
  {
    function And(m: Ints): Ints {
      Ints(xfercompl && m.xfercompl, chhltd && m.chhltd, ahberr && m.ahberr, stall && m.stall,
           nak && m.nak, ack && m.ack, nyet && m.nyet, xacterr && m.xacterr, bblerr && m.bblerr,
           frmovrun && m.frmovrun, datatglerr && m.datatglerr)
    }
  }

  /** The interrupts that USB_OTG_HC_Init enables for control and bulk. */
  function InitialMask(isIn: bool): Ints {
    Ints(true, false, false, true, true, false, !isIn, true, isIn, false, true)
  }

  /** The per-channel state that the handlers use. */
  datatype Chan = Chan(
    epType: EpType, status: HcStatus, urb: UrbState, errCnt: nat,
    toggleIn: bool, toggleOut: bool, mask: Ints)

  /** Ask for the channel to be halted, and to be told when it is. */
  function Halting(c: Chan, status: HcStatus): Chan {
    c.(status := status, mask := c.mask.(chhltd := true))
  }

  /** USB_OTG_USBH_handle_hc_n_Out_ISR */
  function OutIsr(c: Chan, hcint: Ints): Chan {
    var i := hcint.And(c.mask);
    if i.ahberr then Halting(c, c.status)
    else if i.ack then c
    else if i.frmovrun then Halting(c, c.status)
    else if i.xfercompl then Halting(c, HC_XFRC).(errCnt := 0)
    else if i.stall then Halting(c, HC_STALL)
    else if i.nak then Halting(c, HC_NAK).(errCnt := 0)
    else if i.xacterr then Halting(c, HC_XACTERR)
    else if i.nyet then Halting(c, HC_NYET).(errCnt := 0)
    else if i.datatglerr then Halting(c, HC_DATATGLERR)
    else if i.chhltd then
      var d := c.(mask := c.mask.(chhltd := false));
      match c.status
      case HC_XFRC => d.(urb := URB_DONE, toggleOut := if c.epType == BULK then !c.toggleOut else c.toggleOut)
      case HC_NAK => d.(urb := URB_NOTREADY)
      case HC_NYET => d.(urb := URB_NOTREADY)
      case HC_STALL => d.(urb := URB_STALL)
      case HC_XACTERR => d.(urb := URB_ERROR)
      case _ => d
    else c
  }

  /** The first decision of the IN handler. */
  function InIsrFirst(c: Chan, i: Ints): Chan {
    if i.ahberr then Halting(c, c.status)
    else if i.ack then c
    else if i.stall then Halting(c, HC_STALL)
    else if i.datatglerr then Halting(c, HC_DATATGLERR)
    else c
  }

  /** A stall hides a NAK from the second decision. */
  function WithoutHiddenNak(i: Ints): Ints {
    if !i.ahberr && !i.ack && i.stall then i.(nak := false) else i
  }

  /** The second decision of the IN handler. */
  function InIsrSecond(c: Chan, i: Ints): Chan {
    if i.frmovrun then Halting(c, c.status)
    else if i.xfercompl then Halting(c, HC_XFRC).(errCnt := 0, toggleIn := !c.toggleIn)
    else if i.chhltd then
      var d := c.(mask := c.mask.(chhltd := false));
      match c.status
      case HC_XFRC => d.(urb := URB_DONE)
      case HC_STALL => d.(urb := URB_STALL)
      case HC_XACTERR => d.(urb := URB_ERROR, errCnt := 0)
      case HC_DATATGLERR => d.(urb := URB_ERROR, errCnt := 0)
      case _ => d
    else if i.xacterr then Halting(c, HC_XACTERR)
    else if i.nak then c.(status := HC_NAK)
    else c
  }

  /** USB_OTG_USBH_handle_hc_n_In_ISR */
  function InIsr(c: Chan, hcint: Ints): Chan {
    var i := hcint.And(c.mask);
    InIsrSecond(InIsrFirst(c, i), WithoutHiddenNak(i))
  }

  function Isr(c: Chan, isIn: bool, hcint: Ints): Chan {
    if isIn then InIsr(c, hcint) else OutIsr(c, hcint)
  }

  /** HCD_SubmitRequest */
  function Submit(c: Chan): Chan { c.(urb := URB_IDLE) }

  /** The OUT handler with the initial interrupt mask, one way or the other:
      an event asks for a halt, or the halt is reported and the outcome with it,
      or nothing changes. */
  ghost predicate OutOutcome(c: Chan, i: Ints, c': Chan) {
    || c' == c
    || (c' == Halting(c, c'.status).(errCnt := c'.errCnt)
        && (c'.status == HC_XFRC ==> i.xfercompl) && !TakesHalted(false, i))
    || (TakesHalted(false, i)
        && c' == c.(mask := c.mask.(chhltd := false), urb := c'.urb, toggleOut := c'.toggleOut)
        && if c.status == HC_XFRC
           then c'.urb == URB_DONE && c'.toggleOut == (if c.epType == BULK then !c.toggleOut else c.toggleOut)
           else c'.urb in {c.urb, URB_NOTREADY, URB_STALL, URB_ERROR} && c'.toggleOut == c.toggleOut)
  }

  lemma OutOutcomes(c: Chan, hcint: Ints)
    requires c.mask == InitialMask(false).(chhltd := c.mask.chhltd)
    ensures OutOutcome(c, hcint.And(c.mask), OutIsr(c, hcint))
    ensures TakesHalted(false, hcint.And(c.mask)) ==> c.mask.chhltd && !OutIsr(c, hcint).mask.chhltd
  {
    var i := hcint.And(c.mask);
    assert !i.ahberr && !i.ack && !i.frmovrun;
  }

  /** The two handlers as they run, updating the channel in place. */
  class HostChannel {
    var epType: EpType
    var hcStatus: HcStatus
    var urbState: UrbState
    var errCnt: nat
    var toggleIn: bool
    var toggleOut: bool
    var hcIntMsk: Ints

    ghost function View(): Chan
      reads this
    {
      Chan(epType, hcStatus, urbState, errCnt, toggleIn, toggleOut, hcIntMsk)
    }

    method UnmaskChh()
      modifies this`hcIntMsk
      ensures hcIntMsk == old(hcIntMsk).(chhltd := true)
    {
      hcIntMsk := hcIntMsk.(chhltd := true);
    }

    method MaskChh()
      modifies this`hcIntMsk
      ensures hcIntMsk == old(hcIntMsk).(chhltd := false)
    {
      hcIntMsk := hcIntMsk.(chhltd := false);
    }

    method HandleOut(pending: Ints)
      modifies this
      ensures View() == OutIsr(old(View()), pending)
    {
      var hcint := pending.And(hcIntMsk);
      if hcint.ahberr {
        UnmaskChh();
      } else if hcint.ack {
      } else if hcint.frmovrun {
        UnmaskChh();
      } else if hcint.xfercompl {
        errCnt := 0;
        UnmaskChh();
        hcStatus := HC_XFRC;
      } else if hcint.stall {
        UnmaskChh();
        hcStatus := HC_STALL;
      } else if hcint.nak {
        errCnt := 0;
        UnmaskChh();
        hcStatus := HC_NAK;
      } else if hcint.xacterr {
        UnmaskChh();
        hcStatus := HC_XACTERR;
      } else if hcint.nyet {
        errCnt := 0;
        UnmaskChh();
        hcStatus := HC_NYET;
      } else if hcint.datatglerr {
        UnmaskChh();
        hcStatus := HC_DATATGLERR;
      } else if hcint.chhltd {
        MaskChh();
        if hcStatus == HC_XFRC {
          urbState := URB_DONE;
          if epType == BULK {
            toggleOut := !toggleOut;
          }
        } else if hcStatus == HC_NAK || hcStatus == HC_NYET {
          urbState := URB_NOTREADY;
        } else if hcStatus == HC_STALL {
          urbState := URB_STALL;
        } else if hcStatus == HC_XACTERR {
          urbState := URB_ERROR;
        }
      }
    }

    method HandleInFirst(pending: Ints) returns (hcint: Ints)
      modifies this
      ensures var i := pending.And(old(hcIntMsk));
              && View() == InIsrFirst(old(View()), i)
              && hcint == WithoutHiddenNak(i)
    {
      hcint := pending.And(hcIntMsk);
      if hcint.ahberr {
        UnmaskChh();
      } else if hcint.ack {
      } else if hcint.stall {
        UnmaskChh();
        hcStatus := HC_STALL;
        hcint := hcint.(nak := false);
      } else if hcint.datatglerr {
        UnmaskChh();
        hcStatus := HC_DATATGLERR;
      }
    }

    method HandleInSecond(hcint: Ints)
      modifies this
      ensures View() == InIsrSecond(old(View()), hcint)
    {
      if hcint.frmovrun {
        UnmaskChh();
      } else if hcint.xfercompl {
        hcStatus := HC_XFRC;
        errCnt := 0;
        UnmaskChh();
        toggleIn := !toggleIn;
      } else if hcint.chhltd {
        MaskChh();
        if hcStatus == HC_XFRC {
          urbState := URB_DONE;
        } else if hcStatus == HC_STALL {
          urbState := URB_STALL;
        } else if hcStatus == HC_XACTERR || hcStatus == HC_DATATGLERR {
          errCnt := 0;
          urbState := URB_ERROR;
        }
      } else if hcint.xacterr {
        UnmaskChh();
        hcStatus := HC_XACTERR;
      } else if hcint.nak {
        hcStatus := HC_NAK;
      }
    }

    method HandleIn(pending: Ints)
      modifies this
      ensures View() == InIsr(old(View()), pending)
    {
      var hcint := HandleInFirst(pending);
      HandleInSecond(hcint);
    }
  }

  // -- Every run of a channel ------------------------------------------------

  /** A channel and its history: since the last channel-halted interrupt, has a
      transfer-complete been handled, and has some event asked for a halt? Since
      the last submission, has a transfer-complete been handled? */
  datatype Traced = Traced(c: Chan, isIn: bool, completed: bool, halting: bool, done: bool)

  datatype Event = Interrupt(hcint: Ints) | Resubmit

  /** Which branch of the handler a snapshot of unmasked interrupts reaches. */
  function TakesComplete(isIn: bool, i: Ints): bool {
    i.xfercompl && !i.frmovrun && (isIn || (!i.ahberr && !i.ack))
  }

  function TakesHalted(isIn: bool, i: Ints): bool {
    i.chhltd && !i.frmovrun && !i.xfercompl
    && (isIn || !(i.ahberr || i.ack || i.stall || i.nak || i.xacterr || i.nyet || i.datatglerr))
  }

  function AsksHalt(isIn: bool, i: Ints): bool {
    i.xfercompl || i.stall || i.xacterr || i.datatglerr || (!isIn && (i.nak || i.nyet))
  }

  function Step(t: Traced, e: Event): Traced {
    match e
    case Resubmit => t.(c := Submit(t.c), done := false)
    case Interrupt(hcint) =>
      var i := hcint.And(t.c.mask);
      var c := Isr(t.c, t.isIn, hcint);
      if TakesHalted(t.isIn, i) then t.(c := c, completed := false, halting := false)
      else t.(c := c,
              completed := t.completed || TakesComplete(t.isIn, i),
              halting := t.halting || AsksHalt(t.isIn, i),
              done := t.done || TakesComplete(t.isIn, i))
  }

  /** A channel as USB_OTG_HC_Init leaves it. */
  function Opened(epType: EpType, isIn: bool, status: HcStatus): Traced {
    Traced(Chan(epType, status, URB_IDLE, 0, false, false, InitialMask(isIn)), isIn, false, false, false)
  }

  /** No request is submitted between an event and the halt it asks for. */
  ghost predicate Run(t: Traced, events: seq<Event>)
    decreases |events|
  {
    events != [] ==>
      && (events[0].Resubmit? ==> !t.halting)
      && Run(Step(t, events[0]), events[1..])
  }

  function Final(t: Traced, events: seq<Event>): Traced
    decreases |events|
  {
    if events == [] then t else Final(Step(t, events[0]), events[1..])
  }

  ghost predicate Inv(t: Traced) {
    && t.c.mask == InitialMask(t.isIn).(chhltd := t.halting)
    && (t.halting && t.c.status == HC_XFRC ==> t.completed && t.done)
    && (t.c.urb == URB_DONE ==> t.done)
  }

  lemma StepInv(t: Traced, e: Event)
    requires Inv(t) && (e.Resubmit? ==> !t.halting)
    ensures Inv(Step(t, e))
    ensures t.c.urb != URB_DONE && Step(t, e).c.urb == URB_DONE ==> t.completed
  {
    if e.Interrupt? {
      if t.isIn {
        InStepInv(t, e.hcint.And(t.c.mask), e);
      } else {
        OutStepInv(t, e.hcint.And(t.c.mask), e);
      }
    }
  }

  lemma OutStepInv(t: Traced, i: Ints, e: Event)
    requires Inv(t) && !t.isIn && e.Interrupt? && i == e.hcint.And(t.c.mask)
    ensures Inv(Step(t, e))
    ensures t.c.urb != URB_DONE && Step(t, e).c.urb == URB_DONE ==> t.completed
  {
    assert !i.ahberr && !i.ack && !i.frmovrun;
  }

  lemma InStepInv(t: Traced, i: Ints, e: Event)
    requires Inv(t) && t.isIn && e.Interrupt? && i == e.hcint.And(t.c.mask)
    ensures Inv(Step(t, e))
    ensures t.c.urb != URB_DONE && Step(t, e).c.urb == URB_DONE ==> t.completed
  {
    assert !i.ahberr && !i.ack && !i.frmovrun && !i.nyet;
  }

  lemma {:induction false} RunInv(t: Traced, events: seq<Event>)
    requires Inv(t) && Run(t, events)
    ensures Inv(Final(t, events))
    decreases |events|
  {
    if events == [] {
    } else {
      StepInv(t, events[0]);
      RunInv(Step(t, events[0]), events[1..]);
    }
  }

  /** In every run the channel-halted interrupt is unmasked only while a halt
      requested by an event is outstanding, and `URB_DONE` stands only if a
      transfer-complete was handled for this submission; it is published only
      if one was handled since the previous channel-halted. */
  lemma DoneMeansComplete(epType: EpType, isIn: bool, status: HcStatus, events: seq<Event>, last: Event)
    requires Run(Opened(epType, isIn, status), events + [last])
    ensures var t := Final(Opened(epType, isIn, status), events);
            && (t.c.mask.chhltd <==> t.halting)
            && (t.c.urb == URB_DONE ==> t.done)
            && (t.c.urb != URB_DONE && Step(t, last).c.urb == URB_DONE ==> t.completed)
  {
    var t0 := Opened(epType, isIn, status);
    RunSplit(t0, events, last);
    RunInv(t0, events);
    StepInv(Final(t0, events), last);
  }

  lemma {:induction false} RunSplit(t: Traced, events: seq<Event>, last: Event)
    requires Run(t, events + [last])
    ensures Run(t, events)
    ensures last.Resubmit? ==> !Final(t, events).halting
    decreases |events|
  {
    if events == [] {
    } else {
      assert (events + [last])[1..] == events[1..] + [last];
      RunSplit(Step(t, events[0]), events[1..], last);
    }
  }

  const HALTED := Ints(false, true, false, false, false, false, false, false, false, false, false)

  /** A completed transfer is waiting for its halt. */
  predicate CompletionWaits(c: Chan) { c.mask.chhltd && c.status == HC_XFRC }

  /** Without that restriction a stale completion can be reported: a request
      submitted now, and halted before anything else happens to it, is reported
      done exactly when a completed transfer is still waiting for its halt. */
  lemma StaleDoneIff(t: Traced)
    requires Inv(t)
    ensures Step(Step(t, Resubmit), Interrupt(HALTED)).c.urb == URB_DONE
            <==> CompletionWaits(t.c)
  {
  }

  ghost predicate InvExceptDone(t: Traced) {
    t.c.mask == InitialMask(t.isIn).(chhltd := t.halting)
  }

  /** No interrupt of the sequence handles a transfer-complete. */
  ghost predicate NothingCompletes(t: Traced, events: seq<Event>)
    decreases |events|
  {
    events != [] ==>
      && events[0].Interrupt? && !TakesComplete(t.isIn, events[0].hcint.And(t.c.mask))
      && NothingCompletes(Step(t, events[0]), events[1..])
  }

  lemma {:induction false} NothingPublished(t: Traced, events: seq<Event>)
    requires InvExceptDone(t) && !CompletionWaits(t.c) && t.c.urb != URB_DONE && NothingCompletes(t, events)
    ensures Final(t, events).c.urb != URB_DONE
    decreases |events|
  {
    if events == [] {
    } else {
      NothingCompletesStep(t, events[0]);
      NothingPublished(Step(t, events[0]), events[1..]);
    }
  }

  lemma NothingCompletesStep(t: Traced, e: Event)
    requires InvExceptDone(t) && !CompletionWaits(t.c) && t.c.urb != URB_DONE
    requires e.Interrupt? && !TakesComplete(t.isIn, e.hcint.And(t.c.mask))
    ensures InvExceptDone(Step(t, e)) && !CompletionWaits(Step(t, e).c) && Step(t, e).c.urb != URB_DONE
  {
    var i := e.hcint.And(t.c.mask);
    if t.isIn {
      InNothingCompletes(t.c, i, t.halting);
    } else {
      OutNothingCompletes(t.c, i, t.halting, e.hcint);
    }
  }

  lemma InNothingCompletes(c: Chan, i: Ints, halting: bool)
    requires c.mask == InitialMask(true).(chhltd := halting) && i == i.And(c.mask)
    requires !CompletionWaits(c) && c.urb != URB_DONE && !TakesComplete(true, i)
    ensures var d := InIsrSecond(InIsrFirst(c, i), WithoutHiddenNak(i));
            && d.mask == InitialMask(true).(chhltd := !TakesHalted(true, i) && (halting || AsksHalt(true, i)))
            && !CompletionWaits(d) && d.urb != URB_DONE
  {
    assert !i.ahberr && !i.ack && !i.frmovrun;
  }

  lemma OutNothingCompletes(c: Chan, i: Ints, halting: bool, hcint: Ints)
    requires c.mask == InitialMask(false).(chhltd := halting) && i == hcint.And(c.mask)
    requires !CompletionWaits(c) && c.urb != URB_DONE && !TakesComplete(false, i)
    ensures var d := OutIsr(c, hcint);
            && d.mask == InitialMask(false).(chhltd := !TakesHalted(false, i) && (halting || AsksHalt(false, i)))
            && !CompletionWaits(d) && d.urb != URB_DONE
  {
    assert !i.ahberr && !i.ack && !i.frmovrun;
  }

  /** Interrupts in which nothing completes, after which the request is reported done. */
  ghost predicate ReportedDone(t: Traced, events: seq<Event>) {
    NothingCompletes(t, events) && Final(t, events).c.urb == URB_DONE
  }

  /** After a resubmission, whenever it comes, some sequence of interrupts in which
      nothing completes reports it done exactly when a completed transfer was still
      waiting for its halt. */
  lemma StaleDoneEverIff(t: Traced)
    requires Inv(t)
    ensures (exists events: seq<Event> :: ReportedDone(Step(t, Resubmit), events)) <==> CompletionWaits(t.c)
  {
    var r := Step(t, Resubmit);
    if CompletionWaits(t.c) {
      var events := [Interrupt(HALTED)];
      StaleDoneIff(t);
      assert events[1..] == [];
      assert NothingCompletes(Step(r, events[0]), []);
      assert ReportedDone(r, events);
    } else {
      forall events: seq<Event>
        ensures !ReportedDone(r, events)
      {
        if NothingCompletes(r, events) {
          NothingPublished(r, events);
        }
      }
    }
  }

  const COMPLETED := HALTED.(chhltd := false, xfercompl := true)

  // -- A channel and its client -------------------------------------------------------

  predicate Halts(t: Traced, hcint: Ints) { TakesHalted(t.isIn, hcint.And(t.c.mask)) }

  /** A channel that is not live has no halt outstanding; one that is has no outcome. */
  ghost predicate LiveInv(t: Traced, live: bool, isIn: bool) {
    t.isIn == isIn && Inv(t) && (if live then t.c.urb == URB_IDLE else !t.halting)
  }

  lemma InterruptInv(t: Traced, hcint: Ints, isIn: bool)
    requires LiveInv(t, true, isIn)
    ensures LiveInv(Step(t, Interrupt(hcint)), !Halts(t, hcint), isIn)
  {
    StepInv(t, Interrupt(hcint));
    UrbOnlyAtHalt(t, hcint);
  }

  lemma UrbOnlyAtHalt(t: Traced, hcint: Ints)
    requires Inv(t)
    ensures !Halts(t, hcint) ==> Step(t, Interrupt(hcint)).c.urb == t.c.urb
    ensures Halts(t, hcint) ==> !Step(t, Interrupt(hcint)).halting
  {
  }

  /** Submitting is safe exactly when no completed transfer waits for its halt. */
  lemma SubmitInv(t: Traced, live: bool, isIn: bool)
    requires LiveInv(t, live, isIn)
    ensures LiveInv(Step(t, Resubmit), true, isIn) <==> !CompletionWaits(t.c)
  {
  }

  lemma NoCompletionWaits(t: Traced, live: bool, isIn: bool)
    requires LiveInv(t, live, isIn)
    ensures !live ==> !CompletionWaits(t.c)
  {
  }

  // -- What becomes of a completed transfer ------------------------------------------------

  /** An interrupt that changes the status that the halt will look at. */
  predicate Overrides(isIn: bool, i: Ints) {
    || i.stall || i.datatglerr
    || (if isIn then !i.chhltd && (i.xacterr || i.nak) else i.xacterr || i.nak || i.nyet)
  }

  /** Nothing more completes, the halt does not come yet, and nothing overrides. */
  ghost predicate Waits(t: Traced, events: seq<Event>)
    decreases |events|
  {
    events != [] ==>
      && events[0].Interrupt?
      && (var i := events[0].hcint.And(t.c.mask); !TakesComplete(t.isIn, i) && !TakesHalted(t.isIn, i))
      && Waits(Step(t, events[0]), events[1..])
  }

  ghost predicate Untouched(t: Traced, events: seq<Event>)
    requires Waits(t, events)
    decreases |events|
  {
    events != [] ==>
      !Overrides(t.isIn, events[0].hcint.And(t.c.mask)) && Untouched(Step(t, events[0]), events[1..])
  }

  lemma WaitsStep(t: Traced, e: Event)
    requires Inv(t) && t.halting && t.c.urb != URB_DONE && e.Interrupt?
    requires var i := e.hcint.And(t.c.mask); !TakesComplete(t.isIn, i) && !TakesHalted(t.isIn, i)
    ensures var u := Step(t, e);
            && Inv(u) && u.halting && u.isIn == t.isIn && u.c.urb != URB_DONE
            && (u.c.status == HC_XFRC <==> t.c.status == HC_XFRC && !Overrides(t.isIn, e.hcint.And(t.c.mask)))
  {
    StepInv(t, e);
    var i := e.hcint.And(t.c.mask);
    assert !i.ahberr && !i.ack && !i.frmovrun;
  }

  lemma {:induction false} WaitsRun(t: Traced, events: seq<Event>)
    requires Inv(t) && t.halting && t.c.urb != URB_DONE && Waits(t, events)
    ensures var u := Final(t, events);
            && Inv(u) && u.halting && u.isIn == t.isIn && u.c.urb != URB_DONE
            && (u.c.status == HC_XFRC <==> t.c.status == HC_XFRC && Untouched(t, events))
    decreases |events|
  {
    if events == [] {
    } else {
      WaitsStep(t, events[0]);
      WaitsRun(Step(t, events[0]), events[1..]);
    }
  }

  /** A completed transfer is reported done at its halt exactly when nothing has come in
      between that overrides its status: for an IN channel even a NAK does. */
  lemma CompletionReportedIff(t: Traced, events: seq<Event>, last: Event)
    requires Inv(t) && CompletionWaits(t.c) && t.c.urb != URB_DONE && Waits(t, events)
    requires last.Interrupt? && TakesHalted(t.isIn, last.hcint.And(Final(t, events).c.mask))
    ensures Step(Final(t, events), last).c.urb == URB_DONE <==>
              Untouched(t, events) && !Overrides(t.isIn, last.hcint.And(Final(t, events).c.mask))
  {
    WaitsRun(t, events);
    HaltReports(Final(t, events), last);
  }

  lemma HaltReports(t: Traced, last: Event)
    requires Inv(t) && t.halting && t.c.urb != URB_DONE
    requires last.Interrupt? && TakesHalted(t.isIn, last.hcint.And(t.c.mask))
    ensures Step(t, last).c.urb == URB_DONE <==>
              t.c.status == HC_XFRC && !Overrides(t.isIn, last.hcint.And(t.c.mask))
  {
    var i := last.hcint.And(t.c.mask);
    assert !i.ahberr && !i.ack && !i.frmovrun;
  }

  // -- What a halt reports ---------------------------------------------------------------

  /** What an interrupt says about the transfer under way. */
  datatype Word = Completed | Stalled | NotReady | NotYet | BusError | WrongToggle

  /** The word of an interrupt, if any. The first bit set counts; but on an IN channel errors
      of the bus and NAKs do so only in an interrupt without a halt, and then before a wrong
      toggle, and errors of the bus even before a stall. */
  function Says(isIn: bool, i: Ints, was: Option<Word>): Option<Word> {
    if i.xfercompl then Some(Completed)
    else if isIn && !i.chhltd && i.xacterr then Some(BusError)
    else if i.stall then Some(Stalled)
    else if i.nak && !(isIn && i.chhltd) then Some(NotReady)
    else if i.xacterr && !isIn then Some(BusError)
    else if i.nyet && !isIn then Some(NotYet)
    else if i.datatglerr then Some(WrongToggle)
    else was
  }

  /** The outcome that a halt publishes after a word: an IN channel goes on after a NAK, and
      an OUT channel does not look for a wrong toggle. */
  function Outcome(isIn: bool, word: Word, was: UrbState): UrbState {
    match word
    case Completed => URB_DONE
    case Stalled => URB_STALL
    case NotReady => if isIn then was else URB_NOTREADY
    case NotYet => if isIn then was else URB_NOTREADY
    case BusError => URB_ERROR
    case WrongToggle => if isIn then URB_ERROR else was
  }

  /** The last word of a sequence of events. */
  function LastWord(t: Traced, events: seq<Event>, was: Option<Word>): Option<Word>
    decreases |events|
  {
    if events == [] then was
    else
      var e := events[0];
      LastWord(Step(t, e), events[1..],
               if e.Interrupt? then Says(t.isIn, e.hcint.And(t.c.mask), was) else was)
  }

  predicate StatusSays(status: HcStatus, word: Option<Word>) {
    match word
    case None => true
    case Some(Completed) => status == HC_XFRC
    case Some(Stalled) => status == HC_STALL
    case Some(NotReady) => status == HC_NAK
    case Some(NotYet) => status == HC_NYET
    case Some(BusError) => status == HC_XACTERR
    case Some(WrongToggle) => status == HC_DATATGLERR
  }

  /** The status is that of the last word, and there is one whenever a halt is awaited. */
  ghost predicate Remembers(t: Traced, word: Option<Word>) {
    StatusSays(t.c.status, word) && (t.halting ==> word.Some?) && (t.isIn ==> word != Some(NotYet))
  }

  ghost predicate Tells(t: Traced, hcint: Ints, word: Option<Word>) {
    var i, t' := hcint.And(t.c.mask), Step(t, Interrupt(hcint));
    && t'.c.urb == (if !Halts(t, hcint) || word.None? then t.c.urb else Outcome(t.isIn, word.value, t.c.urb))
    && (Halts(t, hcint) ==> word.Some?)
    && t'.c.toggleIn == (if t.isIn && TakesComplete(true, i) then !t.c.toggleIn else t.c.toggleIn)
    && t'.c.toggleOut ==
         (if !t.isIn && Halts(t, hcint) && word == Some(Completed) && t.c.epType == BULK then !t.c.toggleOut
          else t.c.toggleOut)
  }

  lemma OutTells(t: Traced, hcint: Ints, was: Option<Word>)
    requires Inv(t) && !t.isIn && Remembers(t, was)
    ensures var word := Says(t.isIn, hcint.And(t.c.mask), was);
            Remembers(Step(t, Interrupt(hcint)), word) && Tells(t, hcint, word)
  {
    var i := hcint.And(t.c.mask);
    assert !i.ahberr && !i.ack && !i.frmovrun;
  }

  predicate Handled(c: Chan, i: Ints, word: Option<Word>, d: Chan) {
    && StatusSays(d.status, word) && word != Some(NotYet) && d.toggleOut == c.toggleOut
    && d.toggleIn == (if i.xfercompl then !c.toggleIn else c.toggleIn)
    && (i.chhltd && !i.xfercompl && word.Some? ==> d.urb == Outcome(true, word.value, c.urb))
    && (!i.chhltd || i.xfercompl ==> d.urb == c.urb)
  }

  /** What the first decision of the IN handler leaves to the second one. */
  function SaysFirst(i: Ints, was: Option<Word>): Option<Word> {
    if i.stall then Some(Stalled) else if i.datatglerr then Some(WrongToggle) else was
  }

  lemma InSecondHandles(c: Chan, i: Ints, word: Option<Word>)
    requires !i.frmovrun && StatusSays(c.status, word) && word != Some(NotYet)
    ensures var last :=
              if i.xfercompl then Some(Completed)
              else if i.chhltd then word
              else if i.xacterr then Some(BusError)
              else if i.nak then Some(NotReady)
              else word;
            Handled(c, i, last, InIsrSecond(c, i))
  {
  }

  /** The IN handler on a snapshot of the interrupts that are enabled at first. */
  lemma InHandles(c: Chan, i: Ints, was: Option<Word>)
    requires !i.ahberr && !i.ack && !i.frmovrun && StatusSays(c.status, was) && was != Some(NotYet) && !i.nyet
    ensures var word := Says(true, i, was);
            && Handled(c, i, word, InIsrSecond(InIsrFirst(c, i), WithoutHiddenNak(i)))
            && (i.xfercompl || i.stall || i.datatglerr || (!i.chhltd && (i.xacterr || i.nak)) ==> word.Some?)
            && (was.Some? ==> word.Some?)
  {
    var c1 := InIsrFirst(c, i);
    InSecondHandles(c1, WithoutHiddenNak(i), SaysFirst(i, was));
    hide InIsrSecond, Outcome;
  }

  lemma InTells(t: Traced, hcint: Ints, was: Option<Word>)
    requires Inv(t) && t.isIn && Remembers(t, was)
    ensures var word := Says(t.isIn, hcint.And(t.c.mask), was);
            Remembers(Step(t, Interrupt(hcint)), word) && Tells(t, hcint, word)
  {
    hide InIsrFirst, InIsrSecond, WithoutHiddenNak, Says, Outcome, StatusSays;
    var i := hcint.And(t.c.mask);
    assert !i.ahberr && !i.ack && !i.frmovrun && !i.nyet;
    InHandles(t.c, i, was);
  }

  lemma {:induction false} RunRemembers(t: Traced, events: seq<Event>, was: Option<Word>)
    requires Inv(t) && Remembers(t, was) && Run(t, events)
    ensures Remembers(Final(t, events), LastWord(t, events, was)) && Final(t, events).isIn == t.isIn
    decreases |events|
  {
    hide Inv, Says, Tells, StatusSays, Isr;
    if events == [] {
    } else {
      var e := events[0];
      StepInv(t, e);
      if e.Resubmit? {
        RunRemembers(Step(t, e), events[1..], was);
      } else {
        if t.isIn {
          InTells(t, e.hcint, was);
        } else {
          OutTells(t, e.hcint, was);
        }
        RunRemembers(Step(t, e), events[1..], Says(t.isIn, e.hcint.And(t.c.mask), was));
      }
    }
  }

  /** In every run a halt publishes the outcome of the last word, and nothing else does; the
      IN toggle turns with each completed transfer, the OUT toggle of a bulk channel with
      each halt that reports one. */
  lemma OutcomeIsLastWord(epType: EpType, isIn: bool, status: HcStatus, events: seq<Event>, hcint: Ints)
    requires Run(Opened(epType, isIn, status), events)
    ensures var t := Final(Opened(epType, isIn, status), events);
            t.isIn == isIn
            && Tells(t, hcint,
                     Says(isIn, hcint.And(t.c.mask), LastWord(Opened(epType, isIn, status), events, None)))
  {
    var t0 := Opened(epType, isIn, status);
    RunInv(t0, events);
    RunRemembers(t0, events, None);
    hide Run, Remembers, Tells, Says;
    var t := Final(t0, events);
    if isIn {
      InTells(t, hcint, LastWord(t0, events, None));
    } else {
      OutTells(t, hcint, LastWord(t0, events, None));
    }
  }

  /** The bit of the interrupt that says a word, alone. */
  function Only(word: Word): Ints {
    match word
    case Completed => COMPLETED
    case Stalled => COMPLETED.(xfercompl := false, stall := true)
    case NotReady => COMPLETED.(xfercompl := false, nak := true)
    case NotYet => COMPLETED.(xfercompl := false, nyet := true)
    case BusError => COMPLETED.(xfercompl := false, xacterr := true)
    case WrongToggle => COMPLETED.(xfercompl := false, datatglerr := true)
  }

  /** Each of them is heard on a freshly opened channel, and its halt publishes the outcome;
      only an IN channel takes no halt after a NAK or a NYET, which leave it as it is. */
  lemma EveryWordHappens(epType: EpType, isIn: bool, status: HcStatus, word: Word)
    ensures var t := Opened(epType, isIn, status);
            var e := Step(t, Interrupt(Only(word)));
            if isIn && (word.NotReady? || word.NotYet?) then !e.halting && e.c.urb == URB_IDLE && e.c.mask == t.c.mask
            else e.halting && Step(e, Interrupt(HALTED)).c.urb == Outcome(isIn, word, URB_IDLE)
  {
    hide Step, Only, Outcome;
    if isIn {
      WordHeardIn(epType, status, word);
    } else {
      WordHeardOut(epType, status, word);
    }
    if !(isIn && (word.NotReady? || word.NotYet?)) {
      WordReported(Step(Opened(epType, isIn, status), Interrupt(Only(word))), word);
    }
  }

  ghost predicate Heard(e: Traced, word: Word) {
    && e.halting && StatusSays(e.c.status, Some(word)) && e.c.urb == URB_IDLE
    && e.c.mask == InitialMask(e.isIn).(chhltd := true)
  }

  lemma WordHeardOut(epType: EpType, status: HcStatus, word: Word)
    ensures var e := Step(Opened(epType, false, status), Interrupt(Only(word)));
            Heard(e, word) && !e.isIn
  {
  }

  lemma WordHeardIn(epType: EpType, status: HcStatus, word: Word)
    ensures var t := Opened(epType, true, status);
            var e := Step(t, Interrupt(Only(word)));
            && e.isIn
            && if word.NotReady? || word.NotYet? then !e.halting && e.c.urb == URB_IDLE && e.c.mask == t.c.mask
               else Heard(e, word)
  {
  }

  lemma WordReported(e: Traced, word: Word)
    requires Heard(e, word) && !(e.isIn && (word.NotReady? || word.NotYet?))
    ensures Step(e, Interrupt(HALTED)).c.urb == Outcome(e.isIn, word, URB_IDLE)
  {
  }
}
