/**
  Whatever has happened before, a device that stays and answers is enumerated: a count that
  every call lowers until its class runs.
*/
module HostProgress {
  import opened Control
  import opened HostCore

  /** The device is there, answers whatever is asked, and its configuration can be taken. */
  predicate Willing(i: Input) {
    i.connected && i.enabled && i.poll == ALL_DONE && i.reply.totalLength <= 0x400 && i.parsed
  }

  /** How many states of enumeration are still ahead. */
  function Ahead(e: EnumState): nat {
    match e
    case ENUM_IDLE => 9
    case ENUM_GET_FULL_DEV_DESC => 8
    case ENUM_SET_ADDR => 7
    case ENUM_GET_CFG_DESC => 6
    case ENUM_GET_FULL_CFG_DESC => 5
    case ENUM_GET_MFC_STRING_DESC => 4
    case ENUM_GET_PRODUCT_STRING_DESC => 3
    case ENUM_GET_SERIALNUM_STRING_DESC => 2
    case ENUM_SET_CONFIGURATION => 1
    case ENUM_DEV_CONFIGURED => 0
  }

  /** How many calls the request of a state still needs: one that has failed is made again. */
  function CallsLeft(h: Host): nat {
    if h.enumState.ENUM_DEV_CONFIGURED? then 0
    else if h.gState.HOST_CTRL_XFER? then
      if h.ctrl.state == CTRL_ERROR then 10 else 1 + StepsLeft(h.ctrl.state, h.ctrl.setup)
    else if h.request.CMD_SEND? then 8
    else if h.ctrl.state == CTRL_COMPLETE then 1
    else 9
  }

  /** How many calls the host needs at most. */
  function Rank(h: Host): nat {
    match h.gState
    case HOST_CLASS => 0
    case HOST_CLASS_REQUEST => 1
    case HOST_USR_INPUT => 2
    case HOST_DEV_ATTACHED => 158
    case HOST_WAIT_PRT_ENABLED => 159
    case HOST_IDLE => 160
    case _ => 3 + 16 * Ahead(h.enumState) + CallsLeft(h)
  }

  lemma RankBound(h: Host)
    requires HostCore.Inv(h)
    ensures Rank(h) <= 160 && (Rank(h) == 0 <==> h.gState.HOST_CLASS?)
  {
  }

  lemma RequestLowers(h: Host, i: Input)
    requires HostCore.Inv(h) && Willing(i) && h.gState.HOST_ENUMERATION?
    ensures Rank(Process(h, i)) < Rank(h)
  {
    hide HandleControl, Stages, ChannelInv, AddressInv;
  }

  lemma XferLowers(h: Host, i: Input)
    requires HostCore.Inv(h) && Willing(i) && h.gState.HOST_CTRL_XFER?
    ensures Rank(Process(h, i)) < Rank(h)
  {
    if h.ctrl.state != CTRL_ERROR {
      AllDoneStep(h.ctrl, h.s);
    }
    hide Stages, ChannelInv, AddressInv;
  }

  /** Every call that finds the device willing lowers the count, until the class runs. */
  lemma EveryCallLowers(h: Host, i: Input)
    requires HostCore.Inv(h) && Willing(i)
    ensures Rank(Process(h, i)) < Rank(h) || (h.gState.HOST_CLASS? && Process(h, i).gState.HOST_CLASS?)
  {
    if h.gState.HOST_ENUMERATION? {
      RequestLowers(h, i);
    } else if h.gState.HOST_CTRL_XFER? {
      XferLowers(h, i);
    }
    hide HandleControl, HandleEnum, ClassInit, Attach;
  }

  predicate AllWilling(inputs: seq<Input>) { forall k :: 0 <= k < |inputs| ==> Willing(inputs[k]) }

  lemma {:induction false} WillingRuns(h: Host, more: seq<Input>)
    requires HostCore.Inv(h) && AllWilling(more) && Rank(h) <= |more|
    ensures HostCore.Run(h, more) && After(h, more).gState.HOST_CLASS?
    decreases |more|
  {
    HostCore.RunInv(h, more);
    RankBound(h);
    if more == [] {
    } else {
      hide HostCore.Inv, Process, Rank, Willing;
      HostCore.ProcessInv(h, more[0]);
      EveryCallLowers(h, more[0]);
      RankBound(Process(h, more[0]));
      WillingRuns(Process(h, more[0]), more[1..]);
    }
  }

  /** From wherever a run has brought the host, through any errors, stalls, time-outs and
      reconnections, 160 calls that find the device there and answering bring it to its
      class, and it stays there. */
  lemma AlwaysEnumerates(h: Host, inputs: seq<Input>, more: seq<Input>)
    requires HostCore.Initial(h) && AllWilling(more) && 160 <= |more|
    ensures HostCore.Run(h, inputs) && HostCore.Run(After(h, inputs), more)
    ensures After(After(h, inputs), more).gState.HOST_CLASS?
  {
    HostCore.InitialInv(h);
    HostCore.RunInv(h, inputs);
    var f := After(h, inputs);
    hide HostCore.Run, After, HostCore.Inv, Rank;
    RankBound(f);
    WillingRuns(f, more);
  }
}
