/**
  The host core: connection, enumeration, class start-up and disconnection,
  stepped by USBH_Process. Whatever the port, the bus and the device do is input.
*/
module HostCore {
  import opened Channel
  import opened Hcs
  import opened Control
  import opened UsbStatus
  import opened Words

  datatype HostState =
    | HOST_IDLE | HOST_WAIT_PRT_ENABLED | HOST_DEV_ATTACHED | HOST_DEV_DISCONNECTED
    | HOST_ENUMERATION | HOST_CLASS_REQUEST | HOST_CLASS | HOST_CTRL_XFER | HOST_USR_INPUT
    | HOST_ERROR_STATE

  datatype EnumState =
    | ENUM_IDLE | ENUM_GET_FULL_DEV_DESC | ENUM_SET_ADDR | ENUM_GET_CFG_DESC
    | ENUM_GET_FULL_CFG_DESC | ENUM_GET_MFC_STRING_DESC | ENUM_GET_PRODUCT_STRING_DESC
    | ENUM_GET_SERIALNUM_STRING_DESC | ENUM_SET_CONFIGURATION | ENUM_DEV_CONFIGURED

  datatype CmdState = CMD_SEND | CMD_WAIT

  /** What has been learnt from descriptors, as far as it steers enumeration. */
  datatype Desc = Desc(
    maxPacket: u8, iManufacturer: u8, iProduct: u8, iSerial: u8, totalLength: u16, cfgValue: u8)

  /** One call of USBH_Process: the port, the poll of the control channels, and
      what the device's descriptors turn out to say. */
  datatype Input = Input(
    connected: bool, enabled: bool, speed: u8, poll: Poll, reply: Desc, parsed: bool,
    isCdc: bool, first: Ep, second: Ep)

  /** An endpoint of the data interface: its address and packet size. */
  datatype Ep = Ep(address: u8, size: u16)

  /** The endpoints that the class takes for its pipes; they outlive a device. */
  datatype DataItf = DataItf(outEp: Ep, inEp: Ep)

  datatype Host = Host(
    gState: HostState, gStateBkp: HostState, enumState: EnumState, request: CmdState,
    ctrl: Ctrl, address: u8, speed: u8, desc: Desc, data: DataItf,
    outPipe: u8, inPipe: u8, s: Channels,
    completed: nat)      // history: how many control requests have completed

  const USB_OTG_MAX_EP0_SIZE := 64
  const USBH_DEVICE_ADDRESS := 1
  const USBH_MAX_DATA_BUFFER := 0x400

  const REQ_SET_ADDRESS := 5
  const REQ_GET_DESCRIPTOR := 6
  const REQ_SET_CONFIGURATION := 9
  const DESC_DEVICE := 0x100
  const DESC_CONFIGURATION := 0x200
  const DESC_STRING := 0x300
  const ENGLISH := 0x409

  function GetString(index: u8): Setup {
    Setup(true, REQ_GET_DESCRIPTOR, DESC_STRING + index, ENGLISH, 512)
  }

  /** The request made in each state of enumeration. */
  function Request(e: EnumState, d: Desc): Setup {
    match e
    case ENUM_IDLE => Setup(true, REQ_GET_DESCRIPTOR, DESC_DEVICE, 0, 8)
    case ENUM_GET_FULL_DEV_DESC => Setup(true, REQ_GET_DESCRIPTOR, DESC_DEVICE, 0, 18)
    case ENUM_SET_ADDR => Setup(false, REQ_SET_ADDRESS, USBH_DEVICE_ADDRESS, 0, 0)
    case ENUM_GET_CFG_DESC => Setup(true, REQ_GET_DESCRIPTOR, DESC_CONFIGURATION, 0, 9)
    case ENUM_GET_FULL_CFG_DESC => Setup(true, REQ_GET_DESCRIPTOR, DESC_CONFIGURATION, 0, d.totalLength)
    case ENUM_GET_MFC_STRING_DESC => GetString(d.iManufacturer)
    case ENUM_GET_PRODUCT_STRING_DESC => GetString(d.iProduct)
    case ENUM_GET_SERIALNUM_STRING_DESC => GetString(d.iSerial)
    case ENUM_SET_CONFIGURATION => Setup(false, REQ_SET_CONFIGURATION, d.cfgValue, 0, 0)
    case ENUM_DEV_CONFIGURED => Setup(false, 0, 0, 0, 0)
  }

  /** A string descriptor that the device does not have is not requested. */
  predicate Skips(e: EnumState, d: Desc) {
    || (e.ENUM_GET_MFC_STRING_DESC? && d.iManufacturer == 0)
    || (e.ENUM_GET_PRODUCT_STRING_DESC? && d.iProduct == 0)
    || (e.ENUM_GET_SERIALNUM_STRING_DESC? && d.iSerial == 0)
  }

  function Next(e: EnumState): EnumState {
    match e
    case ENUM_IDLE => ENUM_GET_FULL_DEV_DESC
    case ENUM_GET_FULL_DEV_DESC => ENUM_SET_ADDR
    case ENUM_SET_ADDR => ENUM_GET_CFG_DESC
    case ENUM_GET_CFG_DESC => ENUM_GET_FULL_CFG_DESC
    case ENUM_GET_FULL_CFG_DESC => ENUM_GET_MFC_STRING_DESC
    case ENUM_GET_MFC_STRING_DESC => ENUM_GET_PRODUCT_STRING_DESC
    case ENUM_GET_PRODUCT_STRING_DESC => ENUM_GET_SERIALNUM_STRING_DESC
    case ENUM_GET_SERIALNUM_STRING_DESC => ENUM_SET_CONFIGURATION
    case _ => ENUM_DEV_CONFIGURED
  }

  datatype Requested = Requested(h: Host, status: Status)

  /** USBH_CtlReq, with the setup packet that its caller has filled in */
  function CtlReq(h0: Host, setup: Setup): Requested {
    var h := h0.(ctrl := h0.ctrl.(setup := setup));
    match h.request
    case CMD_SEND =>
      Requested(h.(gStateBkp := h.gState, gState := HOST_CTRL_XFER, request := CMD_WAIT,
                   ctrl := h.ctrl.(length := setup.wLength, state := CTRL_SETUP, restarts := 0)),
                USBH_BUSY)
    case CMD_WAIT =>
      if h.ctrl.state == CTRL_COMPLETE then
        Requested(h.(request := CMD_SEND, ctrl := h.ctrl.(state := CTRL_IDLE), completed := h.completed + 1),
                  USBH_OK)
      else if h.ctrl.state == CTRL_ERROR then Requested(h.(request := CMD_SEND), USBH_FAIL)
      else if h.ctrl.state == CTRL_STALLED then Requested(h.(request := CMD_SEND), USBH_NOT_SUPPORTED)
      else Requested(h, USBH_BUSY)
  }

  ghost predicate Ready(h: Host) { Piped(h.ctrl, h.s) }

  function ModifyControl(h: Host, first: u8, second: u8, address: u8, mps: u16): Host
    requires Sized(h.s) && first < HC_MAX && second < HC_MAX
  {
    h.(s := Modify(Modify(h.s, first, address, 0, mps), second, address, 0, mps))
  }

  /** What a completed request changes, in each state of enumeration. */
  function Advance(h: Host, i: Input): Host
    requires Ready(h)
  {
    match h.enumState
    case ENUM_IDLE =>
      var m := i.reply.maxPacket;
      ModifyControl(h.(desc := h.desc.(maxPacket := m), ctrl := h.ctrl.(ep0size := m),
                       enumState := ENUM_GET_FULL_DEV_DESC),
                    h.ctrl.hcOut, h.ctrl.hcIn, 0, m)
    case ENUM_GET_FULL_DEV_DESC =>
      h.(desc := i.reply.(totalLength := h.desc.totalLength, cfgValue := h.desc.cfgValue),
         enumState := ENUM_SET_ADDR)
    case ENUM_SET_ADDR =>
      ModifyControl(h.(address := USBH_DEVICE_ADDRESS, enumState := ENUM_GET_CFG_DESC),
                    h.ctrl.hcIn, h.ctrl.hcOut, USBH_DEVICE_ADDRESS, 0)
    case ENUM_GET_CFG_DESC =>
      var h' := h.(desc := h.desc.(totalLength := i.reply.totalLength, cfgValue := i.reply.cfgValue));
      if i.reply.totalLength <= USBH_MAX_DATA_BUFFER then h'.(enumState := ENUM_GET_FULL_CFG_DESC) else h'
    case ENUM_GET_FULL_CFG_DESC =>
      var h' := h.(desc := h.desc.(totalLength := i.reply.totalLength, cfgValue := i.reply.cfgValue));
      if i.parsed then h'.(enumState := ENUM_GET_MFC_STRING_DESC) else h'
    case _ => h.(enumState := Next(h.enumState))
  }

  /** USBH_HandleEnum */
  function HandleEnum(h: Host, i: Input): Requested
    requires Ready(h)
  {
    if h.enumState.ENUM_DEV_CONFIGURED? then Requested(h, USBH_OK)
    else if Skips(h.enumState, h.desc) then Requested(h.(enumState := Next(h.enumState)), USBH_BUSY)
    else
      var r := CtlReq(h, Request(h.enumState, h.desc));
      Requested(if r.status == USBH_OK then Advance(r.h, i) else r.h, USBH_BUSY)
  }

  /** USBH_DeInit */
  function DeInit(h: Host): Host
    requires Sized(h.s)
  {
    h.(gState := HOST_IDLE, gStateBkp := HOST_IDLE, enumState := ENUM_IDLE, request := CMD_SEND,
       ctrl := h.ctrl.(state := CTRL_SETUP, ep0size := USB_OTG_MAX_EP0_SIZE), address := 0,
       speed := HPRT0_PRTSPD_FULL_SPEED,
       s := Free(Free(h.s, h.ctrl.hcIn), h.ctrl.hcOut))
  }

  /** The top bit of its address says which way an endpoint goes. */
  function Take(d: DataItf, e: Ep): DataItf {
    if e.address >= 0x80 then d.(inEp := e) else d.(outEp := e)
  }

  /** USBH_CDC_InterfaceInit */
  function ClassInit(h: Host, i: Input): Host
    requires Sized(h.s)
  {
    if !i.isCdc then h
    else
      var d := Take(Take(h.data, i.first), i.second);
      var out := AllocResult(h.s);
      var s1 := Alloc(h.s, d.outEp.address);
      var inp := AllocResult(s1);
      var s2 := Alloc(s1, d.inEp.address);
      var h' := h.(data := d, outPipe := out, inPipe := inp, s := s2);
      if out < HC_MAX && inp < HC_MAX then
        h'.(s := Open(Open(s2, out, h.address, h.speed, BULK, d.outEp.size),
                      inp, h.address, h.speed, BULK, d.inEp.size))
      else h'
  }

  /** USBH_CDC_InterfaceDeInit */
  function ClassDeInit(h: Host): Host
    requires Sized(h.s)
  {
    var s1 := if h.outPipe != 0 then Free(h.s, h.outPipe) else h.s;
    h.(s := if h.inPipe != 0 then Free(s1, h.inPipe) else s1, outPipe := 0, inPipe := 0)
  }

  lemma DeInitLeavesIdle(h: Host)
    requires Sized(h.s)
    ensures ClassDeInit(DeInit(h)).gState.HOST_IDLE?
  {
  }

  /** The HOST_DEV_ATTACHED state */
  function Attach(h0: Host, i: Input): Host
    requires Sized(h0.s)
  {
    var h := h0.(speed := i.speed);
    var out := AllocResult(h.s);
    var s1 := Alloc(h.s, 0);
    var inp := AllocResult(s1);
    var s2 := Alloc(s1, 0x80);
    var h' := h.(gState := HOST_ENUMERATION, ctrl := h.ctrl.(hcOut := out, hcIn := inp), s := s2);
    if out < HC_MAX && inp < HC_MAX then
      h'.(s := Open(Open(s2, inp, h.address, h.speed, CTRL, h.ctrl.ep0size),
                    out, h.address, h.speed, CTRL, h.ctrl.ep0size))
    else h'
  }

  /** USBH_Process */
  function Process(h0: Host, i: Input): Host
    requires Ready(h0)
  {
    var h := if (!i.connected || !i.enabled) && !h0.gState.HOST_IDLE? then h0.(gState := HOST_DEV_DISCONNECTED)
             else h0;
    match h.gState
    case HOST_IDLE => if i.connected then h.(gState := HOST_WAIT_PRT_ENABLED) else h
    case HOST_WAIT_PRT_ENABLED => h.(gState := HOST_DEV_ATTACHED)
    case HOST_DEV_ATTACHED => Attach(h, i)
    case HOST_ENUMERATION =>
      var r := HandleEnum(h, i);
      if r.status == USBH_OK then r.h.(gState := HOST_USR_INPUT) else r.h
    case HOST_USR_INPUT => ClassInit(h, i).(gState := HOST_CLASS_REQUEST)
    case HOST_CLASS_REQUEST => h.(gState := HOST_CLASS)
    case HOST_CLASS => h
    case HOST_CTRL_XFER =>
      var o := HandleControl(h.ctrl, h.s, i.poll);
      h.(ctrl := o.ctrl, s := o.s, gState := if o.back then h.gStateBkp else h.gState)
    case HOST_DEV_DISCONNECTED =>
      var h' := ClassDeInit(DeInit(h));
      h'.(s := FreeAll(h'.s))
    case HOST_ERROR_STATE => ClassDeInit(DeInit(h))
  }

  // -- The invariant -------------------------------------------------------------

  predicate Detached(g: HostState) {
    g.HOST_IDLE? || g.HOST_WAIT_PRT_ENABLED? || g.HOST_DEV_ATTACHED?
  }

  predicate Configured(g: HostState) {
    g.HOST_USR_INPUT? || g.HOST_CLASS_REQUEST? || g.HOST_CLASS?
  }

  /** The address that traffic is sent to, by state of enumeration. */
  function AddressAt(e: EnumState): u8 {
    if e.ENUM_IDLE? || e.ENUM_GET_FULL_DEV_DESC? || e.ENUM_SET_ADDR? then 0 else USBH_DEVICE_ADDRESS
  }

  /** Exactly the control channels, and the CDC pipes once opened, are used. */
  ghost predicate ChannelInv(h: Host)
    requires Sized(h.s)
  {
    if Detached(h.gState) then UsedSet(h.s) == {} && h.outPipe == h.inPipe == 0
    else
      && h.ctrl.hcOut == 0 && h.ctrl.hcIn == 1
      && if h.outPipe == 0 then h.inPipe == 0 && UsedSet(h.s) == {0, 1}
         else
           && h.outPipe == 2 && h.inPipe == 3 && UsedSet(h.s) == {0, 1, 2, 3}
           && (h.gState.HOST_CLASS_REQUEST? || h.gState.HOST_CLASS?)
           && h.s.hc[2].regAddr == h.s.hc[3].regAddr == USBH_DEVICE_ADDRESS
  }

  /** A request in progress is the one its state of enumeration makes, and it is
      resumed only in a final state. */
  ghost predicate RequestInv(h: Host)
    requires Ready(h)
  {
    && (h.gState.HOST_CTRL_XFER? ==>
          && h.request.CMD_WAIT? && h.gStateBkp.HOST_ENUMERATION?
          && h.ctrl.state !in {CTRL_IDLE, CTRL_STALLED, CTRL_COMPLETE}
          && h.ctrl.length == h.ctrl.setup.wLength
          && RestartInv(h.ctrl))
    && (h.gState.HOST_ENUMERATION? && h.request.CMD_WAIT? ==> Control.Final(h.ctrl.state))
    && (h.request.CMD_WAIT? ==>
          && (h.gState.HOST_CTRL_XFER? || h.gState.HOST_ENUMERATION?)
          && !h.enumState.ENUM_DEV_CONFIGURED? && !Skips(h.enumState, h.desc)
          && h.ctrl.setup == Request(h.enumState, h.desc)
          && Progress(h.ctrl, AddressAt(h.enumState)))
    && h.ctrl.restarts <= USBH_MAX_ERROR_COUNT + 1
  }

  ghost predicate AddressInv(h: Host)
    requires Ready(h)
  {
    && h.address == AddressAt(h.enumState)
    && (Detached(h.gState) ==> h.enumState.ENUM_IDLE?)
    && (Configured(h.gState) ==> h.enumState.ENUM_DEV_CONFIGURED?)
    && (!Detached(h.gState) ==> PipesAt(h.ctrl, h.s, h.address))
  }

  ghost predicate Inv(h: Host) {
    && Ready(h)
    && !h.gState.HOST_DEV_DISCONNECTED? && !h.gState.HOST_ERROR_STATE?
    && ChannelInv(h) && RequestInv(h) && AddressInv(h)
  }

  /** As USBH_Init leaves the host, with static storage zeroed. */
  ghost predicate Initial(h: Host) {
    && Sized(h.s) && h.ctrl.hcIn == h.ctrl.hcOut == 0 && h.outPipe == h.inPipe == 0
    && h.s.channel == [0, 0, 0, 0, 0, 0, 0, 0]
    && h.ctrl.restarts == 0
    && h == DeInit(h)
  }

  lemma InitialInv(h: Host)
    requires Initial(h)
    ensures Inv(h)
  {
  }

  lemma AttachInv(h: Host, i: Input)
    requires Inv(h) && h.gState.HOST_DEV_ATTACHED?
    ensures Inv(Attach(h, i))
  {
    assert 0 !in UsedSet(h.s) && 1 !in UsedSet(h.s);
    FirstFreeAt(h.s.channel, 0);
    FirstFreeAt(Alloc(h.s, 0).channel, 1);
    var s' := Attach(h, i).s;
    assert UsedSet(s') == {0, 1};
  }

  lemma ClassInitInv(h: Host, i: Input)
    requires Inv(h) && h.gState.HOST_USR_INPUT?
    ensures Inv(ClassInit(h, i).(gState := HOST_CLASS_REQUEST))
  {
    var s := h.s;
    assert 0 in UsedSet(s) && 1 in UsedSet(s) && 2 !in UsedSet(s) && 3 !in UsedSet(s);
    FirstFreeAt(s.channel, 2);
    FirstFreeAt(Alloc(s, Take(Take(h.data, i.first), i.second).outEp.address).channel, 3);
    if i.isCdc {
      assert UsedSet(ClassInit(h, i).s) == {0, 1, 2, 3};
    }
  }

  /** Every channel is free after a disconnection. */
  lemma DisconnectInv(h: Host)
    requires Inv(h) && !h.gState.HOST_IDLE?
    ensures var d := ClassDeInit(DeInit(h.(gState := HOST_DEV_DISCONNECTED)));
            && UsedSet(d.s) == {}
            && Inv(d.(s := FreeAll(d.s)))
  {
    var d := ClassDeInit(DeInit(h.(gState := HOST_DEV_DISCONNECTED)));
    forall j | 0 <= j < HC_MAX
      ensures !Used(d.s.channel[j])
    {
      assert j in UsedSet(h.s) <==> Used(h.s.channel[j]);
    }
  }

  lemma CtrlXferInv(h: Host, i: Input)
    requires Inv(h) && h.gState.HOST_CTRL_XFER?
    ensures var o := HandleControl(h.ctrl, h.s, i.poll);
            Inv(h.(ctrl := o.ctrl, s := o.s, gState := if o.back then h.gStateBkp else h.gState))
  {
    HandleControlInv(h.ctrl, h.s, i.poll, h.address);
    var s' := HandleControl(h.ctrl, h.s, i.poll).s;
    assert UsedSet(s') == UsedSet(h.s);
  }

  lemma CtlReqInv(h: Host)
    requires Inv(h) && h.gState.HOST_ENUMERATION?
    requires !h.enumState.ENUM_DEV_CONFIGURED? && !Skips(h.enumState, h.desc)
    ensures Inv(CtlReq(h, Request(h.enumState, h.desc)).h)
  {
  }

  lemma AdvanceInv(h: Host, i: Input)
    requires Inv(h) && h.gState.HOST_ENUMERATION? && h.request.CMD_SEND? && !h.enumState.ENUM_DEV_CONFIGURED?
    ensures Inv(Advance(h, i))
  {
    assert UsedSet(Advance(h, i).s) == UsedSet(h.s);
  }

  lemma EnumInv(h: Host, i: Input)
    requires Inv(h) && h.gState.HOST_ENUMERATION?
    ensures Inv(HandleEnum(h, i).h)
    ensures HandleEnum(h, i).status == USBH_OK ==>
              HandleEnum(h, i).h == h && h.enumState.ENUM_DEV_CONFIGURED? && h.request.CMD_SEND?
  {
    if !h.enumState.ENUM_DEV_CONFIGURED? && !Skips(h.enumState, h.desc) {
      CtlReqInv(h);
      var r := CtlReq(h, Request(h.enumState, h.desc));
      if r.status == USBH_OK {
        AdvanceInv(r.h, i);
      }
    }
  }

  lemma ProcessInv(h: Host, i: Input)
    requires Inv(h)
    ensures Inv(Process(h, i))
  {
    if (!i.connected || !i.enabled) && !h.gState.HOST_IDLE? {
      DisconnectInv(h);
    } else {
      match h.gState
      case HOST_DEV_ATTACHED => AttachInv(h, i);
      case HOST_ENUMERATION => EnumInv(h, i);
      case HOST_USR_INPUT => ClassInitInv(h, i);
      case HOST_CTRL_XFER => CtrlXferInv(h, i);
      case _ =>
    }
  }

  // -- Every run -----------------------------------------------------------------

  ghost predicate Run(h: Host, inputs: seq<Input>)
    decreases |inputs|
  {
    Ready(h) && (inputs != [] ==> Run(Process(h, inputs[0]), inputs[1..]))
  }

  ghost function After(h: Host, inputs: seq<Input>): (f: Host)
    requires Run(h, inputs)
    ensures Ready(f)
    decreases |inputs|
  {
    if inputs == [] then h else After(Process(h, inputs[0]), inputs[1..])
  }

  /** No run gets stuck on a bad channel number, and the invariant holds in it. */
  lemma {:induction false} RunInv(h: Host, inputs: seq<Input>)
    requires Inv(h)
    ensures Run(h, inputs) && Inv(After(h, inputs))
    decreases |inputs|
  {
    if inputs == [] {
    } else {
      ProcessInv(h, inputs[0]);
      RunInv(Process(h, inputs[0]), inputs[1..]);
    }
  }

  /** After any connects, disconnects, errors and replies: a request in progress
      is made by enumeration, is resumed only in a final state, and has restarted
      at most three times; the channels used are the control pair and the two CDC
      pipes at most, none in HOST_IDLE, and the next allocation succeeds. */
  lemma HostAlwaysSound(h: Host, inputs: seq<Input>)
    requires Initial(h)
    ensures Run(h, inputs)
    ensures var f := After(h, inputs);
            && (f.gState.HOST_CTRL_XFER? ==> f.request.CMD_WAIT? && f.gStateBkp.HOST_ENUMERATION?)
            && (f.gState.HOST_ENUMERATION? && f.request.CMD_WAIT? ==> Control.Final(f.ctrl.state))
            && f.ctrl.restarts <= 3
            && UsedSet(f.s) <= {0, 1, 2, 3}
            && (f.gState.HOST_IDLE? ==> UsedSet(f.s) == {})
            && (!Detached(f.gState) ==> {0, 1} <= UsedSet(f.s) && f.ctrl.hcOut == 0 && f.ctrl.hcIn == 1)
            && (2 in UsedSet(f.s) || 3 in UsedSet(f.s) ==> f.outPipe == 2 && f.inPipe == 3)
            && AllocResult(f.s) < HC_MAX
  {
    InitialInv(h);
    RunInv(h, inputs);
    var f := After(h, inputs);
    assert 4 !in UsedSet(f.s);
    AllocTakesFree(f.s, 0);
  }

  /** A request reports USBH_OK only after a complete transfer of exactly the
      request that this state of enumeration makes. It is a standard transfer
      unless it asked the device for no data, which happens exactly when the
      configuration descriptor claims a total length of zero. */
  lemma RequestsAreTransfers(h: Host, inputs: seq<Input>, i: Input)
    requires Initial(h) && Run(h, inputs)
    ensures var f := After(h, inputs);
            var f' := Process(f, i);
            var x := Request(f.enumState, f.desc);
            f'.completed != f.completed ==>
              && f'.completed == f.completed + 1
              && f.ctrl.sentSetup == x
              && Stages(f.ctrl.sent, x, f.ctrl.data, f.ctrl.status, !x.d2h, f.address)
              && 0 < f.ctrl.status && (0 < f.ctrl.data <==> x.wLength != 0)
              && (StandardTransfer(f.ctrl.sent, x, f.address)
                  <==> !(f.enumState.ENUM_GET_FULL_CFG_DESC? && f.desc.totalLength == 0))
  {
    InitialInv(h);
    RunInv(h, inputs);
    var f := After(h, inputs);
    if Process(f, i).completed != f.completed {
      CompleteMeansStandardIff(f.ctrl, f.address);
    }
  }

  /** Enumeration advances one state at a time, and only when the request of that
      state, and no other, has just completed or the string it asks for does not exist. */
  lemma AdvancesFollowRequests(h: Host, inputs: seq<Input>, i: Input)
    requires Initial(h) && Run(h, inputs)
    ensures var f := After(h, inputs);
            var f' := Process(f, i);
            f'.enumState != f.enumState ==>
              || f'.gState.HOST_IDLE?
              || (f'.enumState == Next(f.enumState)
                  && (Skips(f.enumState, f.desc)
                      || (f'.completed == f.completed + 1
                          && f.ctrl.state == CTRL_COMPLETE
                          && f.ctrl.sentSetup == Request(f.enumState, f.desc)
                          && Stages(f.ctrl.sent, f.ctrl.sentSetup, f.ctrl.data, f.ctrl.status,
                                    !f.ctrl.sentSetup.d2h, f.address))))
  {
    hide Run, After, Process, Inv, Initial, Stages, StandardTransfer;
    InitialInv(h);
    RunInv(h, inputs);
    AdvanceCauses(After(h, inputs), i);
    RequestsAreTransfers(h, inputs, i);
  }

  lemma AdvanceCauses(f: Host, i: Input)
    requires Inv(f)
    ensures var f' := Process(f, i);
            f'.enumState != f.enumState ==>
              || f'.gState.HOST_IDLE?
              || (f'.enumState == Next(f.enumState)
                  && (Skips(f.enumState, f.desc)
                      || (f'.completed == f.completed + 1 && f.ctrl.state == CTRL_COMPLETE)))
  {
    hide HandleControl;
  }

  /** Everything sent up to the status stage of SET_ADDRESS goes to address 0 and
      everything later to address 1; the CDC pipes are at address 1. */
  lemma TrafficAddress(h: Host, inputs: seq<Input>, i: Input)
    requires Initial(h) && Run(h, inputs)
    ensures var f := After(h, inputs);
            var f' := Process(f, i);
            && (f.gState.HOST_CTRL_XFER? && Sends(f.ctrl.state) && f'.gState.HOST_CTRL_XFER? ==>
                  && f'.ctrl.sent != []
                  && f'.ctrl.sent[|f'.ctrl.sent| - 1].addr == AddressAt(f.enumState))
            && (2 in UsedSet(f.s) ==> f.s.hc[2].regAddr == 1)
            && (3 in UsedSet(f.s) ==> f.s.hc[3].regAddr == 1)
  {
    hide Run, After, HandleEnum;
    InitialInv(h);
    RunInv(h, inputs);
    var f := After(h, inputs);
    if f.gState.HOST_CTRL_XFER? && Sends(f.ctrl.state) {
      SendInv(f.ctrl, f.s, i.poll, f.address);
    }
  }

  // -- A run in which the standard is not met ----------------------------------------

  /** The same input over and over. */
  ghost function Repeat(h: Host, i: Input, n: nat): (f: Host)
    requires Inv(h)
    ensures Inv(f)
    decreases n
  {
    if n == 0 then h
    else
      ProcessInv(h, i);
      Repeat(Process(h, i), i, n - 1)
  }

  function Copies(i: Input, n: nat): seq<Input> { if n == 0 then [] else [i] + Copies(i, n - 1) }

  lemma {:induction false} RepeatIsRun(h: Host, i: Input, n: nat)
    requires Inv(h)
    ensures Run(h, Copies(i, n)) && After(h, Copies(i, n)) == Repeat(h, i, n)
    decreases n
  {
    assert Ready(h);
    hide Inv, Process;
    if n == 0 {
      RunInv(h, []);
    } else {
      ProcessInv(h, i);
      RepeatIsRun(Process(h, i), i, n - 1);
      RunInv(h, Copies(i, n));
      assert Copies(i, n)[1..] == Copies(i, n - 1);
    }
  }

  lemma RepeatOne(h: Host, i: Input, n: nat)
    requires Inv(h)
    ensures Ready(h) && Inv(Process(h, i)) && Repeat(h, i, 0) == h
    ensures Repeat(h, i, n + 1) == Repeat(Process(h, i), i, n)
  {
    assert Ready(h);
    hide Inv, Process;
    ProcessInv(h, i);
  }

  lemma {:induction false} RepeatAdds(h: Host, i: Input, n: nat, m: nat)
    requires Inv(h)
    ensures Repeat(Repeat(h, i, n), i, m) == Repeat(h, i, n + m)
    decreases n
  {
    hide Inv, Process, Repeat, Ready;
    RepeatOne(h, i, 0);
    if n == 0 {
    } else {
      RepeatOne(h, i, n - 1);
      RepeatOne(h, i, n - 1 + m);
      RepeatAdds(Process(h, i), i, n - 1, m);
    }
  }

  /** A device that answers everything, and claims a configuration of length zero. */
  const EMPTY_CONFIG :=
    Input(true, true, HPRT0_PRTSPD_FULL_SPEED, ALL_DONE, Desc(USB_OTG_MAX_EP0_SIZE, 0, 0, 0, 0, 0),
          true, false, Ep(0, 0), Ep(0, 0))

  /** A request that enumeration waits for is complete. */
  ghost predicate Answered(h: Host) {
    h.gState.HOST_ENUMERATION? && h.request.CMD_WAIT? && h.ctrl.state == CTRL_COMPLETE
  }

  ghost predicate SameRequest(h: Host, f: Host) {
    f.enumState == h.enumState && f.desc == h.desc && f.completed == h.completed
  }

  lemma {:induction false} XferRuns(h: Host)
    requires Inv(h) && h.gState.HOST_CTRL_XFER? && StepsLeft(h.ctrl.state, h.ctrl.setup) > 0
    ensures var f := Repeat(h, EMPTY_CONFIG, StepsLeft(h.ctrl.state, h.ctrl.setup));
            Answered(f) && SameRequest(h, f)
    decreases StepsLeft(h.ctrl.state, h.ctrl.setup)
  {
    var g := Process(h, EMPTY_CONFIG);
    AllDoneStep(h.ctrl, h.s);
    ProcessInv(h, EMPTY_CONFIG);
    if !g.gState.HOST_CTRL_XFER? {
      assert Repeat(g, EMPTY_CONFIG, 0) == g;
    } else {
      XferRuns(g);
    }
  }

  /** From a state of enumeration that makes a request, the request is answered. */
  lemma RequestRuns(h: Host) returns (n: nat)
    requires Inv(h) && h.gState.HOST_ENUMERATION? && h.request.CMD_SEND?
    requires !h.enumState.ENUM_DEV_CONFIGURED? && !Skips(h.enumState, h.desc)
    ensures Answered(Repeat(h, EMPTY_CONFIG, n)) && SameRequest(h, Repeat(h, EMPTY_CONFIG, n))
  {
    var g := Process(h, EMPTY_CONFIG);
    ProcessInv(h, EMPTY_CONFIG);
    XferRuns(g);
    n := 1 + StepsLeft(g.ctrl.state, g.ctrl.setup);
  }

  /** And the next state of enumeration makes its own. */
  lemma NextRequestRuns(h: Host, n: nat) returns (m: nat)
    requires Inv(h) && Answered(Repeat(h, EMPTY_CONFIG, n))
    requires var f := Repeat(h, EMPTY_CONFIG, n);
             f.enumState in {ENUM_IDLE, ENUM_GET_FULL_DEV_DESC, ENUM_SET_ADDR, ENUM_GET_CFG_DESC}
    ensures var f, g := Repeat(h, EMPTY_CONFIG, n), Repeat(h, EMPTY_CONFIG, m);
            && Answered(g) && g.enumState == Next(f.enumState)
            && (f.enumState.ENUM_GET_CFG_DESC? ==> g.desc.totalLength == 0)
  {
    hide Inv, Process, Request, Repeat, Ready;
    var f := Repeat(h, EMPTY_CONFIG, n);
    RepeatOne(f, EMPTY_CONFIG, 0);
    AdvanceRuns(f);
    var g := Process(f, EMPTY_CONFIG);
    var k := RequestRuns(g);
    RepeatOne(f, EMPTY_CONFIG, k);
    RepeatAdds(h, EMPTY_CONFIG, n, 1 + k);
    m := n + 1 + k;
  }

  lemma AdvanceRuns(f: Host)
    requires Inv(f) && Answered(f)
    requires f.enumState in {ENUM_IDLE, ENUM_GET_FULL_DEV_DESC, ENUM_SET_ADDR, ENUM_GET_CFG_DESC}
    ensures var g := Process(f, EMPTY_CONFIG);
            && g.gState.HOST_ENUMERATION? && g.request.CMD_SEND? && g.enumState == Next(f.enumState)
            && !Skips(g.enumState, g.desc)
            && (f.enumState.ENUM_GET_CFG_DESC? ==> g.desc.totalLength == 0)
  {
  }

  lemma Connects(h: Host)
    requires Initial(h)
    ensures Inv(h)
    ensures var f := Repeat(h, EMPTY_CONFIG, 3);
            f.gState.HOST_ENUMERATION? && f.request.CMD_SEND? && f.enumState.ENUM_IDLE?
  {
    InitialInv(h);
    var h1 := Process(h, EMPTY_CONFIG);
    ProcessInv(h, EMPTY_CONFIG);
    var h2 := Process(h1, EMPTY_CONFIG);
    ProcessInv(h1, EMPTY_CONFIG);
    var h3 := Process(h2, EMPTY_CONFIG);
    ProcessInv(h2, EMPTY_CONFIG);
    assert Repeat(h, EMPTY_CONFIG, 3) == Repeat(h1, EMPTY_CONFIG, 2) == Repeat(h2, EMPTY_CONFIG, 1)
        == Repeat(h3, EMPTY_CONFIG, 0);
  }

  /** From every initial state there is a run in which a request reports USBH_OK after
      a transfer that is not standard. */
  lemma NonStandardRequestHappens(h: Host) returns (inputs: seq<Input>)
    requires Initial(h)
    ensures Run(h, inputs)
    ensures var f := After(h, inputs);
            && f.enumState.ENUM_GET_FULL_CFG_DESC? && f.desc.totalLength == 0
            && Process(f, EMPTY_CONFIG).completed == f.completed + 1
            && !StandardTransfer(f.ctrl.sent, Request(f.enumState, f.desc), f.address)
  {
    hide Inv, Process, Initial;
    Connects(h);
    var n := FirstRequestRuns(h);
    n := NextRequestRuns(h, n);
    n := NextRequestRuns(h, n);
    n := NextRequestRuns(h, n);
    n := NextRequestRuns(h, n);
    inputs := Copies(EMPTY_CONFIG, n);
    RepeatIsRun(h, EMPTY_CONFIG, n);
    LastRequest(h, inputs);
  }

  lemma FirstRequestRuns(h: Host) returns (n: nat)
    requires Initial(h)
    ensures Inv(h) && Answered(Repeat(h, EMPTY_CONFIG, n)) && Repeat(h, EMPTY_CONFIG, n).enumState.ENUM_IDLE?
  {
    hide Inv, Process, Initial, Request;
    Connects(h);
    var k := RequestRuns(Repeat(h, EMPTY_CONFIG, 3));
    RepeatAdds(h, EMPTY_CONFIG, 3, k);
    n := 3 + k;
  }

  lemma LastRequest(h: Host, inputs: seq<Input>)
    requires Initial(h) && Run(h, inputs) && Answered(After(h, inputs))
    requires var f := After(h, inputs); f.enumState.ENUM_GET_FULL_CFG_DESC? && f.desc.totalLength == 0
    ensures var f := After(h, inputs);
            && Process(f, EMPTY_CONFIG).completed == f.completed + 1
            && !StandardTransfer(f.ctrl.sent, Request(f.enumState, f.desc), f.address)
  {
    hide StandardTransfer, Stages;
    RequestsAreTransfers(h, inputs, EMPTY_CONFIG);
  }
}
