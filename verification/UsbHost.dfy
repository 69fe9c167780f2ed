/**
  The host handle as the program runs it: fields assigned in place, one switch
  per state machine. Each method is proved to compute the functions of Control
  and HostCore.
*/
module UsbHost {
  import opened Channel
  import opened Hcs
  import opened Control
  import opened H = HostCore
  import opened UsbStatus
  import opened Words

  class HostHandle {
    var gState: HostState
    var gStateBkp: HostState
    var enumState: EnumState
    var requestState: CmdState
    var control: Ctrl
    var address: u8
    var speed: u8
    var desc: Desc
    var dataItf: DataItf
    var outPipe: u8
    var inPipe: u8
    var completed: nat
    const core: OtgCore

    ghost predicate Valid()
      reads this
    {
      core.Valid() && control.hcOut < HC_MAX && control.hcIn < HC_MAX
    }

    ghost function View(): Host
      reads this, core.channel, core.hc
    {
      H.Host.Host(gState, gStateBkp, enumState, requestState, control, address, speed, desc, dataItf, outPipe, inPipe,
                core.View(), completed)
    }

    /** USBH_Init, over static storage that starts as zeros */
    constructor (core: OtgCore)
      requires core.Valid() && core.channel[..] == [0, 0, 0, 0, 0, 0, 0, 0]
      ensures Valid() && this.core == core && H.Initial(View())
    {
      this.core := core;
      gState, gStateBkp, enumState, requestState := HOST_IDLE, HOST_IDLE, ENUM_IDLE, CMD_SEND;
      var none := Setup(false, 0, 0, 0, 0);
      control := Ctrl(CTRL_SETUP, none, 0, 0, 0, 0, USB_OTG_MAX_EP0_SIZE, [], none, 0, 0, 0);
      address, speed, outPipe, inPipe, completed := 0, HPRT0_PRTSPD_FULL_SPEED, 0, 0, 0;
      desc := Desc(0, 0, 0, 0, 0, 0);
      dataItf := DataItf(Ep(0, 0), Ep(0, 0));
    }

    /** USBH_CtlSendSetup and its caller's next state */
    method CtlSendSetup()
      requires Valid()
      modifies this`control
      ensures Valid() && control == SendSetup(old(control), core.View()).ctrl
    {
      var h := core.hc[control.hcOut];
      control := control.(sent := [Stage(h.regIsIn, SETUP, SETUP_PKT_SIZE, h.regAddr)],
                          sentSetup := control.setup, data := 0, status := 0);
      control := control.(state := CTRL_SETUP_WAIT);
    }

    /** USBH_CtlSendData */
    method CtlSendData(length: nat)
      requires Valid()
      modifies this`control, core.hc
      ensures Valid()
      ensures var o := SendData(old(control), old(core.View()), length,
                                old(core.hc[control.hcOut].toggleOut));
              control == o.ctrl && core.View() == o.s
    {
      var n := control.hcOut;
      if length == 0 {
        core.hc[n] := core.hc[n].(toggleOut := true);
      }
      var pid := if core.hc[n].toggleOut then DATA1 else DATA0;
      control := control.(sent := control.sent + [Stage(core.hc[n].regIsIn, pid, length, core.hc[n].regAddr)]);
    }

    /** USBH_CtlReceiveData */
    method CtlReceiveData(length: nat)
      requires Valid()
      modifies this`control
      ensures Valid() && control == ReceiveData(old(control), core.View(), length).ctrl
    {
      var h := core.hc[control.hcIn];
      control := control.(sent := control.sent + [Stage(h.regIsIn, DATA1, length, h.regAddr)]);
    }

    /** The states of USBH_HandleControl that submit something. */
    method HandleControlSend(p: Poll)
      requires Valid() && Sends(control.state)
      modifies this`control, core.hc
      ensures Valid()
      ensures var o := HandleControl(old(control), old(core.View()), p);
              control == o.ctrl && core.View() == o.s && !o.back
    {
      match control.state {
        case CTRL_SETUP =>
          CtlSendSetup();
        case CTRL_DATA_IN =>
          CtlReceiveData(control.length);
          control := control.(state := CTRL_DATA_IN_WAIT, data := control.data + 1);
        case CTRL_DATA_OUT =>
          core.hc[control.hcOut] := core.hc[control.hcOut].(toggleOut := true);
          CtlSendData(control.length);
          control := control.(state := CTRL_DATA_OUT_WAIT, data := control.data + 1);
        case CTRL_STATUS_IN =>
          CtlReceiveData(0);
          control := control.(state := CTRL_STATUS_IN_WAIT, status := control.status + 1);
        case CTRL_STATUS_OUT =>
          core.hc[control.hcOut] := core.hc[control.hcOut].(toggleOut := !core.hc[control.hcOut].toggleOut);
          CtlSendData(0);
          control := control.(state := CTRL_STATUS_OUT_WAIT, status := control.status + 1);
      }
    }

    /** The states of USBH_HandleControl that poll a channel. */
    method HandleControlWait(p: Poll)
      requires Valid() && !Sends(control.state)
      modifies this`control, this`gState
      ensures Valid()
      ensures var o := HandleControl(old(control), core.View(), p);
              control == o.ctrl && core.View() == o.s
              && gState == if o.back then gStateBkp else old(gState)
    {
      match control.state {
        case CTRL_SETUP_WAIT =>
          if p.urbOut == URB_DONE {
            if control.setup.wLength != 0 {
              control := control.(state := if control.setup.d2h then CTRL_DATA_IN else CTRL_DATA_OUT);
            } else {
              control := control.(state := if control.setup.d2h then CTRL_STATUS_OUT else CTRL_STATUS_IN);
            }
          } else if p.urbOut == URB_ERROR {
            control := control.(state := CTRL_ERROR);
          }
        case CTRL_DATA_IN_WAIT =>
          if p.urbIn == URB_DONE {
            control := control.(state := CTRL_STATUS_OUT);
          }
          if p.urbIn == URB_STALL {
            gState := gStateBkp;
            control := control.(state := CTRL_STALLED);
          } else if p.urbIn == URB_ERROR {
            control := control.(state := CTRL_ERROR);
          } else if p.timedOut {
            control := control.(state := CTRL_ERROR);
          }
        case CTRL_DATA_OUT_WAIT =>
          if p.urbOut == URB_DONE {
            control := control.(state := CTRL_STATUS_IN);
          } else if p.urbOut == URB_STALL {
            gState := gStateBkp;
            control := control.(state := CTRL_STALLED);
          } else if p.urbOut == URB_NOTREADY {
            control := control.(state := CTRL_DATA_OUT);
          } else if p.urbOut == URB_ERROR {
            control := control.(state := CTRL_ERROR);
          }
        case CTRL_STATUS_IN_WAIT =>
          if p.urbIn == URB_DONE {
            gState := gStateBkp;
            control := control.(state := CTRL_COMPLETE);
          } else if p.urbIn == URB_ERROR {
            control := control.(state := CTRL_ERROR);
          } else if p.timedOut {
            control := control.(state := CTRL_ERROR);
          } else if p.urbIn == URB_STALL {
            gState := gStateBkp;
            control := control.(state := CTRL_STALLED);
          }
        case CTRL_STATUS_OUT_WAIT =>
          if p.urbOut == URB_DONE {
            gState := gStateBkp;
            control := control.(state := CTRL_COMPLETE);
          } else if p.urbOut == URB_NOTREADY {
            control := control.(state := CTRL_STATUS_OUT);
          } else if p.urbOut == URB_ERROR {
            control := control.(state := CTRL_ERROR);
          }
        case CTRL_ERROR =>
          control := control.(errorCount := (control.errorCount + 1) % 0x100);
          if control.errorCount <= USBH_MAX_ERROR_COUNT {
            control := control.(state := CTRL_SETUP, restarts := control.restarts + 1);
          } else {
            gState := gStateBkp;
          }
        case _ =>
      }
    }

    /** USBH_CtlReq, with its caller's setup packet */
    method CtlReq(setup: Setup) returns (status: Status)
      requires Valid()
      modifies this
      ensures Valid()
      ensures H.CtlReq(old(View()), setup) == Requested(View(), status)
    {
      control := control.(setup := setup);
      status := USBH_BUSY;
      match requestState {
        case CMD_SEND =>
          gStateBkp := gState;
          gState := HOST_CTRL_XFER;
          control := control.(length := setup.wLength, state := CTRL_SETUP, restarts := 0);
          requestState := CMD_WAIT;
        case CMD_WAIT =>
          if control.state == CTRL_COMPLETE {
            requestState := CMD_SEND;
            control := control.(state := CTRL_IDLE);
            completed := completed + 1;
            status := USBH_OK;
          } else if control.state == CTRL_ERROR {
            requestState := CMD_SEND;
            status := USBH_FAIL;
          } else if control.state == CTRL_STALLED {
            requestState := CMD_SEND;
            status := USBH_NOT_SUPPORTED;
          }
      }
    }

    /** What USBH_HandleEnum does once the request of its state is complete */
    method Advance(i: Input)
      requires Valid()
      modifies this, core.hc
      ensures Valid() && View() == H.Advance(old(View()), i)
    {
      match enumState {
        case ENUM_IDLE =>
          desc := desc.(maxPacket := i.reply.maxPacket);
          control := control.(ep0size := desc.maxPacket);
          enumState := ENUM_GET_FULL_DEV_DESC;
          core.ModifyChannel(control.hcOut, 0, 0, control.ep0size);
          core.ModifyChannel(control.hcIn, 0, 0, control.ep0size);
        case ENUM_GET_FULL_DEV_DESC =>
          desc := i.reply.(totalLength := desc.totalLength, cfgValue := desc.cfgValue);
          enumState := ENUM_SET_ADDR;
        case ENUM_SET_ADDR =>
          address := USBH_DEVICE_ADDRESS;
          enumState := ENUM_GET_CFG_DESC;
          core.ModifyChannel(control.hcIn, address, 0, 0);
          core.ModifyChannel(control.hcOut, address, 0, 0);
        case ENUM_GET_CFG_DESC =>
          desc := desc.(totalLength := i.reply.totalLength, cfgValue := i.reply.cfgValue);
          if desc.totalLength <= USBH_MAX_DATA_BUFFER {
            enumState := ENUM_GET_FULL_CFG_DESC;
          }
        case ENUM_GET_FULL_CFG_DESC =>
          desc := desc.(totalLength := i.reply.totalLength, cfgValue := i.reply.cfgValue);
          if i.parsed {
            enumState := ENUM_GET_MFC_STRING_DESC;
          }
        case ENUM_GET_MFC_STRING_DESC => enumState := ENUM_GET_PRODUCT_STRING_DESC;
        case ENUM_GET_PRODUCT_STRING_DESC => enumState := ENUM_GET_SERIALNUM_STRING_DESC;
        case ENUM_GET_SERIALNUM_STRING_DESC => enumState := ENUM_SET_CONFIGURATION;
        case ENUM_SET_CONFIGURATION => enumState := ENUM_DEV_CONFIGURED;
        case ENUM_DEV_CONFIGURED =>
      }
    }

    /** USBH_HandleEnum */
    method HandleEnum(i: Input) returns (status: Status)
      requires Valid()
      modifies this, core.hc
      ensures Valid() && H.HandleEnum(old(View()), i) == Requested(View(), status)
    {
      status := USBH_BUSY;
      if enumState == ENUM_DEV_CONFIGURED {
        status := USBH_OK;
      } else if Skips(enumState, desc) {
        enumState := Next(enumState);
      } else {
        var r := CtlReq(Request(enumState, desc));
        if r == USBH_OK {
          Advance(i);
        }
      }
    }

    /** USBH_DeInit */
    method DeInit()
      requires Valid()
      modifies this, core.channel
      ensures Valid() && View() == H.DeInit(old(View()))
    {
      hide Free;
      gState, gStateBkp, enumState, requestState := HOST_IDLE, HOST_IDLE, ENUM_IDLE, CMD_SEND;
      control := control.(state := CTRL_SETUP, ep0size := USB_OTG_MAX_EP0_SIZE);
      address, speed := 0, HPRT0_PRTSPD_FULL_SPEED;
      core.FreeChannel(control.hcIn);
      core.FreeChannel(control.hcOut);
    }

    /** One of the two looks at the endpoint table in USBH_CDC_InterfaceInit. */
    method TakeEndpoint(e: Ep)
      modifies this`dataItf
      ensures dataItf == Take(old(dataItf), e)
    {
      if e.address >= 0x80 {
        dataItf := dataItf.(inEp := e);
      } else {
        dataItf := dataItf.(outEp := e);
      }
    }

    /** USBH_CDC_InterfaceInit; there are channels left, by the invariant. */
    method ClassInit(i: Input)
      requires Valid() && H.Inv(View()) && gState.HOST_USR_INPUT?
      modifies this, core.channel, core.hc
      ensures Valid() && View() == H.ClassInit(old(View()), i)
    {
      hide Alloc, AllocResult, Open, Take;
      if i.isCdc {
        ClassInitInv(View(), i);
        TakeEndpoint(i.first);
        TakeEndpoint(i.second);
        outPipe := core.AllocChannel(dataItf.outEp.address);
        inPipe := core.AllocChannel(dataItf.inEp.address);
        core.OpenChannel(outPipe, address, speed, BULK, dataItf.outEp.size);
        core.OpenChannel(inPipe, address, speed, BULK, dataItf.inEp.size);
      }
    }

    /** USBH_CDC_InterfaceDeInit */
    method ClassDeInit()
      requires Valid()
      modifies this, core.channel
      ensures Valid() && View() == H.ClassDeInit(old(View()))
    {
      if outPipe != 0 {
        core.FreeChannel(outPipe);
        outPipe := 0;
      }
      if inPipe != 0 {
        core.FreeChannel(inPipe);
        inPipe := 0;
      }
    }

    /** The HOST_DEV_ATTACHED state of USBH_Process */
    method Attach(i: Input)
      requires Valid() && H.Inv(View()) && gState.HOST_DEV_ATTACHED?
      modifies this, core.channel, core.hc
      ensures Valid() && View() == H.Attach(old(View()), i)
    {
      hide Alloc, AllocResult, Open;
      AttachInv(View(), i);
      speed := i.speed;
      var hcOut := core.AllocChannel(0);
      var hcIn := core.AllocChannel(0x80);
      control := control.(hcOut := hcOut, hcIn := hcIn);
      gState := HOST_ENUMERATION;
      core.OpenChannel(control.hcIn, address, speed, CTRL, control.ep0size);
      core.OpenChannel(control.hcOut, address, speed, CTRL, control.ep0size);
    }

    /** USBH_Process: in any sequence of calls the invariant is kept, and so
        HOST_ERROR_STATE is never entered. */
    method Process(i: Input)
      requires Valid() && (gState.HOST_ERROR_STATE? || H.Inv(View()))
      modifies this, core.channel, core.hc
      ensures Valid() && View() == H.Process(old(View()), i)
      ensures old(H.Inv(View())) ==> H.Inv(View())
    {
      assert H.Inv(View()) ==> !gState.HOST_ERROR_STATE?;
      hide H.Inv, H.HandleEnum, H.Attach, H.ClassInit, H.ClassDeInit, H.DeInit, HandleControl, FreeAll;
      if !gState.HOST_ERROR_STATE? {
        ProcessInv(View(), i);
      }
      if (!i.connected || !i.enabled) && gState != HOST_IDLE {
        gState := HOST_DEV_DISCONNECTED;
      }
      match gState {
        case HOST_IDLE =>
          if i.connected {
            gState := HOST_WAIT_PRT_ENABLED;
          }
        case HOST_WAIT_PRT_ENABLED => gState := HOST_DEV_ATTACHED;
        case HOST_DEV_ATTACHED => Attach(i);
        case HOST_ENUMERATION =>
          var status := HandleEnum(i);
          if status == USBH_OK {
            gState := HOST_USR_INPUT;
          }
        case HOST_USR_INPUT =>
          ClassInit(i);
          gState := HOST_CLASS_REQUEST;
        case HOST_CLASS_REQUEST => gState := HOST_CLASS;
        case HOST_CLASS =>
        case HOST_CTRL_XFER =>
          if Sends(control.state) {
            HandleControlSend(i.poll);
          } else {
            HandleControlWait(i.poll);
          }
        case HOST_ERROR_STATE =>
          DeInit();
          ClassDeInit();
        case HOST_DEV_DISCONNECTED =>
          DeInitLeavesIdle(View());
          DeInit();
          ClassDeInit();
          core.DeAllocateAllChannels();
          gState := HOST_IDLE;
      }
    }
  }
}
