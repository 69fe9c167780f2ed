/**
  The main loop as the program runs it: its static variables, the CDC handle it
  shares with the host stack, and the port of the test board. Each method is the
  corresponding function of Sequencer.
*/
module MainLoop {
  import opened Options
  import opened Cdc
  import opened Commands
  import opened Pins
  import opened Sequencer
  import opened Words

  class TestLoop {
    var state: nat
    var cmdState: ResponseState
    var command: Option<Command>
    var pinIter: nat
    var outerIter: nat
    var rspbuf: Mask
    var failed: Option<Failure>
    var rspLen: nat
    const cdc: CdcHandle
    const port: Port

    ghost var device: Mask
    ghost var received: nat
    ghost var issued: nat
    ghost var answered: nat
    ghost var turns: nat
    ghost var taken: seq<byte>

    ghost predicate Valid()
      reads this, cdc, port
    {
      cdc.Valid() && cdc.Ready() && port.Valid()
    }

    ghost function View(): World
      reads this, cdc, port
      requires Valid()
    {
      World(state, cmdState, command, rspLen, pinIter, outerIter, rspbuf,
            cdc.state == CDC_TRANSFER_DATA, cdc.TxView(), cdc.dataRxState, port.driven, device,
            failed, received, issued, answered, turns, taken)
    }

    constructor (handle: CdcHandle, pins: Port)
      requires pins.Valid() && pins.driven == Outputs(ALL_HIGH)
      requires handle.Valid() && handle.state == CDC_IDLE_STATE
      requires handle.TxView() == Tx(CDC_IDLE, []) && handle.dataRxState == CDC_IDLE
      ensures Valid() && cdc == handle && port == pins && View() == INITIAL
    {
      state, cmdState, command, pinIter, outerIter := 0, CMD_IDLE, None, 0, 0;
      rspbuf, rspLen, failed := {}, 0, None;
      cdc, port := handle, pins;
      device, received, issued, answered, turns, taken := ALL_HIGH, 0, 0, 0, 0, [];
    }

    /** error, pin_error and _error, which never return */
    method Stop(f: Failure)
      requires Valid()
      modifies this`failed
      ensures Valid() && View() == Fail(old(View()), f)
    {
      failed := Some(f);
    }

    /** command_response */
    method CommandResponse(c: Command, message: seq<byte>, length: nat)
      requires Valid() && message == Encoded(c) && length == Expected(c)
      modifies this, cdc
      ensures Valid() && View() == Send(old(View()), c)
    {
      hide Encoded, Expected, OUTP;
      var _ := cdc.Transmit(message, |message|);
      assert message[..|message|] == message;
      cmdState := TX_BUSY;
      command := Some(c);
      rspLen := length;
      issued, taken := issued + 1, [];
    }

    /** cmd_set_pin */
    method CmdSetPin(pin: int)
      requires Valid() && -1 <= pin < 64
      modifies this, cdc
      ensures Valid() && View() == Send(old(View()), SetPins(if pin >= 0 then OneLow(pin) else ALL_HIGH))
    {
      hide Encoded, OneLow, ALL_HIGH;
      var message := PinMessage(pin);
      CommandResponse(SetPins(if pin >= 0 then OneLow(pin) else ALL_HIGH), message, 32);
    }

    method TransmitCallback()
      requires Valid()
      modifies this
      ensures Valid() && View() == Transmitted(old(View()))
    {
      if cmdState != TX_BUSY {
        Stop(Error(11));
        return;
      }
      cmdState := TX_DONE;
      match Decode(taken) {
        case Some(SetPins(m)) => device := m;
        case _ =>
      }
    }

    /** The packet that has come in is in the response buffer. */
    method ReceiveCallback(report: Mask, count: nat)
      requires Valid()
      modifies this
      ensures Valid() && View() == Received(old(View()), report, count)
    {
      if cmdState != RX_BUSY {
        Stop(Error(21));
        return;
      }
      cmdState := RX_DONE;
      rspbuf := Landed(rspbuf, report, count);
      received := count;
      answered := answered + 1;
    }

    /** What usbh_cdc_process does with the data pipes. */
    method ProcessData(t: Turn)
      requires Valid()
      modifies this, cdc
      ensures Valid() && View() == ProcessCdc(old(View()), t, cdc.outEpSize)
    {
      hide Chunk, Rest;
      if t.handled && cdc.state == CDC_TRANSFER_DATA {
        taken := Taken(View(), t, cdc.outEpSize);
        var _, sent := cdc.ProcessTransmission(t.txUrb);
        if sent {
          TransmitCallback();
        }
        if failed.Some? {
          return;
        }
        var _, received := cdc.ProcessReception(t.rxUrb, t.count);
        if received {
          ReceiveCallback(t.report, t.count);
        }
      }
    }

    /** command_response_handle */
    method CommandResponseHandle(t: Turn)
      requires Valid()
      modifies this, cdc
      ensures Valid() && View() == HandleResponse(old(View()), t)
    {
      match cmdState {
        case TX_BUSY =>
          if t.late {
            Stop(Error(10));
          }
        case TX_DONE =>
          var _ := cdc.Receive(rspLen);
          cmdState := RX_BUSY;
        case RX_BUSY =>
          if t.late {
            Stop(Error(20));
          }
        case RX_DONE =>
          if command == Some(TestMode) && !t.good {
            Stop(Error(30));
            return;
          }
          cmdState := CMD_IDLE;
        case CMD_IDLE =>
      }
    }

    /** Start of a walk's next pin; `more` is false at the end of the last pass. */
    method NextPin(pins: nat, next: nat) returns (more: bool)
      requires Valid()
      modifies this`state, this`pinIter, this`outerIter
      ensures Valid() && Walk(old(View()), pins, next) == (View(), more)
    {
      if pinIter >= pins {
        pinIter := 0;
        var passes := outerIter;
        outerIter := outerIter + 1;
        if passes > 10 {
          outerIter := 0;
          state := next;
          return false;
        }
      }
      return true;
    }

    /** check_pins */
    method CheckAllPins(asserted: Option<Pin>)
      requires Valid()
      modifies this`failed
      ensures Valid() && View() == Checked(old(View()), Check(rspbuf, port.sensed, asserted))
    {
      hide FirstWrong;
      var mask := port.ReadPinmask();
      InputsDecide(INP, mask, port.sensed, asserted);
      var wrong := CheckPins(rspbuf, mask, asserted);
      match wrong {
        case Some(p) => Stop(PinError(p));
        case None =>
      }
    }

    /** The switch on the state. */
    method Switch(t: Turn)
      requires Valid() && port.sensed == t.sensed
      modifies this, cdc, port`driven
      ensures Valid() && View() == Dispatch(old(View()), t)
    {
      hide Check, CheckLow, FirstHigh, Encoded, Decode, OneLow, Outputs;
      match state {
        case 1 => CommandResponse(GetInfo, Encoded(GetInfo), 34);
        case 2 =>
          if !t.good {
            Stop(Error(30));
          }
        case 3 => CommandResponse(TestMode, Encoded(TestMode), 2);
        case 4 =>
          var more := NextPin(|INP|, 5);
          if more {
            CmdSetPin(At(INP, pinIter));
          }
        case 5 =>
          CheckAllPins(Some(At(INP, pinIter)));
          if failed.None? {
            pinIter := pinIter + 1;
            state := 3;
          }
        case 6 => CmdSetPin(-1);
        case 7 => CheckAllPins(None);
        case 8 =>
          var more := NextPin(|OUTP|, 10);
          if more {
            port.SetPinmask(OneLow(At(OUTP, pinIter)));
          }
        case 9 => CmdSetPin(-1);
        case 10 =>
          CheckAllPins(Some(At(OUTP, pinIter)));
          if failed.None? {
            pinIter := pinIter + 1;
            state := 7;
          }
        case _ => SwitchRest(t);
      }
    }

    method SwitchRest(t: Turn)
      requires Valid() && port.sensed == t.sensed && (state < 1 || state > 10)
      modifies this, cdc, port`driven
      ensures Valid() && View() == Dispatch(old(View()), t)
    {
      hide Check, FirstHigh, FirstWrong, Encoded, Decode, OneLow, Outputs;
      match state {
        case 11 =>
          port.SetPinmask(ALL_LOW);
          CommandResponse(SetPins(ALL_LOW), Encoded(SetPins(ALL_LOW)), 32);
        case 12 =>
          var mask := port.ReadPinmask();
          InputsDecide(INP, mask, t.sensed, None);
          var wrong := CheckLowPins(rspbuf, mask);
          if wrong.Some? {
            Stop(PinError(wrong.value));
          }
        case 13 => CommandResponse(OptionBytes, Encoded(OptionBytes), 32);
        case 14 =>
          if !t.good {
            Stop(Message("OPT"));
          }
        case 15 => CommandResponse(TestHeaders, Encoded(TestHeaders), 32);
        case 16 =>
          if !t.good {
            Stop(Message("HDR"));
          }
        case 17 => CommandResponse(OscOn, Encoded(OscOn), 32);
        case 18 =>
          if !t.good {
            Stop(Message("OSC"));
            return;
          }
          CommandResponse(OscOff, Encoded(OscOff), 32);
        case 19 =>
          if !t.good {
            Stop(Message("CCN"));
          }
        case 20 =>
          port.SetPinmask(ALL_HIGH);
          CmdSetPin(-1);
        case 21 => CommandResponse(Led(true), Encoded(Led(true)), 32);
        case 22 =>
          CommandResponse(Led(false), Encoded(Led(false)), 32);
          state := 20;
        case _ =>
      }
    }

    /** system_reset: every variable starts again. */
    method Reset()
      requires port.Valid()
      modifies this, cdc, port`driven
      ensures Valid() && View() == INITIAL
    {
      hide Outputs, ALL_HIGH, OUTP;
      cdc.Clear();
      port.SetPinmask(ALL_HIGH);
      ghost var tx := cdc.TxView();
      state, cmdState, command, pinIter, outerIter := 0, CMD_IDLE, None, 0, 0;
      rspbuf, rspLen, failed := {}, 0, None;
      device, received, issued, answered, turns, taken := ALL_HIGH, 0, 0, 0, 0, [];
      assert cdc.TxView() == tx;
    }

    /** One turn of the loop; a stopped program only watches for the device to go. */
    method Iterate(t: Turn)
      requires Valid() && port.sensed == t.sensed
      modifies this, cdc, port`driven
      ensures Valid() && View() == Sequencer.Step(old(View()), t, cdc.outEpSize)
    {
      hide Dispatch, ProcessCdc, HandleResponse;
      if failed.Some? {
        if !t.connected {
          Reset();
        }
        return;
      }
      ProcessData(t);
      if failed.Some? {
        return;
      }
      if !t.connected {
        if state != 0 || cmdState != CMD_IDLE {
          Reset();
        }
        return;
      }
      if cmdState != CMD_IDLE {
        CommandResponseHandle(t);
        return;
      }
      state := state + 1;
      turns := turns + 1;
      Switch(t);
    }
  }
}
