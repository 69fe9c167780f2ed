/**
  The CDC data pipes: a transmit machine that cuts a message into packets and a
  receive machine that waits for one non-empty packet, each polled by the main
  loop.
*/
module Cdc {
  import opened Division
  import opened Options
  import opened Channel
  import opened UsbStatus
  import opened Words

  datatype DataState =
    CDC_IDLE | CDC_SEND_DATA | CDC_SEND_DATA_WAIT | CDC_RECEIVE_DATA | CDC_RECEIVE_DATA_WAIT

  datatype ClassState =
    | CDC_IDLE_STATE | CDC_SET_LINE_CODING_STATE | CDC_GET_LAST_LINE_CODING_STATE
    | CDC_TRANSFER_DATA | CDC_ERROR_STATE

  /** The transmit side: what is left of the message, packet in flight included. */
  datatype Tx = Tx(state: DataState, data: seq<byte>)

  datatype TxResult = TxResult(tx: Tx, submit: Option<seq<byte>>, callback: bool)

  /** The next packet, and what remains after it. */
  function Chunk(data: seq<byte>, epSize: nat): seq<byte> {
    if |data| > epSize then data[..epSize] else data
  }

  function Rest(data: seq<byte>, epSize: nat): seq<byte> {
    if |data| > epSize then data[epSize..] else []
  }

  /** CDC_ProcessTransmission */
  function TxPoll(tx: Tx, epSize: nat, urb: UrbState): TxResult {
    match tx.state
    case CDC_SEND_DATA =>
      TxResult(tx.(state := CDC_SEND_DATA_WAIT), Some(Chunk(tx.data, epSize)), false)
    case CDC_SEND_DATA_WAIT =>
      if urb == URB_DONE then
        var rest := Rest(tx.data, epSize);
        if rest != [] then TxResult(Tx(CDC_SEND_DATA, rest), None, false)
        else TxResult(Tx(CDC_IDLE, []), None, true)
      else if urb == URB_NOTREADY then TxResult(tx.(state := CDC_SEND_DATA), None, false)
      else TxResult(tx, None, false)
    case _ => TxResult(tx, None, false)
  }

  datatype RxResult = RxResult(state: DataState, submit: bool, callback: bool)

  /** CDC_ProcessReception; `count` is the number of bytes received. */
  function RxPoll(state: DataState, urb: UrbState, count: nat): RxResult {
    match state
    case CDC_RECEIVE_DATA => RxResult(CDC_RECEIVE_DATA_WAIT, true, false)
    case CDC_RECEIVE_DATA_WAIT =>
      if urb == URB_DONE then
        if count == 0 then RxResult(CDC_RECEIVE_DATA, false, false) else RxResult(CDC_IDLE, false, true)
      else RxResult(state, false, false)
    case _ => RxResult(state, false, false)
  }

  /** Packets the core sends for one submission (USB_OTG_HC_StartXfer). */
  function NumPackets(len: nat, maxPacket: nat): nat
    requires 0 < maxPacket
  {
    if len > 0 then
      var n := (len + maxPacket - 1) / maxPacket;
      if n > 256 then 256 else n
    else 1
  }

  lemma OnePacketIff(len: nat, maxPacket: nat)
    requires 0 < maxPacket
    ensures NumPackets(len, maxPacket) == 1 <==> len <= maxPacket
  {
    var x: nat := len + maxPacket - 1;
    if len > maxPacket {
      DivAtLeast(x, maxPacket, 2);
    } else if len > 0 {
      DivUnique(x, maxPacket, 1, len - 1);
    }
  }

  /** The packets hold what there is, the last one some of it; but there are never more than
      256. */
  lemma PacketsCover(len: nat, maxPacket: nat)
    requires 0 < maxPacket
    ensures var n := NumPackets(len, maxPacket);
            && 1 <= n <= 256
            && (len <= 256 * maxPacket ==> len <= n * maxPacket && (len > 0 ==> (n - 1) * maxPacket < len))
            && (len > 256 * maxPacket ==> n == 256)
  {
    if len > 0 {
      var x: nat := len + maxPacket - 1;
      var q, r := x / maxPacket, x % maxPacket;
      assert x == q * maxPacket + r;
      CoverOf(len, maxPacket, q, r);
    }
  }

  lemma CoverOf(len: nat, m: nat, q: nat, r: nat)
    requires 0 < len && 0 < m && r < m && len + m - 1 == q * m + r
    ensures 1 <= q && (q - 1) * m < len <= q * m
    ensures q <= 256 <==> len <= 256 * m
  {
    if q <= 256 {
      MulMono(q, 256, m);
    } else {
      MulMono(256, q - 1, m);
    }
  }

  /** The handle as the program updates it. */
  class CdcHandle {
    var state: ClassState
    var pTxData: seq<byte>        // from the transmit pointer on
    var txDataLength: nat
    var dataTxState: DataState
    var dataRxState: DataState
    var rxDataLength: nat
    const outEpSize: nat

    ghost predicate Valid()
      reads this
    {
      txDataLength <= |pTxData|
    }

    ghost function TxView(): Tx
      reads this
      requires Valid()
    {
      Tx(dataTxState, pTxData[..txDataLength])
    }

    /** Whether the class takes data requests at all. */
    predicate Ready()
      reads this
    {
      state == CDC_IDLE_STATE || state == CDC_TRANSFER_DATA
    }

    /** USBH_CDC_Transmit */
    method Transmit(buffer: seq<byte>, length: nat) returns (status: Status)
      requires Valid() && length <= |buffer|
      modifies this`state, this`pTxData, this`txDataLength, this`dataTxState
      ensures Valid() && status == if old(Ready()) then USBH_OK else USBH_BUSY
      ensures if old(Ready()) then state == CDC_TRANSFER_DATA && TxView() == Tx(CDC_SEND_DATA, buffer[..length])
              else state == old(state) && TxView() == old(TxView())
    {
      status := USBH_BUSY;
      if state == CDC_IDLE_STATE || state == CDC_TRANSFER_DATA {
        pTxData := buffer;
        txDataLength := length;
        state := CDC_TRANSFER_DATA;
        dataTxState := CDC_SEND_DATA;
        status := USBH_OK;
      }
    }

    /** USBH_CDC_Receive */
    method Receive(length: nat) returns (status: Status)
      modifies this`state, this`rxDataLength, this`dataRxState
      ensures status == if old(Ready()) then USBH_OK else USBH_BUSY
      ensures if old(Ready())
              then state == CDC_TRANSFER_DATA && dataRxState == CDC_RECEIVE_DATA && rxDataLength == length
              else state == old(state) && dataRxState == old(dataRxState) && rxDataLength == old(rxDataLength)
    {
      status := USBH_BUSY;
      if state == CDC_IDLE_STATE || state == CDC_TRANSFER_DATA {
        rxDataLength := length;
        state := CDC_TRANSFER_DATA;
        dataRxState := CDC_RECEIVE_DATA;
        status := USBH_OK;
      }
    }

    /** The handle after a system reset. */
    method Clear()
      modifies this`state, this`pTxData, this`txDataLength, this`dataTxState, this`dataRxState
      ensures Valid() && state == CDC_IDLE_STATE && TxView() == Tx(CDC_IDLE, []) && dataRxState == CDC_IDLE
    {
      state := CDC_IDLE_STATE;
      pTxData, txDataLength, dataTxState, dataRxState := [], 0, CDC_IDLE, CDC_IDLE;
    }

    method ProcessTransmission(urb: UrbState) returns (submit: Option<seq<byte>>, callback: bool)
      requires Valid()
      modifies this`pTxData, this`txDataLength, this`dataTxState
      ensures Valid()
      ensures TxPoll(old(TxView()), outEpSize, urb) == TxResult(TxView(), submit, callback)
    {
      submit, callback := None, false;
      match dataTxState {
        case CDC_SEND_DATA =>
          if txDataLength > outEpSize {
            submit := Some(pTxData[..outEpSize]);
          } else {
            submit := Some(pTxData[..txDataLength]);
          }
          assert pTxData[..txDataLength][..if txDataLength > outEpSize then outEpSize else txDataLength]
              == pTxData[..if txDataLength > outEpSize then outEpSize else txDataLength];
          dataTxState := CDC_SEND_DATA_WAIT;
        case CDC_SEND_DATA_WAIT =>
          if urb == URB_DONE {
            if txDataLength > outEpSize {
              assert pTxData[outEpSize..][..txDataLength - outEpSize] == pTxData[..txDataLength][outEpSize..];
              txDataLength := txDataLength - outEpSize;
              pTxData := pTxData[outEpSize..];
            } else {
              txDataLength := 0;
            }
            if txDataLength > 0 {
              dataTxState := CDC_SEND_DATA;
            } else {
              dataTxState := CDC_IDLE;
              callback := true;
            }
          } else if urb == URB_NOTREADY {
            dataTxState := CDC_SEND_DATA;
          }
        case _ =>
      }
    }

    method ProcessReception(urb: UrbState, count: nat) returns (submit: bool, callback: bool)
      modifies this`dataRxState
      ensures RxPoll(old(dataRxState), urb, count) == RxResult(dataRxState, submit, callback)
    {
      submit, callback := false, false;
      match dataRxState {
        case CDC_RECEIVE_DATA =>
          submit := true;
          dataRxState := CDC_RECEIVE_DATA_WAIT;
        case CDC_RECEIVE_DATA_WAIT =>
          if urb == URB_DONE {
            if count == 0 {
              dataRxState := CDC_RECEIVE_DATA;
            } else {
              dataRxState := CDC_IDLE;
              callback := true;
            }
          }
        case _ =>
      }
    }
  }
}
