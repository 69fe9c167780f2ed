/**
  What enumeration asks of a device, request by request, against the replies of the same
  run: the standard requests of section 9.4 of USB 2.0, in their order, and the pipes that
  are opened in the end.
*/
module Enumeration {
  import opened Channel
  import opened Control
  import opened Hcs
  import opened HostCore
  import opened Words

  /** What a run has brought: the last full device descriptor and the last configuration
      descriptor, the packet size that its first eight bytes gave, the states of enumeration
      whose request has completed since the device was attached, its speed, and the call that
      opened the class. */
  datatype History = History(
    device: Desc, config: Desc, ep0: u8, log: seq<EnumState>, speed: u8, start: Input)

  function Record(h: Host, f: Host, i: Input, y: History): History {
    if h.gState.HOST_DEV_ATTACHED? && f.gState.HOST_ENUMERATION? then y.(log := [], speed := i.speed)
    else if h.gState.HOST_USR_INPUT? then y.(start := i)
    else if f.completed == h.completed then y
    else
      var z := y.(log := y.log + [h.enumState]);
      match h.enumState
      case ENUM_IDLE => z.(ep0 := i.reply.maxPacket)
      case ENUM_GET_FULL_DEV_DESC => z.(device := i.reply)
      case ENUM_GET_CFG_DESC => z.(config := i.reply)
      case ENUM_GET_FULL_CFG_DESC => z.(config := i.reply)
      case _ => z
  }

  ghost function Told(h: Host, y: History, inputs: seq<Input>): History
    requires HostCore.Run(h, inputs)
    decreases |inputs|
  {
    if inputs == [] then y
    else
      var f := Process(h, inputs[0]);
      Told(f, Record(h, f, inputs[0], y), inputs[1..])
  }

  // -- The requests -------------------------------------------------------------------------

  /** What is sent in each state of enumeration. */
  predicate Standard(e: EnumState, x: Setup, y: History) {
    match e
    case ENUM_IDLE => x == Setup(true, 6, 0x0100, 0, 8)                // GET_DESCRIPTOR, device
    case ENUM_GET_FULL_DEV_DESC => x == Setup(true, 6, 0x0100, 0, 18)
    case ENUM_SET_ADDR => x == Setup(false, 5, 1, 0, 0)                // SET_ADDRESS
    case ENUM_GET_CFG_DESC => x == Setup(true, 6, 0x0200, 0, 9)        // configuration
    case ENUM_GET_FULL_CFG_DESC => x == Setup(true, 6, 0x0200, 0, y.config.totalLength)
    case ENUM_GET_MFC_STRING_DESC =>                                   // string, US English
      y.device.iManufacturer != 0 && x == Setup(true, 6, 0x0300 + y.device.iManufacturer, 0x0409, 512)
    case ENUM_GET_PRODUCT_STRING_DESC =>
      y.device.iProduct != 0 && x == Setup(true, 6, 0x0300 + y.device.iProduct, 0x0409, 512)
    case ENUM_GET_SERIALNUM_STRING_DESC =>
      y.device.iSerial != 0 && x == Setup(true, 6, 0x0300 + y.device.iSerial, 0x0409, 512)
    case ENUM_SET_CONFIGURATION => x == Setup(false, 9, y.config.cfgValue, 0, 0)   // SET_CONFIGURATION
    case ENUM_DEV_CONFIGURED => false
  }

  // -- Their order --------------------------------------------------------------------------

  /** Without immediate repeats. */
  function Squeezed(log: seq<EnumState>): (r: seq<EnumState>)
    ensures log != [] ==> r != [] && r[|r| - 1] == log[|log| - 1]
    ensures log == [] ==> r == []
  {
    if log == [] then []
    else
      var r := Squeezed(log[..|log| - 1]);
      var last := log[|log| - 1];
      if r != [] && r[|r| - 1] == last then r else r + [last]
  }

  function If(on: bool, e: EnumState): seq<EnumState> { if on then [e] else [] }

  function Strings(d: Desc): seq<EnumState> {
    If(d.iManufacturer != 0, ENUM_GET_MFC_STRING_DESC) + If(d.iProduct != 0, ENUM_GET_PRODUCT_STRING_DESC)
    + If(d.iSerial != 0, ENUM_GET_SERIALNUM_STRING_DESC)
  }

  const FIXED := [ENUM_IDLE, ENUM_GET_FULL_DEV_DESC, ENUM_SET_ADDR, ENUM_GET_CFG_DESC, ENUM_GET_FULL_CFG_DESC]

  /** Everything that has to be asked. */
  function Whole(d: Desc): seq<EnumState> { FIXED + Strings(d) + [ENUM_SET_CONFIGURATION] }

  /** What has been asked before each state. */
  function Before(e: EnumState, d: Desc): seq<EnumState> {
    match e
    case ENUM_IDLE => []
    case ENUM_GET_FULL_DEV_DESC => FIXED[..1]
    case ENUM_SET_ADDR => FIXED[..2]
    case ENUM_GET_CFG_DESC => FIXED[..3]
    case ENUM_GET_FULL_CFG_DESC => FIXED[..4]
    case ENUM_GET_MFC_STRING_DESC => FIXED
    case ENUM_GET_PRODUCT_STRING_DESC => FIXED + If(d.iManufacturer != 0, ENUM_GET_MFC_STRING_DESC)
    case ENUM_GET_SERIALNUM_STRING_DESC =>
      FIXED + (If(d.iManufacturer != 0, ENUM_GET_MFC_STRING_DESC) + If(d.iProduct != 0, ENUM_GET_PRODUCT_STRING_DESC))
    case ENUM_SET_CONFIGURATION => FIXED + Strings(d)
    case ENUM_DEV_CONFIGURED => Whole(d)
  }

  // -- The invariant ------------------------------------------------------------------------

  ghost predicate DescInv(h: Host, y: History) {
    && (h.enumState !in {ENUM_IDLE, ENUM_GET_FULL_DEV_DESC} ==>
          && h.desc.iManufacturer == y.device.iManufacturer && h.desc.iProduct == y.device.iProduct
          && h.desc.iSerial == y.device.iSerial)
    && (h.enumState !in {ENUM_IDLE, ENUM_GET_FULL_DEV_DESC, ENUM_SET_ADDR, ENUM_GET_CFG_DESC} ==>
          h.desc.totalLength == y.config.totalLength && h.desc.cfgValue == y.config.cfgValue)
  }

  /** Everything before a state has been asked, and perhaps that state's own question. */
  predicate LogAt(e: EnumState, d: Desc, log: seq<EnumState>) {
    || Squeezed(log) == Before(e, d)
    || (e in {ENUM_GET_CFG_DESC, ENUM_GET_FULL_CFG_DESC} && Squeezed(log) == Before(e, d) + [e])
  }

  predicate LogInv(h: Host, y: History) { !Detached(h.gState) ==> LogAt(h.enumState, y.device, y.log) }

  /** One pipe of the class. */
  predicate PipeIs(c: Hc, address: u8, size: u16, speed: u8) {
    && c.epNum == address % 0x80 && c.epIsIn == c.regIsIn == (address >= 0x80) && c.epType == BULK
    && c.maxPacket == size && c.speed == speed && (speed == 0 ==> c.doPing) && c.devAddr == c.regAddr == 1
    && !c.toggleIn && !c.toggleOut
  }

  ghost predicate PipesInv(h: Host, y: History)
    requires Sized(h.s)
  {
    && (!Detached(h.gState) ==> h.speed == y.speed)
    && (h.gState.HOST_CLASS_REQUEST? || h.gState.HOST_CLASS? ==>
          if y.start.isCdc then
            && h.outPipe == 2 && h.inPipe == 3
            && PipeIs(h.s.hc[2], h.data.outEp.address, h.data.outEp.size, y.speed)
            && PipeIs(h.s.hc[3], h.data.inEp.address, h.data.inEp.size, y.speed)
            && Chosen(h.data, y.start.first, y.start.second)
          else h.outPipe == h.inPipe == 0)
  }

  /** Of two endpoints, one each way, the one goes to the OUT pipe and the other to the IN
      pipe; two of one way leave the last of them there. */
  predicate Chosen(d: DataItf, a: Ep, b: Ep) {
    && (a.address < 0x80 <= b.address ==> d == DataItf(a, b))
    && (b.address < 0x80 <= a.address ==> d == DataItf(b, a))
    && (a.address < 0x80 && b.address < 0x80 ==> d.outEp == b)
    && (a.address >= 0x80 && b.address >= 0x80 ==> d.inEp == b)
  }

  /** One of the two channels of the control pipe; at high speed it pings. */
  predicate ControlPipeIs(c: Hc, isIn: bool, size: u16, speed: u8) {
    && c.epNum == 0 && c.epIsIn == c.regIsIn == isIn && c.epType == CTRL
    && c.maxPacket == size && c.speed == speed && (speed == 0 ==> c.doPing)
  }

  /** The packet size of the control pipe: 64 until the device has said its own. */
  function ControlSize(e: EnumState, ep0: u8): u8 { if e.ENUM_IDLE? || ep0 == 0 then 64 else ep0 }

  ghost predicate ControlInv(h: Host, y: History)
    requires Sized(h.s)
  {
    if Detached(h.gState) then h.ctrl.ep0size == 64
    else
      && h.speed == y.speed && h.ctrl.ep0size == (if h.enumState.ENUM_IDLE? then 64 else y.ep0)
      && ControlPipeIs(h.s.hc[0], false, ControlSize(h.enumState, y.ep0), y.speed)
      && ControlPipeIs(h.s.hc[1], true, ControlSize(h.enumState, y.ep0), y.speed)
  }

  ghost predicate AllInv(h: Host, y: History) {
    HostCore.Inv(h) && DescInv(h, y) && LogInv(h, y) && PipesInv(h, y) && ControlInv(h, y)
  }

  lemma ProcessDesc(h: Host, i: Input, y: History)
    requires HostCore.Inv(h) && DescInv(h, y)
    ensures var f := Process(h, i); DescInv(f, Record(h, f, i, y))
  {
    hide HandleControl;
  }

  lemma SqueezedMore(log: seq<EnumState>, e: EnumState)
    ensures Squeezed(log + [e]) ==
              if Squeezed(log) != [] && Squeezed(log)[|Squeezed(log)| - 1] == e then Squeezed(log)
              else Squeezed(log) + [e]
  {
    assert (log + [e])[..|log|] == log;
  }

  /** What has been asked before a state does not end with that state, and with it makes what
      has been asked before the next. */
  lemma BeforeNext(e: EnumState, d: Desc, f: EnumState)
    requires !e.ENUM_DEV_CONFIGURED? && f == Next(e)
    ensures var b := Before(e, d);
            && (b != [] ==> b[|b| - 1] != e)
            && (b + [e])[|b + [e]| - 1] == e
    ensures e !in {ENUM_GET_MFC_STRING_DESC, ENUM_GET_PRODUCT_STRING_DESC, ENUM_GET_SERIALNUM_STRING_DESC} ==>
              Before(e, d) + [e] == Before(f, d)
    ensures (e.ENUM_GET_MFC_STRING_DESC? ==>
               Before(f, d) == Before(e, d) + If(d.iManufacturer != 0, e))
    ensures (e.ENUM_GET_PRODUCT_STRING_DESC? ==> Before(f, d) == Before(e, d) + If(d.iProduct != 0, e))
    ensures (e.ENUM_GET_SERIALNUM_STRING_DESC? ==> Before(f, d) == Before(e, d) + If(d.iSerial != 0, e))
  {
    var m, p := If(d.iManufacturer != 0, ENUM_GET_MFC_STRING_DESC), If(d.iProduct != 0, ENUM_GET_PRODUCT_STRING_DESC);
    var s := If(d.iSerial != 0, ENUM_GET_SERIALNUM_STRING_DESC);
    assert FIXED + m + p == FIXED + (m + p) && FIXED + (m + p) + s == FIXED + (m + p + s);
  }

  /** What one call does to the place in enumeration. */
  lemma Moves(h: Host, i: Input)
    requires HostCore.Inv(h)
    ensures var f := Process(h, i);
            || Detached(f.gState)
            || (h.gState.HOST_DEV_ATTACHED? && f.gState.HOST_ENUMERATION? && f.enumState.ENUM_IDLE?)
            || (!Detached(h.gState) && f.completed == h.completed
                && (f.enumState == h.enumState || (Skips(h.enumState, h.desc) && f.enumState == Next(h.enumState))))
            || (!Detached(h.gState) && f.completed == h.completed + 1 && h.gState.HOST_ENUMERATION?
                && !Skips(h.enumState, h.desc) && !h.enumState.ENUM_DEV_CONFIGURED?
                && (f.enumState == Next(h.enumState)
                    || (f.enumState == h.enumState && h.enumState in {ENUM_GET_CFG_DESC, ENUM_GET_FULL_CFG_DESC})))
  {
    hide HandleControl;
  }

  /** The string of a state is there. */
  predicate Present(e: EnumState, d: Desc) {
    && (e.ENUM_GET_MFC_STRING_DESC? ==> d.iManufacturer != 0)
    && (e.ENUM_GET_PRODUCT_STRING_DESC? ==> d.iProduct != 0)
    && (e.ENUM_GET_SERIALNUM_STRING_DESC? ==> d.iSerial != 0)
  }

  lemma LogCompletes(e: EnumState, d: Desc, log: seq<EnumState>, f: EnumState)
    requires !e.ENUM_DEV_CONFIGURED? && LogAt(e, d, log) && Present(e, d)
    requires f == Next(e) || (f == e && e in {ENUM_GET_CFG_DESC, ENUM_GET_FULL_CFG_DESC})
    ensures LogAt(f, d, log + [e])
  {
    BeforeNext(e, d, Next(e));
    SqueezedMore(log, e);
    hide Squeezed, Before;
  }

  lemma LogSkips(e: EnumState, d: Desc, log: seq<EnumState>)
    requires LogAt(e, d, log) && !Present(e, d)
    ensures LogAt(Next(e), d, log)
  {
    BeforeNext(e, d, Next(e));
    assert forall b: seq<EnumState> :: b + [] == b;
    hide Squeezed, Before;
  }

  lemma EarlyLog(e: EnumState, d: Desc, d2: Desc)
    requires e in {ENUM_GET_FULL_DEV_DESC, ENUM_SET_ADDR}
    ensures Before(e, d) == Before(e, d2)
  {
  }

  lemma ProcessLog(h: Host, i: Input, y: History)
    requires HostCore.Inv(h) && DescInv(h, y) && LogInv(h, y)
    ensures var f := Process(h, i); LogInv(f, Record(h, f, i, y))
  {
    Moves(h, i);
    EmptyLog();
    EarlyLog(ENUM_SET_ADDR, y.device, i.reply);
    var f := Process(h, i);
    SkipsAbsent(h, y);
    hide HostCore.Inv, DescInv, Skips, Process, HandleControl, Squeezed, Before, Present;
    if Detached(f.gState) || h.gState.HOST_DEV_ATTACHED? {
    } else if f.completed != h.completed {
      LogCompletes(h.enumState, y.device, y.log, f.enumState);
    } else if f.enumState != h.enumState {
      LogSkips(h.enumState, y.device, y.log);
    }
  }

  lemma SkipsAbsent(h: Host, y: History)
    requires DescInv(h, y)
    ensures Skips(h.enumState, h.desc) <==> !Present(h.enumState, y.device)
  {
  }

  lemma EmptyLog()
    ensures forall d :: LogAt(ENUM_IDLE, d, [])
  {
  }

  /** The class opens its pipes on channels 2 and 3. */
  lemma ClassOpens(h: Host, i: Input)
    requires HostCore.Inv(h) && h.gState.HOST_USR_INPUT? && i.isCdc
    ensures var f := ClassInit(h, i);
            && f.outPipe == 2 && f.inPipe == 3 && Chosen(f.data, i.first, i.second) && f.speed == h.speed
            && PipeIs(f.s.hc[2], f.data.outEp.address, f.data.outEp.size, h.speed)
            && PipeIs(f.s.hc[3], f.data.inEp.address, f.data.inEp.size, h.speed)
  {
    var d := Take(Take(h.data, i.first), i.second);
    assert 0 in UsedSet(h.s) && 1 in UsedSet(h.s) && 2 !in UsedSet(h.s) && 3 !in UsedSet(h.s);
    FirstFreeAt(h.s.channel, 2);
    FirstFreeAt(Alloc(h.s, d.outEp.address).channel, 3);
  }

  /** Nothing else touches those channels while the class is there. */
  lemma OthersKeepPipes(h: Host, i: Input)
    requires HostCore.Inv(h) && !h.gState.HOST_USR_INPUT?
    ensures var f := Process(h, i);
            && (!Detached(f.gState) && !h.gState.HOST_DEV_ATTACHED? ==> !Detached(h.gState) && f.speed == h.speed)
            && (h.gState.HOST_DEV_ATTACHED? && f.gState.HOST_ENUMERATION? ==> f.speed == i.speed)
            && (f.gState.HOST_CLASS_REQUEST? || f.gState.HOST_CLASS? ==>
                  && (h.gState.HOST_CLASS_REQUEST? || h.gState.HOST_CLASS?)
                  && f.s == h.s && f.outPipe == h.outPipe && f.inPipe == h.inPipe && f.data == h.data
                  && f.completed == h.completed)
  {
    hide HandleControl;
  }

  lemma ProcessPipes(h: Host, i: Input, y: History)
    requires HostCore.Inv(h) && PipesInv(h, y)
    ensures var f := Process(h, i); Sized(f.s) && PipesInv(f, Record(h, f, i, y))
  {
    HostCore.ProcessInv(h, i);
    if h.gState.HOST_USR_INPUT? {
      StartPipes(h, i, y);
    } else {
      OthersKeepPipes(h, i);
      hide HostCore.Inv, Process, HandleControl, PipeIs, Chosen;
    }
  }

  lemma StartPipes(h: Host, i: Input, y: History)
    requires HostCore.Inv(h) && PipesInv(h, y) && h.gState.HOST_USR_INPUT?
    ensures var f := Process(h, i); PipesInv(f, Record(h, f, i, y))
  {
    HostCore.ProcessInv(h, i);
    if i.isCdc {
      ClassOpens(h, i);
    }
    hide PipeIs, Chosen, Alloc, AllocResult, Open, Take;
  }

  lemma AttachOpens(h: Host, i: Input)
    requires HostCore.Inv(h) && h.gState.HOST_DEV_ATTACHED? && h.ctrl.ep0size == 64
    ensures var f := Attach(h, i);
            && f.speed == i.speed && f.enumState.ENUM_IDLE? && f.ctrl.ep0size == 64
            && ControlPipeIs(f.s.hc[0], false, 64, i.speed) && ControlPipeIs(f.s.hc[1], true, 64, i.speed)
  {
    assert 0 !in UsedSet(h.s) && 1 !in UsedSet(h.s);
    FirstFreeAt(h.s.channel, 0);
    FirstFreeAt(Alloc(h.s, 0).channel, 1);
  }

  lemma AdvancePipes(h: Host, i: Input, y: History, f: Host, z: History)
    requires HostCore.Inv(h) && ControlInv(h, y) && h.gState.HOST_ENUMERATION?
    requires !h.enumState.ENUM_DEV_CONFIGURED?
    requires f == Advance(h, i)
    requires z.speed == y.speed && z.ep0 == if h.enumState.ENUM_IDLE? then i.reply.maxPacket else y.ep0
    ensures ControlInv(f, z)
  {
  }

  lemma XferKeepsControl(h: Host, i: Input, y: History)
    requires HostCore.Inv(h) && ControlInv(h, y) && h.gState.HOST_CTRL_XFER?
    ensures var o := HandleControl(h.ctrl, h.s, i.poll);
            ControlInv(h.(ctrl := o.ctrl, s := o.s, gState := if o.back then h.gStateBkp else h.gState), y)
  {
    XferToggles(h.ctrl, h.s, i.poll);
    hide HandleControl, HostCore.Inv, ControlPipeIs;
    var o := HandleControl(h.ctrl, h.s, i.poll);
    assert o.s.hc[0] == h.s.hc[0].(toggleOut := o.s.hc[0].toggleOut);
    assert o.s.hc[1] == h.s.hc[1].(toggleOut := o.s.hc[1].toggleOut);
    TogglesKeep(h.s.hc[0], o.s.hc[0]);
    TogglesKeep(h.s.hc[1], o.s.hc[1]);
  }

  lemma XferToggles(c: Ctrl, s: Channels, p: Poll)
    requires Piped(c, s)
    ensures var o := HandleControl(c, s, p);
            OnlyToggles(s, o.s) && o.ctrl.ep0size == c.ep0size
  {
    hide HandleControl;
    if Sends(c.state) {
      SendToggles(c, s, p);
    } else {
      WaitFrame(c, s, p);
    }
  }

  lemma SendToggles(c: Ctrl, s: Channels, p: Poll)
    requires Piped(c, s) && Sends(c.state)
    ensures var o := HandleControl(c, s, p);
            OnlyToggles(s, o.s) && o.ctrl.ep0size == c.ep0size
  {
  }

  lemma TogglesKeep(c: Hc, d: Hc)
    requires d == c.(toggleOut := d.toggleOut)
    ensures forall isIn, size, speed :: ControlPipeIs(c, isIn, size, speed) ==> ControlPipeIs(d, isIn, size, speed)
  {
  }

  lemma ClassKeepsControl(h: Host, i: Input, y: History)
    requires HostCore.Inv(h) && ControlInv(h, y) && h.gState.HOST_USR_INPUT?
    ensures ControlInv(ClassInit(h, i).(gState := HOST_CLASS_REQUEST), y)
  {
    var d := Take(Take(h.data, i.first), i.second);
    assert 0 in UsedSet(h.s) && 1 in UsedSet(h.s) && 2 !in UsedSet(h.s) && 3 !in UsedSet(h.s);
    FirstFreeAt(h.s.channel, 2);
    FirstFreeAt(Alloc(h.s, d.outEp.address).channel, 3);
  }

  lemma RestKeepsControl(h: Host, i: Input, y: History)
    requires HostCore.Inv(h) && ControlInv(h, y) && !h.gState.HOST_ENUMERATION? && !h.gState.HOST_DEV_ATTACHED?
    ensures var f := Process(h, i);
            Sized(f.s) && f.completed == h.completed && ControlInv(f, y)
  {
    HostCore.ProcessInv(h, i);
    if h.gState.HOST_CTRL_XFER? {
      XferKeepsControl(h, i, y);
    } else if h.gState.HOST_USR_INPUT? {
      ClassKeepsControl(h, i, y);
    }
    hide HandleControl, ClassInit, ControlPipeIs, HostCore.Inv;
  }

  lemma EnumControl(h: Host, i: Input, y: History)
    requires HostCore.Inv(h) && ControlInv(h, y) && h.gState.HOST_ENUMERATION?
    ensures var f := HandleEnum(h, i).h;
            Sized(f.s) && ControlInv(f, Record(h, f, i, y))
  {
    HostCore.EnumInv(h, i);
    var f := HandleEnum(h, i).h;
    if f.completed != h.completed {
      var g := CtlReq(h, Request(h.enumState, h.desc)).h;
      HostCore.CtlReqInv(h);
      AdvancePipes(g, i, y, f, Record(h, f, i, y));
    }
    hide Advance, ControlPipeIs;
  }

  lemma ProcessControl(h: Host, i: Input, y: History)
    requires HostCore.Inv(h) && ControlInv(h, y)
    ensures var f := Process(h, i); Sized(f.s) && ControlInv(f, Record(h, f, i, y))
  {
    HostCore.ProcessInv(h, i);
    if h.gState.HOST_DEV_ATTACHED? {
      AttachOpens(h, i);
    } else if h.gState.HOST_ENUMERATION? {
      EnumControl(h, i, y);
    } else {
      RestKeepsControl(h, i, y);
    }
    hide HandleControl, HandleEnum, Attach, ControlPipeIs, HostCore.Inv;
  }

  lemma {:induction false} ToldInv(h: Host, y: History, inputs: seq<Input>)
    requires AllInv(h, y)
    ensures HostCore.Run(h, inputs) && AllInv(After(h, inputs), Told(h, y, inputs))
    decreases |inputs|
  {
    HostCore.RunInv(h, inputs);
    if inputs == [] {
    } else {
      var f := Process(h, inputs[0]);
      ProcessInv(h, inputs[0]);
      ProcessDesc(h, inputs[0], y);
      ProcessLog(h, inputs[0], y);
      ProcessPipes(h, inputs[0], y);
      ProcessControl(h, inputs[0], y);
      hide HostCore.Inv, DescInv, LogInv, PipesInv, ControlInv, Process, Record;
      ToldInv(f, Record(h, f, inputs[0], y), inputs[1..]);
    }
  }

  lemma StartsTold(h: Host, y: History)
    requires HostCore.Initial(h)
    ensures AllInv(h, y)
  {
    HostCore.InitialInv(h);
  }

  /** In every run a request that completes is, field by field, the standard request of its
      state; what varies comes from the last replies of the same run. */
  lemma RequestsAreStandard(h: Host, y: History, inputs: seq<Input>, i: Input)
    requires HostCore.Initial(h)
    ensures HostCore.Run(h, inputs)
    ensures var f := After(h, inputs);
            Process(f, i).completed != f.completed ==>
              Standard(f.enumState, f.ctrl.sentSetup, Told(h, y, inputs))
  {
    StartsTold(h, y);
    ToldInv(h, y, inputs);
    RequestsAreTransfers(h, inputs, i);
    var f := After(h, inputs);
    if Process(f, i).completed != f.completed {
      RequestIsStandard(f, Told(h, y, inputs), i);
    }
  }

  lemma RequestIsStandard(f: Host, y: History, i: Input)
    requires HostCore.Inv(f) && DescInv(f, y) && Process(f, i).completed != f.completed
    ensures Standard(f.enumState, Request(f.enumState, f.desc), y)
  {
    Moves(f, i);
    hide HandleControl, Process, HostCore.Inv;
  }

  /** A device that is configured has been asked for everything in its order, including
      every string it has and no other, and has been given its configuration. */
  lemma ConfiguredIsEnumerated(h: Host, y: History, inputs: seq<Input>)
    requires HostCore.Initial(h)
    ensures HostCore.Run(h, inputs)
    ensures var f, z := After(h, inputs), Told(h, y, inputs);
            Configured(f.gState) ==>
              Squeezed(z.log) == [ENUM_IDLE, ENUM_GET_FULL_DEV_DESC, ENUM_SET_ADDR, ENUM_GET_CFG_DESC,
                                  ENUM_GET_FULL_CFG_DESC] + Strings(z.device) + [ENUM_SET_CONFIGURATION]
  {
    StartsTold(h, y);
    ToldInv(h, y, inputs);
  }

  /** A configuration is read in full exactly when it fits the buffer, and left behind
      exactly when it could be parsed. */
  lemma ConfigurationIff(h: Host, inputs: seq<Input>, i: Input)
    requires HostCore.Initial(h)
    ensures HostCore.Run(h, inputs)
    ensures var f := After(h, inputs);
            var g := Process(f, i);
            g.completed != f.completed ==>
              && (f.enumState.ENUM_GET_CFG_DESC? ==>
                    g.enumState == if i.reply.totalLength <= 0x400 then ENUM_GET_FULL_CFG_DESC else ENUM_GET_CFG_DESC)
              && (f.enumState.ENUM_GET_FULL_CFG_DESC? ==>
                    g.enumState == if i.parsed then ENUM_GET_MFC_STRING_DESC else ENUM_GET_FULL_CFG_DESC)
  {
    HostCore.InitialInv(h);
    HostCore.RunInv(h, inputs);
    hide HandleControl, After, HostCore.Run;
  }

  /** And once the class is started, both its pipes are open: on the endpoints of the device,
      each in its direction, with its packet size, at the device's address and speed, and
      beginning with DATA0. */
  lemma ClassHasPipes(h: Host, y: History, inputs: seq<Input>)
    requires HostCore.Initial(h)
    ensures HostCore.Run(h, inputs)
    ensures var f, z := After(h, inputs), Told(h, y, inputs);
            (f.gState.HOST_CLASS_REQUEST? || f.gState.HOST_CLASS?) && z.start.isCdc ==>
              && f.outPipe == 2 && f.inPipe == 3 && Chosen(f.data, z.start.first, z.start.second)
              && PipeIs(f.s.hc[2], f.data.outEp.address, f.data.outEp.size, z.speed)
              && PipeIs(f.s.hc[3], f.data.inEp.address, f.data.inEp.size, z.speed)
  {
    StartsTold(h, y);
    ToldInv(h, y, inputs);
    hide PipeIs, Chosen;
  }

  /** While a device is there, both channels of the control pipe are open on its endpoint 0,
      one each way and at its speed, with packets of 64 bytes until the first eight bytes of
      its device descriptor have said otherwise. */
  lemma ControlPipeFollowsReply(h: Host, y: History, inputs: seq<Input>)
    requires HostCore.Initial(h)
    ensures HostCore.Run(h, inputs)
    ensures var f, z := After(h, inputs), Told(h, y, inputs);
            !Detached(f.gState) ==>
              && f.ctrl.hcOut == 0 && f.ctrl.hcIn == 1
              && f.ctrl.ep0size == (if f.enumState.ENUM_IDLE? then 64 else z.ep0)
              && ControlPipeIs(f.s.hc[0], false, ControlSize(f.enumState, z.ep0), z.speed)
              && ControlPipeIs(f.s.hc[1], true, ControlSize(f.enumState, z.ep0), z.speed)
  {
    StartsTold(h, y);
    ToldInv(h, y, inputs);
    hide ControlPipeIs;
  }
}
