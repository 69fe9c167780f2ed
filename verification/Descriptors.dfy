/**
  The configuration descriptor of a device: how its bytes are laid out (sections
  9.6.3, 9.6.5 and 9.6.6 of USB 2.0), and the parser that takes them apart again.
*/
module Descriptors {
  import opened UsbStatus
  import opened Words

  const INTERFACE: byte := 4
  const ENDPOINT: byte := 5
  const MAX_INTERFACES := 2
  const MAX_ENDPOINTS := 3

  datatype ConfigDesc = ConfigDesc(
    length: byte, kind: byte, totalLength: u16, numInterfaces: byte, value: byte, index: byte,
    attributes: byte, maxPower: byte)

  datatype InterfaceDesc = InterfaceDesc(
    length: byte, kind: byte, number: byte, alternate: byte, numEndpoints: byte, class_: byte,
    subClass: byte, protocol: byte, index: byte)

  datatype EndpointDesc = EndpointDesc(
    length: byte, kind: byte, address: byte, attributes: byte, maxPacketSize: u16, interval: byte)

  /** The bytes of one descriptor. */
  type Raw = seq<byte>

  /** An endpoint, and the class-specific descriptors before it. Any descriptor may go on
      (`tail`) after the fields that the parser knows. */
  datatype Endpoint = Endpoint(extras: seq<Raw>, desc: EndpointDesc, tail: seq<byte>)

  datatype Interface =
    Interface(extras: seq<Raw>, desc: InterfaceDesc, tail: seq<byte>, endpoints: seq<Endpoint>)

  /** `trailing`: what comes after the last endpoint. */
  datatype Config =
    Config(header: ConfigDesc, tail: seq<byte>, interfaces: seq<Interface>, trailing: seq<Raw>)

  // -- Layout ------------------------------------------------------------------------

  function Word(x: u16): Raw { [x % 256, x / 256] }

  function ConfigFields(d: ConfigDesc): (r: Raw)
    ensures |r| == 9
  {
    [d.length, d.kind] + Word(d.totalLength) + [d.numInterfaces, d.value, d.index, d.attributes, d.maxPower]
  }

  function InterfaceFields(d: InterfaceDesc): (r: Raw)
    ensures |r| == 9
  {
    [d.length, d.kind, d.number, d.alternate, d.numEndpoints, d.class_, d.subClass, d.protocol, d.index]
  }

  function EndpointFields(d: EndpointDesc): (r: Raw)
    ensures |r| == 7
  {
    [d.length, d.kind, d.address, d.attributes] + Word(d.maxPacketSize) + [d.interval]
  }

  function ConfigRaw(c: Config): Raw { ConfigFields(c.header) + c.tail }

  function InterfaceRaw(i: Interface): Raw { InterfaceFields(i.desc) + i.tail }

  function EndpointRaw(e: Endpoint): Raw { EndpointFields(e.desc) + e.tail }

  function EndpointRaws(eps: seq<Endpoint>): seq<Raw> {
    if eps == [] then [] else eps[0].extras + [EndpointRaw(eps[0])] + EndpointRaws(eps[1..])
  }

  /** Interfaces, each with the other descriptors before it, and what trails. */
  function InterfaceRaws(itfs: seq<Interface>, trailing: seq<Raw>): seq<Raw>
    decreases |itfs|, 1
  {
    if itfs == [] then trailing else itfs[0].extras + FromHead(itfs, trailing)
  }

  /** An interface from its own descriptor on, and what comes after it. */
  function FromHead(itfs: seq<Interface>, trailing: seq<Raw>): seq<Raw>
    decreases |itfs|, 0
  {
    if itfs == [] then []
    else [InterfaceRaw(itfs[0])] + EndpointRaws(itfs[0].endpoints) + InterfaceRaws(itfs[1..], trailing)
  }

  function Join(rs: seq<Raw>): seq<byte> {
    if rs == [] then [] else rs[0] + Join(rs[1..])
  }

  function Serialized(c: Config): seq<byte> {
    ConfigRaw(c) + Join(InterfaceRaws(c.interfaces, c.trailing))
  }

  // -- Well-formed configurations ------------------------------------------------------

  /** A descriptor starts with its own length and its type. */
  predicate IsRaw(r: Raw) { |r| >= 2 && r[0] == |r| }

  predicate ClassSpecific(r: Raw) { IsRaw(r) && r[1] != INTERFACE && r[1] != ENDPOINT }

  predicate AllClassSpecific(rs: seq<Raw>) { forall r :: r in rs ==> ClassSpecific(r) }

  /** What the outer loop passes over: also endpoints beyond those that an interface claims. */
  predicate NoInterface(rs: seq<Raw>) { forall r :: r in rs ==> IsRaw(r) && r[1] != INTERFACE }

  predicate ValidEndpoint(e: Endpoint) {
    AllClassSpecific(e.extras) && e.desc.length == |EndpointRaw(e)| && e.desc.kind == ENDPOINT
  }

  /** The tables have a row for the interface, or nothing of it is ever stored. */
  predicate HasRow(i: Interface) {
    || i.desc.number < MAX_INTERFACES || i.desc.alternate >= 3
    || i.endpoints == [] || |i.endpoints| > MAX_ENDPOINTS
  }

  predicate ValidInterface(i: Interface) {
    && NoInterface(i.extras) && i.desc.length == |InterfaceRaw(i)| && i.desc.kind == INTERFACE
    && HasRow(i)
    && i.desc.numEndpoints == |i.endpoints|
    && forall j :: 0 <= j < |i.endpoints| ==> ValidEndpoint(i.endpoints[j])
  }

  predicate AllValid(itfs: seq<Interface>) { forall j :: 0 <= j < |itfs| ==> ValidInterface(itfs[j]) }

  /** The parser keeps its position, 9 bytes ahead, in 16 bits. */
  predicate Valid(c: Config) {
    && c.header.length == |ConfigRaw(c)|
    && c.header.totalLength == |Serialized(c)| <= 0xffff - 9
    && AllValid(c.interfaces) && NoInterface(c.trailing)
  }

  /** The last of the descriptors `cur` and `rest`. */
  function Last(cur: Raw, rest: seq<Raw>): Raw { if rest == [] then cur else rest[|rest| - 1] }

  function LastRaw(c: Config): Raw { Last(ConfigRaw(c), InterfaceRaws(c.interfaces, c.trailing)) }

  // -- What is stored --------------------------------------------------------------------

  datatype Tables = Tables(itf: seq<InterfaceDesc>, ep: seq<seq<EndpointDesc>>) {
    predicate Valid() {
      && |itf| == |ep| == MAX_INTERFACES
      && forall k :: 0 <= k < |ep| ==> |ep[k]| == MAX_ENDPOINTS
    }
  }

  /** The parser's memory: the tables, and its two static variables, the interface that
      last had an endpoint stored and the packet size of that endpoint. */
  datatype Parser = Parser(t: Tables, prevItf: byte, prevEpSize: u16)

  /** How many endpoints come before the first one with a smaller packet size than
      its predecessor, from position j on. */
  function AcceptedFrom(eps: seq<Endpoint>, j: nat): (n: nat)
    requires 1 <= j <= |eps|
    ensures j <= n <= |eps|
    decreases |eps| - j
  {
    if j < |eps| && eps[j - 1].desc.maxPacketSize <= eps[j].desc.maxPacketSize then AcceptedFrom(eps, j + 1) else j
  }

  /** The row of an interface after its first n endpoints have been stored. */
  function Row(row: seq<EndpointDesc>, eps: seq<Endpoint>, n: nat): (r: seq<EndpointDesc>)
    requires n <= |eps| && n <= |row|
    ensures |r| == |row|
  {
    seq(|row|, k requires 0 <= k < |row| => if k < n then eps[k].desc else row[k])
  }

  /** How many endpoints of an interface are stored. The first is compared with what was
      last stored if that was for the same interface number. */
  function Accepted(prevItf: byte, prevEpSize: u16, i: Interface): (n: nat)
    ensures n <= |i.endpoints|
  {
    var eps := i.endpoints;
    if i.desc.alternate >= 3 || eps == [] then 0
    else if prevItf == i.desc.number && prevEpSize > eps[0].desc.maxPacketSize then 0
    else AcceptedFrom(eps, 1)
  }

  /** An interface that fits the tables, or is passed over. */
  predicate Fits(i: Interface) {
    HasRow(i) && (i.desc.alternate < 3 ==> |i.endpoints| <= MAX_ENDPOINTS)
  }

  /** After n endpoints of an interface have been stored; the interface itself is
      stored with the first. */
  function StoreSome(p: Parser, i: Interface, n: nat): (r: Parser)
    requires p.t.Valid() && n <= |i.endpoints| && n <= MAX_ENDPOINTS && (n > 0 ==> i.desc.number < MAX_INTERFACES)
    ensures r.t.Valid()
  {
    var k := i.desc.number;
    if n == 0 then p
    else Parser(Tables(p.t.itf[k := i.desc], p.t.ep[k := Row(p.t.ep[k], i.endpoints, n)]),
                k, i.endpoints[n - 1].desc.maxPacketSize)
  }

  function StoreOne(p: Parser, i: Interface): (r: Parser)
    requires p.t.Valid() && Fits(i)
    ensures r.t.Valid()
  {
    StoreSome(p, i, Accepted(p.prevItf, p.prevEpSize, i))
  }

  predicate Storable(itfs: seq<Interface>, n: nat) {
    n <= |itfs| && forall k :: 0 <= k < n ==> Fits(itfs[k])
  }

  /** After the first n interfaces have been parsed. */
  function Stored(p: Parser, itfs: seq<Interface>, n: nat): (r: Parser)
    requires p.t.Valid() && Storable(itfs, n)
    ensures r.t.Valid()
  {
    if n == 0 then p else StoreOne(Stored(p, itfs, n - 1), itfs[n - 1])
  }

  // -- Reading fields ----------------------------------------------------------------

  function LE16(b: seq<byte>, o: nat): u16
    requires o + 1 < |b|
  {
    var lo: int, hi: int := b[o], b[o + 1];
    lo + hi * 256
  }

  function ConfigAt(b: seq<byte>): ConfigDesc
    requires 9 <= |b|
  {
    ConfigDesc(b[0], b[1], LE16(b, 2), b[4], b[5], b[6], b[7], b[8])
  }

  function InterfaceAt(b: seq<byte>, o: nat): InterfaceDesc
    requires o + 9 <= |b|
  {
    InterfaceDesc(b[o], b[o + 1], b[o + 2], b[o + 3], b[o + 4], b[o + 5], b[o + 6], b[o + 7], b[o + 8])
  }

  function EndpointAt(b: seq<byte>, o: nat): EndpointDesc
    requires o + 7 <= |b|
  {
    EndpointDesc(b[o], b[o + 1], b[o + 2], b[o + 3], LE16(b, o + 4), b[o + 6])
  }

  /** A descriptor starts at o. */
  predicate RawAt(b: seq<byte>, o: nat, r: Raw) {
    o + |r| <= |b| && b[o..o + |r|] == r
  }

  /** A descriptor starts with its fields. */
  lemma FieldsAt(b: seq<byte>, o: nat, fields: Raw, tail: Raw)
    requires RawAt(b, o, fields + tail)
    ensures RawAt(b, o, fields)
  {
    assert b[o..o + |fields|] == b[o..o + |fields + tail|][..|fields|] == fields;
  }

  lemma LE16OfWord(x: u16)
    ensures LE16(Word(x), 0) == x
  {
  }

  lemma ConfigReadsBack(b: seq<byte>, d: ConfigDesc)
    requires RawAt(b, 0, ConfigFields(d))
    ensures ConfigAt(b) == d
  {
    var r := ConfigFields(d);
    LE16OfWord(d.totalLength);
    forall k | 0 <= k < 9 ensures b[k] == r[k] {
      assert b[0..9][k] == r[k];
    }
  }

  lemma InterfaceReadsBack(b: seq<byte>, o: nat, d: InterfaceDesc)
    requires RawAt(b, o, InterfaceFields(d))
    ensures InterfaceAt(b, o) == d
  {
    var r := InterfaceFields(d);
    forall k | 0 <= k < 9 ensures b[o + k] == r[k] {
      assert b[o..o + 9][k] == r[k];
    }
  }

  lemma EndpointReadsBack(b: seq<byte>, o: nat, d: EndpointDesc)
    requires RawAt(b, o, EndpointFields(d))
    ensures EndpointAt(b, o) == d
  {
    var r := EndpointFields(d);
    LE16OfWord(d.maxPacketSize);
    forall k | 0 <= k < 7 ensures b[o + k] == r[k] {
      assert b[o..o + 7][k] == r[k];
    }
  }

  // -- Position ------------------------------------------------------------------------

  /** Where the parser stands: at descriptor `cur`, at offset `off` of the first
      `total` bytes of the buffer, with `rest` still to come, and `last` the last of all.
      The source's `ptr` is 9 ahead of the offset. */
  ghost predicate Stands(buf: seq<byte>, total: nat, last: Raw, off: nat, cur: Raw, rest: seq<Raw>) {
    && total <= |buf| && total <= 0xffff - 9
    && IsRaw(cur) && (forall r :: r in rest ==> IsRaw(r))
    && off + |cur| + |Join(rest)| == total
    && buf[off..total] == cur + Join(rest)
    && Last(cur, rest) == last
  }

  lemma StandsAt(buf: seq<byte>, total: nat, last: Raw, off: nat, cur: Raw, rest: seq<Raw>)
    requires Stands(buf, total, last, off, cur, rest)
    ensures RawAt(buf, off, cur) && off + 1 < |buf| && buf[off] == |cur| && buf[off + 1] == cur[1]
  {
    var s := buf[off..total];
    assert forall k :: 0 <= k < |cur| ==> buf[off..off + |cur|][k] == s[k] == cur[k];
    assert buf[off] == s[0] && buf[off + 1] == s[1];
  }

  lemma StandsNext(buf: seq<byte>, total: nat, last: Raw, off: nat, cur: Raw, rest: seq<Raw>)
    requires Stands(buf, total, last, off, cur, rest) && rest != []
    ensures Stands(buf, total, last, off + |cur|, rest[0], rest[1..])
  {
    var s := buf[off..total];
    assert buf[off + |cur|..total] == s[|cur|..] == Join(rest);
    assert rest[0] in rest;
    assert Join(rest) == rest[0] + Join(rest[1..]);
    assert forall r :: r in rest[1..] ==> r in rest;
  }

  /** USBH_GetNextDesc: both positions move on by the length of the descriptor, to the
      next one or, behind the last, to the end of the configuration. */
  method GetNextDesc(buf: seq<byte>, pos: nat, ptr0: u16,
                     ghost total: nat, ghost last: Raw, ghost cur: Raw, ghost rest: seq<Raw>)
    returns (off: nat, ptr: u16)
    requires Stands(buf, total, last, pos, cur, rest) && ptr0 == pos + 9
    ensures if rest == [] then off == total else Stands(buf, total, last, off, rest[0], rest[1..])
    ensures off == pos + |cur| && pos + 2 <= off <= total && ptr == off + 9 && (rest != [] ==> off < total)
  {
    StandsAt(buf, total, last, pos, cur, rest);
    if rest != [] {
      StandsNext(buf, total, last, pos, cur, rest);
    }
    ptr := (ptr0 + buf[pos]) % 0x1_0000;
    off := pos + buf[pos];
  }

  // -- Past the end --------------------------------------------------------------------

  /** The walk by the rule of the outer loop, to go on while `ptr` is less than the total
      length, gets past the last descriptor. */
  ghost predicate Overruns(total: nat, off: nat, cur: Raw, rest: seq<Raw>)
    decreases |rest|
  {
    off + 9 < total && (rest == [] || Overruns(total, off + |cur|, rest[0], rest[1..]))
  }

  lemma {:induction false} OverrunsIff(buf: seq<byte>, total: nat, last: Raw, off: nat, cur: Raw, rest: seq<Raw>)
    requires Stands(buf, total, last, off, cur, rest)
    ensures Overruns(total, off, cur, rest) <==> |last| > 9
    decreases |rest|
  {
    if rest == [] {
    } else {
      StandsNext(buf, total, last, off, cur, rest);
      OverrunsIff(buf, total, last, off + |cur|, rest[0], rest[1..]);
      JoinAtLeast(rest, last);
    }
  }

  /** On the bytes of a configuration the walk gets past the end exactly when the last
      descriptor is longer than 9 bytes. */
  lemma ReadsOnIff(buf: seq<byte>, c: Config)
    requires Valid(c) && c.header.totalLength <= |buf| && buf[..c.header.totalLength] == Serialized(c)
    ensures Overruns(c.header.totalLength, 0, ConfigRaw(c), InterfaceRaws(c.interfaces, c.trailing))
            <==> |LastRaw(c)| > 9
  {
    StandsFirst(buf, c);
    OverrunsIff(buf, c.header.totalLength, LastRaw(c), 0, ConfigRaw(c), InterfaceRaws(c.interfaces, c.trailing));
  }

  /** What trails comes last, so that any configuration can be given such an end. */
  lemma {:induction false} TrailingIsLast(itfs: seq<Interface>, trailing: seq<Raw>)
    requires trailing != []
    ensures InterfaceRaws(itfs, trailing) != []
    ensures Last([], InterfaceRaws(itfs, trailing)) == trailing[|trailing| - 1]
  {
    if itfs == [] {
    } else {
      TrailingIsLast(itfs[1..], trailing);
    }
  }

  // -- The parser ------------------------------------------------------------------------

  lemma {:induction false} NoInterfaceIn(eps: seq<Endpoint>)
    requires forall j :: 0 <= j < |eps| ==> ValidEndpoint(eps[j])
    ensures NoInterface(EndpointRaws(eps))
  {
    if eps == [] {
    } else {
      NoInterfaceIn(eps[1..]);
      assert ValidEndpoint(eps[0]);
      var head, tail := eps[0].extras + [EndpointRaw(eps[0])], EndpointRaws(eps[1..]);
      assert EndpointRaws(eps) == head + tail;
      assert forall r :: r in EndpointRaws(eps) ==> r in eps[0].extras || r == EndpointRaw(eps[0]) || r in tail;
    }
  }

  /** What is ahead inside an interface: the class-specific descriptors still before
      endpoint j, that endpoint, and the rest. */
  ghost function Ahead(eps: seq<Endpoint>, j: nat, todo: seq<Raw>, after: seq<Raw>): seq<Raw> {
    if j < |eps| then todo + ([EndpointRaw(eps[j])] + (EndpointRaws(eps[j + 1..]) + after)) else after
  }

  function ExtrasOf(eps: seq<Endpoint>, j: nat): seq<Raw> { if j < |eps| then eps[j].extras else [] }

  lemma ExtrasAre(i: Interface, j: nat)
    requires ValidInterface(i)
    ensures AllClassSpecific(ExtrasOf(i.endpoints, j))
  {
    if j < |i.endpoints| {
      assert ValidEndpoint(i.endpoints[j]);
    }
  }

  lemma AheadFrom(eps: seq<Endpoint>, j: nat, after: seq<Raw>)
    requires j <= |eps|
    ensures EndpointRaws(eps[j..]) + after == Ahead(eps, j, ExtrasOf(eps, j), after)
  {
    if j < |eps| {
      assert eps[j..][1..] == eps[j + 1..];
      var x, r, y := eps[j].extras, [EndpointRaw(eps[j])], EndpointRaws(eps[j + 1..]);
      assert (x + r + y) + after == x + (r + (y + after));
    } else {
      assert eps[j..] == [];
      assert [] + after == after;
    }
  }

  lemma AheadStep(eps: seq<Endpoint>, j: nat, todo: seq<Raw>, after: seq<Raw>)
    requires j < |eps| && AllClassSpecific(todo) && ValidEndpoint(eps[j])
    ensures todo != [] ==> AllClassSpecific(todo[1..])
    ensures var ahead := Ahead(eps, j, todo, after);
            && ahead != [] && |ahead[0]| >= 2 && (ahead[0][1] == ENDPOINT <==> todo == [])
            && (todo == [] ==> ahead[0] == EndpointRaw(eps[j]) && ahead[1..] == EndpointRaws(eps[j + 1..]) + after)
            && (todo != [] ==> ahead[0] == todo[0] && ahead[1..] == Ahead(eps, j, todo[1..], after))
  {
    var tail := [EndpointRaw(eps[j])] + (EndpointRaws(eps[j + 1..]) + after);
    if todo == [] {
      assert todo + tail == tail;
    } else {
      assert todo[0] in todo;
      assert (todo + tail)[1..] == todo[1..] + tail;
    }
  }

  lemma StoreMore(p: Parser, i: Interface, n: nat)
    requires p.t.Valid() && i.desc.number < MAX_INTERFACES && n < |i.endpoints| <= MAX_ENDPOINTS
    ensures var s, k, e := StoreSome(p, i, n).t, i.desc.number, i.endpoints[n].desc;
            StoreSome(p, i, n + 1)
            == Parser(Tables(s.itf[k := i.desc], s.ep[k := s.ep[k][n := e]]), k, e.maxPacketSize)
  {
    var s, k := StoreSome(p, i, n).t, i.desc.number;
    assert Row(p.t.ep[k], i.endpoints, n + 1) == s.ep[k][n := i.endpoints[n].desc];
  }

  /** How many interfaces come before the first with more endpoints than there is
      room for. */
  function Supported(itfs: seq<Interface>): (n: nat)
    ensures n <= |itfs|
    ensures n < |itfs| ==> itfs[n].desc.alternate < 3 && |itfs[n].endpoints| > MAX_ENDPOINTS
    ensures forall k :: 0 <= k < n ==> (itfs[k].desc.alternate < 3 ==> |itfs[k].endpoints| <= MAX_ENDPOINTS)
  {
    if itfs == [] || (itfs[0].desc.alternate < 3 && |itfs[0].endpoints| > MAX_ENDPOINTS) then 0
    else 1 + Supported(itfs[1..])
  }

  predicate Unsupported(c: Config) {
    c.header.numInterfaces > MAX_INTERFACES || Supported(c.interfaces) < |c.interfaces|
  }

  /** The walk gets past the end, where a byte happens to be the type of an interface. */
  predicate Strays(buf: seq<byte>, c: Config)
    requires |LastRaw(c)| > 9 ==> c.header.totalLength + 1 < |buf|
  {
    |LastRaw(c)| > 9 && buf[c.header.totalLength + 1] == INTERFACE
  }

  /** What a call of the parser leaves behind: the static variables are cleared only on
      success. */
  function Parsed(p: Parser, length: u16, c: Config): (r: Parser)
    requires p.t.Valid() && Valid(c)
    ensures r.t.Valid()
  {
    if length <= 9 || c.header.numInterfaces > MAX_INTERFACES then p
    else
      SupportedIsStorable(c, Supported(c.interfaces));
      var r := Stored(p, c.interfaces, Supported(c.interfaces));
      if Unsupported(c) then r else Parser(r.t, 0, 0)
  }

  function ExtrasBefore(c: Config, k: nat): seq<Raw> {
    if k < |c.interfaces| then c.interfaces[k].extras else c.trailing
  }

  function Heads(c: Config, k: nat): seq<Raw>
    requires k <= |c.interfaces|
  {
    FromHead(c.interfaces[k..], c.trailing)
  }

  function After(c: Config, k: nat): seq<Raw>
    requires k <= |c.interfaces|
  {
    InterfaceRaws(c.interfaces[k..], c.trailing)
  }

  predicate Regular(c: Config) { AllValid(c.interfaces) && NoInterface(c.trailing) }

  /** The other descriptors before interface k join what is left before it. */
  lemma LeftMore(left: seq<Raw>, c: Config, k: nat)
    requires k <= |c.interfaces| && NoInterface(left) && Regular(c)
    ensures left + After(c, k) == (left + ExtrasBefore(c, k)) + Heads(c, k)
    ensures NoInterface(left + ExtrasBefore(c, k))
  {
    var itfs := c.interfaces;
    var extras, head := ExtrasBefore(c, k), Heads(c, k);
    if k < |itfs| {
      assert ValidInterface(itfs[k]);
    } else {
      assert itfs[k..] == [];
    }
    assert After(c, k) == extras + head;
    assert left + (extras + head) == (left + extras) + head;
  }

  /** Where the outer loop stands: `left` is what is still before interface k, or
      behind the last one. */
  ghost predicate Position(buf: seq<byte>, total: nat, last: Raw, off: nat,
                           cur: Raw, left: seq<Raw>, c: Config, k: nat)
  {
    && k <= |c.interfaces| && Regular(c)
    && Stands(buf, total, last, off, cur, left + Heads(c, k))
    && NoInterface(left)
  }

  /** The next descriptor is either one left over or that of the next interface. */
  lemma FirstOf(buf: seq<byte>, total: nat, last: Raw, off: nat, left: seq<Raw>, c: Config, k: nat)
    requires k <= |c.interfaces| && NoInterface(left) && Regular(c)
    requires left + Heads(c, k) != []
    requires var rest := left + Heads(c, k); Stands(buf, total, last, off, rest[0], rest[1..])
    ensures var rest := left + Heads(c, k);
            && |rest[0]| >= 2 && (rest[0][1] == INTERFACE <==> left == [])
            && (left == [] ==> k < |c.interfaces| && AtInterface(rest, c, k))
            && (left != [] ==> Position(buf, total, last, off, rest[0], left[1..], c, k))
  {
    hide Stands;
    var itfs := c.interfaces;
    var rest := left + Heads(c, k);
    if left == [] {
      assert ValidInterface(itfs[k]);
      assert itfs[k..][1..] == itfs[k + 1..];
      var x, y, z := [InterfaceRaw(itfs[k])], EndpointRaws(itfs[k].endpoints), After(c, k + 1);
      assert Heads(c, k) == x + y + z;
      assert x + y + z == x + (y + z);
      assert rest == Heads(c, k);
    } else {
      assert left[0] in left;
      assert rest[1..] == left[1..] + Heads(c, k);
    }
  }

  ghost predicate AtInterface(rest: seq<Raw>, c: Config, k: nat)
    requires rest != [] && k < |c.interfaces|
  {
    var i := c.interfaces[k];
    && rest[0] == InterfaceRaw(i) && rest[1..] == EndpointRaws(i.endpoints) + After(c, k + 1)
    && ValidInterface(i) && i.desc.numEndpoints == |i.endpoints|
  }

  lemma PastInterface(buf: seq<byte>, total: nat, last: Raw, off: nat, cur: Raw, left: seq<Raw>, c: Config, k: nat)
    requires k < |c.interfaces| && Regular(c)
    requires Stands(buf, total, last, off, cur, left + After(c, k + 1))
    requires NoInterface(left)
    ensures Position(buf, total, last, off, cur, left + ExtrasBefore(c, k + 1), c, k + 1)
  {
    hide Stands;
    LeftMore(left, c, k + 1);
  }

  /** An interface of a higher alternate setting is passed over. */
  lemma PastAlternate(buf: seq<byte>, total: nat, last: Raw, off: nat, cur: Raw, c: Config, k: nat)
    requires k < |c.interfaces| && Regular(c) && ValidInterface(c.interfaces[k])
    requires Stands(buf, total, last, off, cur, EndpointRaws(c.interfaces[k].endpoints) + After(c, k + 1))
    ensures Position(buf, total, last, off, cur,
                     EndpointRaws(c.interfaces[k].endpoints) + ExtrasBefore(c, k + 1), c, k + 1)
  {
    hide Stands;
    NoInterfaceIn(c.interfaces[k].endpoints);
    PastInterface(buf, total, last, off, cur, EndpointRaws(c.interfaces[k].endpoints), c, k);
  }

  lemma {:induction false} JoinAtLeast(rs: seq<Raw>, r: Raw)
    requires r in rs
    ensures |r| <= |Join(rs)|
  {
    if r == rs[0] {
    } else {
      JoinAtLeast(rs[1..], r);
    }
  }

  /** While an interface is ahead the loop goes on. */
  lemma NothingBehind(buf: seq<byte>, total: nat, last: Raw, off: nat, cur: Raw, left: seq<Raw>, c: Config, k: nat)
    requires Position(buf, total, last, off, cur, left, c, k) && total <= off + 9
    ensures k == |c.interfaces|
  {
    if k < |c.interfaces| {
      var r := InterfaceRaw(c.interfaces[k]);
      assert Heads(c, k)[0] == r;
      assert r in left + Heads(c, k);
      JoinAtLeast(left + Heads(c, k), r);
    }
  }

  /** While the loop goes on there is a descriptor ahead, or the last is longer than the
      loop looks ahead. */
  lemma MoreToCome(buf: seq<byte>, total: nat, last: Raw, off: nat, cur: Raw, left: seq<Raw>, c: Config, k: nat)
    requires Position(buf, total, last, off, cur, left, c, k)
    ensures k <= |c.interfaces| && NoInterface(left) && Regular(c)
    ensures Stands(buf, total, last, off, cur, left + Heads(c, k))
    ensures left + Heads(c, k) == [] ==> k == |c.interfaces| && last == cur && off + |cur| == total
    ensures total <= off + 9 ==> |last| <= 9
  {
    var rest := left + Heads(c, k);
    assert k < |c.interfaces| ==> |Heads(c, k)| > 0;
    if rest != [] {
      JoinAtLeast(rest, last);
    }
  }

  lemma {:induction false} InterfaceRawsAreRaw(itfs: seq<Interface>, trailing: seq<Raw>)
    requires AllValid(itfs) && NoInterface(trailing)
    ensures forall r :: r in InterfaceRaws(itfs, trailing) ==> IsRaw(r)
  {
    if itfs == [] {
    } else {
      var i := itfs[0];
      assert ValidInterface(i) && AllValid(itfs[1..]) && IsRaw(InterfaceRaw(i));
      InterfaceRawsAreRaw(itfs[1..], trailing);
      NoInterfaceIn(i.endpoints);
      assert InterfaceRaws(itfs, trailing)
          == i.extras + ([InterfaceRaw(i)] + EndpointRaws(i.endpoints) + InterfaceRaws(itfs[1..], trailing));
    }
  }

  lemma StandsFirst(buf: seq<byte>, c: Config)
    requires Valid(c) && c.header.totalLength <= |buf| && buf[..c.header.totalLength] == Serialized(c)
    ensures Position(buf, c.header.totalLength, LastRaw(c), 0, ConfigRaw(c), ExtrasBefore(c, 0), c, 0)
    ensures ExtrasBefore(c, 0) + Heads(c, 0) == InterfaceRaws(c.interfaces, c.trailing) && 9 <= c.header.totalLength
  {
    var left := ExtrasBefore(c, 0);
    InterfaceRawsAreRaw(c.interfaces, c.trailing);
    LeftMore([], c, 0);
    assert c.interfaces[0..] == c.interfaces && [] + left == left && [] + After(c, 0) == After(c, 0);
  }

  lemma SupportedIsStorable(c: Config, k: nat)
    requires k <= Supported(c.interfaces) && AllValid(c.interfaces)
    ensures Storable(c.interfaces, k)
  {
    forall j | 0 <= j < k ensures Fits(c.interfaces[j]) {
      assert ValidInterface(c.interfaces[j]);
    }
  }

  /** The tables of a device and the two static variables of the parser. */
  class DeviceProp {
    var cfg: ConfigDesc
    var itf: seq<InterfaceDesc>
    var ep: seq<seq<EndpointDesc>>
    var prevEpSize: u16
    var prevItf: byte

    ghost function Contents(): Parser
      reads this
    {
      Parser(Tables(itf, ep), prevItf, prevEpSize)
    }

    /** The inner loop: the endpoints of one interface. */
    method ParseEndpoints(buf: seq<byte>, pos: nat, ptr0: u16, ifIx: byte, temp: InterfaceDesc,
                          ghost total: nat, ghost last: Raw, ghost cur0: Raw, ghost i: Interface,
                          ghost after: seq<Raw>)
      returns (off: nat, ptr: u16, ghost cur: Raw, ghost left: seq<Raw>)
      requires Contents().t.Valid() && ValidInterface(i) && |i.endpoints| <= MAX_ENDPOINTS && i.desc.alternate < 3
      requires temp == i.desc && ifIx == i.desc.number
      requires Stands(buf, total, last, pos, cur0, EndpointRaws(i.endpoints) + after) && ptr0 == pos + 9 && pos < total
      modifies this
      ensures Stands(buf, total, last, off, cur, left + after) && ptr == off + 9 && pos <= off < total
      ensures NoInterface(left)
      ensures Contents() == StoreOne(old(Contents()), i) && cfg == old(cfg)
    {
      hide Stands, Ahead, EndpointRaws, Row, AllClassSpecific, NoInterface, RawAt, ClassSpecific;
      off, ptr, cur, left := pos, ptr0, cur0, [];
      ghost var was, eps := Contents(), i.endpoints;
      ghost var todo := ExtrasOf(eps, 0);
      var epIx: nat := 0;
      assert eps == eps[0..];
      AheadFrom(eps, 0, after);
      ExtrasAre(i, 0);
      StoreNone(was, i);
      while epIx < temp.numEndpoints
        invariant epIx <= |eps| && left == [] && pos <= off < total
        invariant cfg == old(cfg)
        invariant Stands(buf, total, last, off, cur, Ahead(eps, epIx, todo, after)) && ptr == off + 9
        invariant AllClassSpecific(todo)
        invariant Contents() == StoreSome(was, i, epIx)
        invariant epIx > 0 ==> AcceptedFrom(eps, epIx) == Accepted(was.prevItf, was.prevEpSize, i)
        decreases |eps| - epIx, |todo|
      {
        assert ValidEndpoint(eps[epIx]);
        AheadStep(eps, epIx, todo, after);
        ghost var ahead := Ahead(eps, epIx, todo, after);
        off, ptr := GetNextDesc(buf, off, ptr, total, last, cur, ahead);
        cur := ahead[0];
        StandsAt(buf, total, last, off, cur, ahead[1..]);
        if buf[off + 1] == ENDPOINT {
          FieldsAt(buf, off, EndpointFields(eps[epIx].desc), eps[epIx].tail);
          EndpointReadsBack(buf, off, eps[epIx].desc);
          var desc := EndpointAt(buf, off);
          if prevItf != ifIx {
            prevItf := ifIx;
            itf := itf[ifIx := temp];
          } else if prevEpSize > desc.maxPacketSize {
            left := EndpointRaws(eps[epIx + 1..]);
            NoInterfaceIn(eps[epIx + 1..]);
            break;
          } else {
            itf := itf[ifIx := temp];
          }
          StoreMore(was, i, epIx);
          ep := ep[ifIx := ep[ifIx][epIx := desc]];
          prevEpSize := desc.maxPacketSize;
          epIx := epIx + 1;
          AheadFrom(eps, epIx, after);
          ExtrasAre(i, epIx);
          todo := ExtrasOf(eps, epIx);
        } else {
          todo := todo[1..];
        }
      }
      AheadEnd(eps, epIx, todo, after);
      if left == [] {
        assert left + after == after;
        NoneLeft(left);
      }
    }

    /** USBH_ParseCfgDesc, on the bytes of a configuration. `strays`: what lies behind the
        configuration is taken for an interface; what comes of that is not followed. */
    method ParseCfgDesc(buf: seq<byte>, length: u16, ghost c: Config) returns (status: Status, strays: bool)
      requires Valid(c) && RawAt(buf, 0, ConfigFields(c.header))
      requires length > 9 ==> c.header.totalLength <= |buf| && buf[..c.header.totalLength] == Serialized(c)
      requires length > 9 && |LastRaw(c)| > 9 ==> c.header.totalLength + 1 < |buf|
      requires Contents().t.Valid()
      modifies this
      ensures cfg == c.header
      ensures strays <==> length > 9 && !Unsupported(c) && Strays(buf, c)
      ensures !strays ==> status == if length > 9 && Unsupported(c) then USBH_NOT_SUPPORTED else USBH_OK
      ensures if strays then Contents() == Stored(old(Contents()), c.interfaces, |c.interfaces|)
              else Contents() == Parsed(old(Contents()), length, c)
    {
      hide Stands, Stored, StoreOne, Serialized, ValidInterface, RawAt, LastRaw;
      assert 9 <= |buf| by {
        RawFits(buf, 0, ConfigFields(c.header));
      }
      ConfigReadsBack(buf, c.header);
      cfg := ConfigAt(buf);
      status, strays := USBH_OK, false;
      if length > 9 {
        if cfg.numInterfaces <= MAX_INTERFACES {
          status, strays := ParseInterfaces(buf, c);
          if status == USBH_NOT_SUPPORTED || strays {
            return;
          }
        } else {
          return USBH_NOT_SUPPORTED, false;
        }
        prevEpSize := 0;
        prevItf := 0;
      }
    }

    /** What the outer loop does at the descriptor of interface k. */
    method ParseInterface(buf: seq<byte>, pos: nat, ptr0: u16,
                          ghost total: nat, ghost last: Raw, ghost cur0: Raw, ghost c: Config, ghost k: nat)
      returns (supported: bool, off: nat, ptr: u16, ghost cur: Raw, ghost left: seq<Raw>)
      requires Contents().t.Valid() && k < |c.interfaces| && Regular(c) && ValidInterface(c.interfaces[k])
      requires var i := c.interfaces[k];
               && cur0 == InterfaceRaw(i) && RawAt(buf, pos, cur0)
               && Stands(buf, total, last, pos, cur0, EndpointRaws(i.endpoints) + After(c, k + 1))
      requires ptr0 == pos + 9 && pos < total
      modifies this
      ensures cfg == old(cfg)
      ensures var i := c.interfaces[k];
              && supported == !(i.desc.alternate < 3 && |i.endpoints| > MAX_ENDPOINTS)
              && (supported ==> Fits(i) && Contents() == StoreOne(old(Contents()), i))
              && (!supported ==> Contents() == old(Contents()))
      ensures supported ==> ptr == off + 9 && pos <= off < total && Position(buf, total, last, off, cur, left, c, k + 1)
    {
      hide RawAt, Stands, Position, Regular, StoreOne, Accepted, EndpointRaws, After, AllClassSpecific, IsRaw;
      ghost var i, after := c.interfaces[k], After(c, k + 1);
      off, ptr, cur, left := pos, ptr0, cur0, [];
      FieldsAt(buf, pos, InterfaceFields(i.desc), i.tail);
      RawFits(buf, pos, InterfaceFields(i.desc));
      InterfaceReadsBack(buf, pos, i.desc);
      var temp := InterfaceAt(buf, pos);
      if buf[pos + 3] < 3 {
        if temp.numEndpoints <= MAX_ENDPOINTS {
          off, ptr, cur, left := ParseEndpoints(buf, pos, ptr0, buf[pos + 2], temp, total, last, cur0, i, after);
          PastInterface(buf, total, last, off, cur, left, c, k);
        } else {
          return false, pos, ptr0, cur0, [];
        }
      } else {
        PastAlternate(buf, total, last, pos, cur0, c, k);
        StorePassedOver(Contents(), i);
        left := EndpointRaws(i.endpoints);
      }
      left := left + ExtrasBefore(c, k + 1);
      supported := true;
    }

    /** The outer loop: all descriptors after the first. */
    method ParseInterfaces(buf: seq<byte>, ghost c: Config) returns (status: Status, strays: bool)
      requires Valid(c) && cfg == c.header
      requires c.header.totalLength <= |buf| && buf[..c.header.totalLength] == Serialized(c)
      requires |LastRaw(c)| > 9 ==> c.header.totalLength + 1 < |buf|
      requires Contents().t.Valid()
      modifies this
      ensures cfg == c.header
      ensures status == if Supported(c.interfaces) < |c.interfaces| then USBH_NOT_SUPPORTED else USBH_OK
      ensures strays <==> Supported(c.interfaces) == |c.interfaces| && Strays(buf, c)
      ensures Contents() == Stored(old(Contents()), c.interfaces, Supported(c.interfaces))
    {
      hide RawAt, Stands, Position, Regular, StoreOne, Serialized, ValidInterface, Heads, After, EndpointRaws, Join,
        LastRaw, Stored, Supported, ConfigRaw, ExtrasBefore;
      ghost var total, itfs, last := cfg.totalLength, c.interfaces, LastRaw(c);
      ghost var was, k := Contents(), 0;
      var off: nat, ptr: u16 := 0, 9;
      ghost var cur, left := ConfigRaw(c), ExtrasBefore(c, 0);
      StandsFirst(buf, c);
      SupportedIsStorable(c, Supported(itfs));
      StoredStart(was, itfs);
      while ptr < cfg.totalLength
        invariant k <= Supported(itfs) && cfg == c.header && ptr == off + 9 && off <= total
        invariant off < total ==> Position(buf, total, last, off, cur, left, c, k)
        invariant off == total ==> k == |itfs| && |last| > 9 && buf[total + 1] != INTERFACE
        invariant Contents() == Stored(was, itfs, k)
        decreases total - off
      {
        ghost var rest := left + Heads(c, k);
        MoreToCome(buf, total, last, off, cur, left, c, k);
        off, ptr := GetNextDesc(buf, off, ptr, total, last, cur, rest);
        if rest != [] {
          StandsAt(buf, total, last, off, rest[0], rest[1..]);
          FirstOf(buf, total, last, off, left, c, k);
          cur := rest[0];
        }
        if buf[off + 1] == INTERFACE {
          if off == cfg.totalLength {
            return USBH_OK, true;
          }
          var supported: bool;
          supported, off, ptr, cur, left := ParseInterface(buf, off, ptr, total, last, cur, c, k);
          if !supported {
            return USBH_NOT_SUPPORTED, false;
          }
          StoredMore(was, itfs, k);
          k := k + 1;
        } else if rest != [] {
          left := left[1..];
        }
      }
      if off < total {
        NothingBehind(buf, total, last, off, cur, left, c, k);
        MoreToCome(buf, total, last, off, cur, left, c, k);
      }
      status, strays := USBH_OK, false;
    }
  }

  lemma StoredStart(p: Parser, itfs: seq<Interface>)
    requires p.t.Valid()
    ensures Storable(itfs, 0) && Stored(p, itfs, 0) == p
  {
  }

  lemma StoredMore(p: Parser, itfs: seq<Interface>, k: nat)
    requires p.t.Valid() && k < |itfs| && Storable(itfs, k) && Fits(itfs[k])
    ensures Storable(itfs, k + 1) && Stored(p, itfs, k + 1) == StoreOne(Stored(p, itfs, k), itfs[k])
  {
  }

  lemma AheadEnd(eps: seq<Endpoint>, j: nat, todo: seq<Raw>, after: seq<Raw>)
    ensures |eps| <= j ==> Ahead(eps, j, todo, after) == after
  {
  }

  lemma NoneLeft(left: seq<Raw>)
    requires left == []
    ensures NoInterface(left)
  {
  }

  lemma StoreNone(p: Parser, i: Interface)
    requires p.t.Valid()
    ensures StoreSome(p, i, 0) == p
  {
  }

  lemma StorePassedOver(p: Parser, i: Interface)
    requires p.t.Valid() && Fits(i) && i.desc.alternate >= 3
    ensures StoreOne(p, i) == p
  {
  }

  lemma RawFits(b: seq<byte>, o: nat, r: Raw)
    requires RawAt(b, o, r)
    ensures o + |r| <= |b|
  {
  }

  // -- What the parser recovers ------------------------------------------------------

  predicate Distinct(itfs: seq<Interface>) {
    forall j, k :: 0 <= j < k < |itfs| ==> itfs[j].desc.number != itfs[k].desc.number
  }

  predicate NonDecreasing(eps: seq<Endpoint>) {
    forall j :: 1 <= j < |eps| ==> eps[j - 1].desc.maxPacketSize <= eps[j].desc.maxPacketSize
  }

  /** The tables hold interface i and all its endpoints. */
  predicate Holds(t: Tables, i: Interface)
    requires t.Valid()
  {
    && i.desc.number < MAX_INTERFACES && t.itf[i.desc.number] == i.desc
    && |i.endpoints| <= MAX_ENDPOINTS
    && forall j :: 0 <= j < |i.endpoints| ==> t.ep[i.desc.number][j] == i.endpoints[j].desc
  }

  predicate Recovered(t: Tables, itfs: seq<Interface>)
    requires t.Valid() && Storable(itfs, |itfs|)
  {
    forall k :: 0 <= k < |itfs| ==> Holds(t, itfs[k])
  }

  lemma {:induction false} AcceptedStops(eps: seq<Endpoint>, j: nat)
    requires 1 <= j <= |eps|
    ensures var n := AcceptedFrom(eps, j);
            n < |eps| ==> n >= 1 && eps[n - 1].desc.maxPacketSize > eps[n].desc.maxPacketSize
    ensures forall k :: j <= k < AcceptedFrom(eps, j) ==> eps[k - 1].desc.maxPacketSize <= eps[k].desc.maxPacketSize
    decreases |eps| - j
  {
    if AcceptedFrom(eps, j) == j {
    } else {
      AcceptedStops(eps, j + 1);
    }
  }

  /** The first endpoint is smaller than what was last stored under the same number. */
  predicate Blocked(prevItf: byte, prevEpSize: u16, i: Interface) {
    i.endpoints != [] && prevItf == i.desc.number && prevEpSize > i.endpoints[0].desc.maxPacketSize
  }

  /** An interface that can be stored whole at all. */
  predicate Recoverable(i: Interface) {
    i.desc.alternate < 3 && i.endpoints != [] && NonDecreasing(i.endpoints)
  }

  lemma AcceptedAllIff(prevItf: byte, prevEpSize: u16, i: Interface)
    ensures (i.endpoints != [] && Accepted(prevItf, prevEpSize, i) == |i.endpoints|)
            <==> (Recoverable(i) && !Blocked(prevItf, prevEpSize, i))
  {
    if i.endpoints != [] {
      AcceptedStops(i.endpoints, 1);
    }
  }

  /** Interfaces with different numbers do not touch each other's rows. */
  lemma {:induction false} StoredRow(p: Parser, itfs: seq<Interface>, n: nat, k: nat)
    requires p.t.Valid() && Storable(itfs, n) && Distinct(itfs) && k < |itfs| && itfs[k].desc.number < MAX_INTERFACES
    requires k < n ==> Storable(itfs, k)
    ensures var r, x := Stored(p, itfs, n).t, itfs[k].desc.number;
            if k < n then
              var one := StoreOne(Stored(p, itfs, k), itfs[k]).t;
              r.itf[x] == one.itf[x] && r.ep[x] == one.ep[x]
            else r.itf[x] == p.t.itf[x] && r.ep[x] == p.t.ep[x]
  {
    if n == 0 {
    } else {
      StoredRow(p, itfs, n - 1, k);
    }
  }

  /** For each interface, exactly the endpoints that are accepted are stored, and every
      other entry of its rows is as before. */
  lemma StoredExactly(p: Parser, itfs: seq<Interface>, k: nat)
    requires p.t.Valid() && Storable(itfs, |itfs|) && Distinct(itfs) && k < |itfs|
    ensures Storable(itfs, k)
    ensures var r, q, i := Stored(p, itfs, |itfs|).t, Stored(p, itfs, k), itfs[k];
            var x, n := i.desc.number, Accepted(q.prevItf, q.prevEpSize, i);
            && (x >= MAX_INTERFACES ==> n == 0)
            && (x < MAX_INTERFACES ==>
                  && r.itf[x] == (if n == 0 then p.t.itf[x] else i.desc)
                  && forall j :: 0 <= j < MAX_ENDPOINTS ==>
                       r.ep[x][j] == if j < n then i.endpoints[j].desc else p.t.ep[x][j])
  {
    if itfs[k].desc.number < MAX_INTERFACES {
      StoredRow(p, itfs, |itfs|, k);
      StoredRow(p, itfs, k, k);
    }
  }

  /** What was last stored never concerns an interface still to come, except what was
      there before the configuration. */
  lemma {:induction false} LastStored(p: Parser, itfs: seq<Interface>, n: nat, k: nat)
    requires p.t.Valid() && Storable(itfs, n) && Distinct(itfs) && n <= k < |itfs|
    ensures var q := Stored(p, itfs, n);
            || (q.prevItf == p.prevItf && q.prevEpSize == p.prevEpSize)
            || q.prevItf != itfs[k].desc.number
  {
    if n == 0 {
    } else {
      LastStored(p, itfs, n - 1, k);
    }
  }

  const NOTHING := EndpointDesc(0, 0, 0, 0, 0, 0)

  /** Tables in which no descriptor of a configuration occurs. */
  const EMPTY := Tables([InterfaceDesc(0, 0, 0, 0, 0, 0, 0, 0, 0), InterfaceDesc(0, 0, 0, 0, 0, 0, 0, 0, 0)],
                        [[NOTHING, NOTHING, NOTHING], [NOTHING, NOTHING, NOTHING]])

  lemma EmptyHasNothing(i: Interface, j: nat)
    requires ValidInterface(i) && i.desc.number < MAX_INTERFACES && j < MAX_ENDPOINTS
    ensures EMPTY.Valid() && EMPTY.itf[i.desc.number] != i.desc
    ensures j < |i.endpoints| ==> EMPTY.ep[i.desc.number][j] != i.endpoints[j].desc
  {
    assert EMPTY.ep[i.desc.number][j] == NOTHING;
    if j < |i.endpoints| {
      assert ValidEndpoint(i.endpoints[j]);
    }
  }

  lemma NotRecovered(prevItf: byte, prevEpSize: u16, itfs: seq<Interface>, k: nat)
    requires AllValid(itfs) && Storable(itfs, |itfs|) && Distinct(itfs) && k < |itfs|
    requires !Recoverable(itfs[k]) || (k == 0 && Blocked(prevItf, prevEpSize, itfs[0]))
    ensures EMPTY.Valid() && !Recovered(Stored(Parser(EMPTY, prevItf, prevEpSize), itfs, |itfs|).t, itfs)
  {
    hide NonDecreasing, ValidInterface, Distinct;
    var p, i := Parser(EMPTY, prevItf, prevEpSize), itfs[k];
    assert EMPTY.Valid();
    StoredExactly(p, itfs, k);
    var q := Stored(p, itfs, k);
    var n := Accepted(q.prevItf, q.prevEpSize, i);
    AcceptedAllIff(q.prevItf, q.prevEpSize, i);
    assert ValidInterface(i);
    if i.desc.number < MAX_INTERFACES {
      EmptyHasNothing(i, 0);
      if n != 0 && n < MAX_ENDPOINTS {
        EmptyHasNothing(i, n);
      }
    }
    assert !Holds(Stored(p, itfs, |itfs|).t, i);
  }

  lemma AllRecovered(p: Parser, itfs: seq<Interface>)
    requires p.t.Valid() && Storable(itfs, |itfs|) && Distinct(itfs)
    requires forall k :: 0 <= k < |itfs| ==> Recoverable(itfs[k])
    requires itfs != [] ==> !Blocked(p.prevItf, p.prevEpSize, itfs[0])
    ensures Recovered(Stored(p, itfs, |itfs|).t, itfs)
  {
    hide NonDecreasing, Stored, Distinct, Blocked, Accepted;
    forall k | 0 <= k < |itfs| ensures Holds(Stored(p, itfs, |itfs|).t, itfs[k]) {
      assert Recoverable(itfs[k]);
      StoredExactly(p, itfs, k);
      var q := Stored(p, itfs, k);
      NotBlocked(p, itfs, k);
      AcceptedAllIff(q.prevItf, q.prevEpSize, itfs[k]);
    }
  }

  lemma NotBlocked(p: Parser, itfs: seq<Interface>, k: nat)
    requires p.t.Valid() && Storable(itfs, |itfs|) && Distinct(itfs) && k < |itfs|
    requires forall j :: 0 <= j < |itfs| ==> Recoverable(itfs[j])
    requires itfs != [] && !Blocked(p.prevItf, p.prevEpSize, itfs[0])
    ensures Recoverable(itfs[k]) && !Blocked(Stored(p, itfs, k).prevItf, Stored(p, itfs, k).prevEpSize, itfs[k])
    decreases k
  {
    hide NonDecreasing;
    if k == 0 {
    } else {
      NotBlocked(p, itfs, k - 1);
      var q := Stored(p, itfs, k - 1);
      AcceptedAllIff(q.prevItf, q.prevEpSize, itfs[k - 1]);
    }
  }

  ghost predicate RecoveredFrom(t: Tables, prevItf: byte, prevEpSize: u16, itfs: seq<Interface>)
    requires t.Valid() && Storable(itfs, |itfs|)
  {
    Recovered(Stored(Parser(t, prevItf, prevEpSize), itfs, |itfs|).t, itfs)
  }

  ghost predicate AlwaysRecovered(prevItf: byte, prevEpSize: u16, itfs: seq<Interface>)
    requires Storable(itfs, |itfs|)
  {
    forall t: Tables | t.Valid() :: RecoveredFrom(t, prevItf, prevEpSize, itfs)
  }

  lemma EmptyTablesTell(prevItf: byte, prevEpSize: u16, itfs: seq<Interface>)
    requires Storable(itfs, |itfs|) && AlwaysRecovered(prevItf, prevEpSize, itfs) && EMPTY.Valid()
    ensures Recovered(Stored(Parser(EMPTY, prevItf, prevEpSize), itfs, |itfs|).t, itfs)
  {
    hide Recovered, Stored, Storable, Tables.Valid;
    assert RecoveredFrom(EMPTY, prevItf, prevEpSize, itfs);
  }

  /** Parsing recovers a configuration, whatever the tables held before, exactly when
      every interface has an alternate setting below 3, an endpoint and packet sizes that
      never decrease, and the first is not held against an endpoint that an earlier,
      failed call left in the static variables. */
  lemma RecoversIff(prevItf: byte, prevEpSize: u16, itfs: seq<Interface>)
    requires AllValid(itfs) && Storable(itfs, |itfs|) && Distinct(itfs)
    ensures AlwaysRecovered(prevItf, prevEpSize, itfs)
            <==> (forall k :: 0 <= k < |itfs| ==> Recoverable(itfs[k]))
                 && (itfs != [] ==> !Blocked(prevItf, prevEpSize, itfs[0]))
  {
    hide Stored, Recovered, Recoverable, Distinct, Blocked, AllValid, Storable, Tables.Valid;
    if k :| 0 <= k < |itfs| && !Recoverable(itfs[k]) {
      NotRecovered(prevItf, prevEpSize, itfs, k);
      if AlwaysRecovered(prevItf, prevEpSize, itfs) {
        EmptyTablesTell(prevItf, prevEpSize, itfs);
      }
    } else if itfs != [] && Blocked(prevItf, prevEpSize, itfs[0]) {
      NotRecovered(prevItf, prevEpSize, itfs, 0);
      if AlwaysRecovered(prevItf, prevEpSize, itfs) {
        EmptyTablesTell(prevItf, prevEpSize, itfs);
      }
    } else {
      forall t: Tables | t.Valid()
        ensures RecoveredFrom(t, prevItf, prevEpSize, itfs)
      {
        AllRecovered(Parser(t, prevItf, prevEpSize), itfs);
      }
    }
  }

  /** Such an endpoint is left whenever a call fails on an interface with too many endpoints:
      the last one stored of the interface before it, if any was. */
  lemma FailedCallLeaves(p: Parser, length: u16, c: Config)
    requires p.t.Valid() && Valid(c) && length > 9 && c.header.numInterfaces <= MAX_INTERFACES
    requires 0 < Supported(c.interfaces) < |c.interfaces|
    ensures var n := Supported(c.interfaces);
            && Storable(c.interfaces, n - 1)
            && var q, a := Stored(p, c.interfaces, n - 1), c.interfaces[n - 1];
               var m := Accepted(q.prevItf, q.prevEpSize, a);
               m > 0 ==>
                 var r := Parsed(p, length, c);
                 r.prevItf == a.desc.number && r.prevEpSize == a.endpoints[m - 1].desc.maxPacketSize
  {
    assert AllValid(c.interfaces);
    hide Valid, Accepted, Row, HasRow;
    var n := Supported(c.interfaces);
    SupportedIsStorable(c, n);
    assert Storable(c.interfaces, n - 1);
    assert Stored(p, c.interfaces, n) == StoreOne(Stored(p, c.interfaces, n - 1), c.interfaces[n - 1]);
    hide Stored, Supported;
  }

  /** And a call that succeeds leaves none: what it stores, the next one recovers exactly when
      every interface can be. */
  lemma SuccessLeavesNone(p: Parser, length: u16, c: Config, itfs: seq<Interface>)
    requires p.t.Valid() && Valid(c) && length > 9 && !Unsupported(c)
    requires AllValid(itfs) && Storable(itfs, |itfs|) && Distinct(itfs)
    ensures var q := Parsed(p, length, c);
            && Supported(c.interfaces) == |c.interfaces| && Storable(c.interfaces, |c.interfaces|)
            && q.t == Stored(p, c.interfaces, |c.interfaces|).t
            && (AlwaysRecovered(q.prevItf, q.prevEpSize, itfs)
                <==> forall k :: 0 <= k < |itfs| ==> Recoverable(itfs[k]))
  {
    SupportedIsStorable(c, Supported(c.interfaces));
    var q := Parsed(p, length, c);
    RecoversIff(q.prevItf, q.prevEpSize, itfs);
    hide Stored, AlwaysRecovered, Valid, AllValid, Distinct;
  }
}
