/**
  Allocation and configuration of the eight host channels. `channel[i]` holds a
  used flag and an endpoint address; `hc[i]` the endpoint's parameters.
*/
module Hcs {
  import opened Channel
  import opened Words

  const HC_MAX := 8
  const HC_USED := 0x8000
  const HC_ERROR := 0xffff

  /** The parameters of a channel. `reg*` are the copies in its HCCHAR register,
      which is what the next transfer uses. */
  datatype Hc = Hc(
    devAddr: u8, epNum: u8, epIsIn: bool, epType: EpType, maxPacket: u16, speed: u8, doPing: bool,
    toggleOut: bool, toggleIn: bool, regAddr: u8, regIsIn: bool)

  const HPRT0_PRTSPD_HIGH_SPEED := 0
  const HPRT0_PRTSPD_FULL_SPEED := 1

  datatype Channels = Channels(channel: seq<u16>, hc: seq<Hc>)

  ghost predicate Sized(s: Channels) { |s.channel| == |s.hc| == HC_MAX }

  predicate Used(c: u16) { c >= HC_USED }

  /** Every free channel has a lower-numbered one, or is the first free one. */
  function FirstFree(channel: seq<u16>): nat {
    if channel == [] then 0 else if !Used(channel[0]) then 0 else 1 + FirstFree(channel[1..])
  }

  lemma {:induction false} FirstFreeAt(channel: seq<u16>, i: nat)
    requires i <= |channel| && (forall j :: 0 <= j < i ==> Used(channel[j]))
    requires i < |channel| ==> !Used(channel[i])
    ensures FirstFree(channel) == i
  {
    if i == 0 {
    } else {
      FirstFreeAt(channel[1..], i - 1);
    }
  }

  /** The channel that USBH_Alloc_Channel returns (as a byte), and its effect. */
  function AllocResult(s: Channels): u8 {
    var i := FirstFree(s.channel);
    if i < HC_MAX then i else HC_ERROR % 0x100
  }

  function Alloc(s: Channels, epAddr: u8): Channels
    requires Sized(s)
  {
    var i := FirstFree(s.channel);
    if i < HC_MAX then s.(channel := s.channel[i := HC_USED + epAddr]) else s
  }

  function Free(s: Channels, i: u8): Channels
    requires Sized(s)
  {
    if i < HC_MAX then s.(channel := s.channel[i := s.channel[i] % HC_USED]) else s
  }

  function FreeAll(s: Channels): Channels
    requires Sized(s)
  {
    s.(channel := s.channel[..2] + [0, 0, 0, 0, 0, 0])
  }

  /** USB_OTG_HC_Init, as far as the HCCHAR register goes */
  function HcInit(h: Hc): Hc { h.(regAddr := h.devAddr, regIsIn := h.epIsIn) }

  /** A ping setting, once made, stays. */
  function OpenHc(h: Hc, channel: u16, address: u8, speed: u8, epType: EpType, mps: u16): Hc {
    HcInit(Hc(address, channel % 0x80, channel / 0x80 % 2 == 1, epType, mps, speed,
              h.doPing || speed == HPRT0_PRTSPD_HIGH_SPEED, false, false, h.regAddr, h.regIsIn))
  }

  function ModifyHc(h: Hc, address: u8, speed: u8, mps: u16): Hc {
    HcInit(h.(devAddr := if address != 0 then address else h.devAddr,
              speed := if speed != 0 then speed else h.speed,
              maxPacket := if mps != 0 then mps else h.maxPacket))
  }

  function Open(s: Channels, i: u8, address: u8, speed: u8, epType: EpType, mps: u16): Channels
    requires Sized(s) && i < HC_MAX
  {
    s.(hc := s.hc[i := OpenHc(s.hc[i], s.channel[i], address, speed, epType, mps)])
  }

  function Modify(s: Channels, i: u8, address: u8, speed: u8, mps: u16): Channels
    requires Sized(s) && i < HC_MAX
  {
    s.(hc := s.hc[i := ModifyHc(s.hc[i], address, speed, mps)])
  }

  ghost function UsedSet(s: Channels): (u: set<int>)
    requires Sized(s)
    ensures forall i {:trigger s.channel[i]} :: 0 <= i < HC_MAX ==> (i in u <==> Used(s.channel[i]))
  {
    set i | 0 <= i < HC_MAX && Used(s.channel[i])
  }

  /** While fewer than eight channels are used, allocation takes a free one and
      leaves the others alone; freeing gives back exactly that one. */
  lemma AllocTakesFree(s: Channels, epAddr: u8)
    requires Sized(s) && exists i :: 0 <= i < HC_MAX && i !in UsedSet(s)
    ensures var i := AllocResult(s);
            && i < HC_MAX && i !in UsedSet(s)
            && UsedSet(Alloc(s, epAddr)) == UsedSet(s) + {i}
            && UsedSet(Free(Alloc(s, epAddr), i)) == UsedSet(s)
  {
    var i := 0;
    while i < HC_MAX && Used(s.channel[i])
      invariant 0 <= i <= HC_MAX && forall j :: 0 <= j < i ==> Used(s.channel[j])
    {
      i := i + 1;
    }
    FirstFreeAt(s.channel, i);
  }

  /** Without a free channel there is no channel number, and nothing is taken. */
  lemma AllocFails(s: Channels, epAddr: u8)
    requires Sized(s) && forall i :: 0 <= i < HC_MAX ==> Used(s.channel[i])
    ensures AllocResult(s) == 0xff && Alloc(s, epAddr) == s
  {
    FirstFreeAt(s.channel, 8);
  }

  /** Freeing all channels leaves those of the control pipe as they are. */
  lemma FreeAllLeavesControl(s: Channels)
    requires Sized(s)
    ensures Sized(FreeAll(s)) && UsedSet(FreeAll(s)) == UsedSet(s) * {0, 1} && FreeAll(s).hc == s.hc
    ensures FreeAll(s).channel[0] == s.channel[0] && FreeAll(s).channel[1] == s.channel[1]
  {
  }

  /** The arrays of the core handle, updated in place. */
  class OtgCore {
    const channel: array<u16>
    const hc: array<Hc>

    ghost predicate Valid() {
      channel.Length == HC_MAX && hc.Length == HC_MAX
    }

    ghost function View(): (s: Channels)
      reads channel, hc
      ensures Valid() ==> Sized(s)
    {
      Channels(channel[..], hc[..])
    }

    /** USBH_GetFreeChannel */
    method GetFreeChannel() returns (idx: u16)
      requires Valid()
      ensures idx == if FirstFree(View().channel) < HC_MAX then FirstFree(View().channel) else HC_ERROR
    {
      idx := 0;
      while idx < HC_MAX
        invariant idx <= HC_MAX && forall j :: 0 <= j < idx ==> Used(channel[j])
      {
        if !Used(channel[idx]) {
          FirstFreeAt(channel[..], idx);
          return;
        }
        idx := idx + 1;
      }
      FirstFreeAt(channel[..], idx);
      idx := HC_ERROR;
    }

    /** USBH_Alloc_Channel */
    method AllocChannel(epAddr: u8) returns (hcNum: u8)
      requires Valid()
      modifies channel
      ensures hcNum == AllocResult(old(View())) && View() == Alloc(old(View()), epAddr)
    {
      var idx := GetFreeChannel();
      if idx != HC_ERROR {
        channel[idx] := HC_USED + epAddr;
      }
      hcNum := idx % 0x100;
    }

    /** USBH_Free_Channel */
    method FreeChannel(idx: u8)
      requires Valid()
      modifies channel
      ensures View() == Free(old(View()), idx)
    {
      if idx < HC_MAX {
        channel[idx] := channel[idx] % HC_USED;
      }
    }

    /** USBH_DeAllocate_AllChannel */
    method DeAllocateAllChannels()
      requires Valid()
      modifies channel
      ensures View() == FreeAll(old(View()))
    {
      var idx := 2;
      while idx < HC_MAX
        invariant 2 <= idx <= HC_MAX
        invariant forall j :: 0 <= j < HC_MAX ==>
                    channel[j] == if 2 <= j < idx then 0 else old(channel[j])
        modifies channel
      {
        channel[idx] := 0;
        idx := idx + 1;
      }
      assert channel[..] == old(channel[..2]) + [0, 0, 0, 0, 0, 0];
    }

    /** USBH_Open_Channel */
    method OpenChannel(i: u8, address: u8, speed: u8, epType: EpType, mps: u16)
      requires Valid() && i < HC_MAX
      modifies hc
      ensures View() == Open(old(View()), i, address, speed, epType, mps)
    {
      hc[i] := hc[i].(epNum := channel[i] % 0x80, epIsIn := channel[i] / 0x80 % 2 == 1,
                      devAddr := address, epType := epType, maxPacket := mps, speed := speed,
                      toggleIn := false, toggleOut := false);
      if speed == HPRT0_PRTSPD_HIGH_SPEED {
        hc[i] := hc[i].(doPing := true);
      }
      hc[i] := HcInit(hc[i]);
    }

    /** USBH_Modify_Channel */
    method ModifyChannel(i: u8, address: u8, speed: u8, mps: u16)
      requires Valid() && i < HC_MAX
      modifies hc
      ensures View() == Modify(old(View()), i, address, speed, mps)
    {
      if address != 0 {
        hc[i] := hc[i].(devAddr := address);
      }
      if hc[i].maxPacket != mps && mps != 0 {
        hc[i] := hc[i].(maxPacket := mps);
      }
      if hc[i].speed != speed && speed != 0 {
        hc[i] := hc[i].(speed := speed);
      }
      hc[i] := HcInit(hc[i]);
    }
  }
}
