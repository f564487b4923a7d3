/**
 What `GetDevices` produces, written as functions of what the SDK reports:
 the devices each SDK device contributes (channel sub-devices, the cooler
 pump, the parent with its LEDs), the walk over all devices with the shared
 model counter, and the final renaming of equal names.
 */
module Discovery {
  import opened Text
  import opened CorsairSdk
  import opened DeviceInfo
  import opened Classification
  import opened Addressing
  import opened ControlDevices
  import opened Ordering
  import opened Dedup

  /** `DeviceName.Replace("Corsair", "").Trim()`: the title shown for a device. */
  function FriendlyName(deviceName: string): string
  {
    Trim(RemoveAll(deviceName, Manufacturer))
  }

  /** "Channel 1", "Channel 2", ... for channel numbers counted from 0. */
  function ChannelLabel(channel: int): string
  {
    "Channel " + IntToString(channel + 1)
  }

  /** How many times a `for (i = 0; i < n; i++)` loop runs. */
  function LoopCount(n: int): nat
  {
    if n < 0 then 0 else n
  }

  function Max0(n: int): nat
  {
    if n < 0 then 0 else n
  }

  /**
   What the walk knows of the SDK device it is expanding: its index, unique
   name and type, and the two values it derives from them once, before the
   capability check: the friendly name shown as its title and its thumbnail.
   */
  datatype Parent = Parent(index: int, deviceName: string, title: string, imageKey: string, deviceType: CorsairDeviceType)

  /** The parent record for device `index` named `deviceName`. */
  function ParentOf(index: int, deviceName: string, t: CorsairDeviceType): Parent
  {
    Parent(index, deviceName, FriendlyName(deviceName), ImageKey(deviceName, GetDeviceType(t)), t)
  }

  /** "<title> <k>": the name of LED `k` of a device. */
  function LedName(title: string, k: int): string
  {
    title + " " + IntToString(k)
  }

  /** LED `j` of a channel sub-device whose first LED is `ref`; it is named after the parent. */
  function SubDeviceLed(parentTitle: string, ref: int, ledCount: int, j: int): LedUnit
  {
    LedUnit(Plain(j, LedAddress(ref, ledCount, j)), LedName(parentTitle, j), Unlit)
  }

  /** The first `n` LEDs of a channel sub-device, as its LED loop appends them. */
  function SubDeviceLedsUpTo(parentTitle: string, ref: int, ledCount: int, n: nat): (leds: seq<LedUnit>)
    ensures |leds| == n
    ensures forall j :: 0 <= j < n ==> leds[j] == SubDeviceLed(parentTitle, ref, ledCount, j)
  {
    if n == 0 then [] else SubDeviceLedsUpTo(parentTitle, ref, ledCount, n - 1) + [SubDeviceLed(parentTitle, ref, ledCount, n - 1)]
  }

  function SubDeviceLeds(parentTitle: string, ref: int, ledCount: int): (leds: seq<LedUnit>)
    ensures |leds| == LoopCount(ledCount)
  {
    SubDeviceLedsUpTo(parentTitle, ref, ledCount, LoopCount(ledCount))
  }

  /** LED `j` of a cooler pump: flat addressing from the channel's reference id. */
  function PumpLed(ref: int, j: int): LedUnit
  {
    LedUnit(Plain(j, ref + j), "Pump " + IntToString(j), Unlit)
  }

  /** The first `n` LEDs of a cooler pump. */
  function PumpLedsUpTo(ref: int, n: nat): (leds: seq<LedUnit>)
    ensures |leds| == n
    ensures forall j :: 0 <= j < n ==> leds[j] == PumpLed(ref, j)
  {
    if n == 0 then [] else PumpLedsUpTo(ref, n - 1) + [PumpLed(ref, n - 1)]
  }

  function PumpLeds(ref: int, ledCount: int): (leds: seq<LedUnit>)
    ensures |leds| == LoopCount(ledCount)
  {
    PumpLedsUpTo(ref, LoopCount(ledCount))
  }

  /** The pump a cooler gets in place of the sub-devices of its first channel. */
  function PumpDevice(p: Parent, channel: int, ref: int, ledCount: int): ControlDevice
  {
    ControlDevice(p.title, Some(ChannelLabel(channel)), Some(p.deviceName),
      p.imageKey, p.index, GetDeviceType(p.deviceType), Some(PumpLeds(ref, ledCount)), None)
  }

  /** Sub-device `dev` of a channel, built from the channel's first device record. */
  function SubDevice(p: Parent, channel: int, ref: int, cls: SubDeviceClass, ledCount: int, dev: int): ControlDevice
  {
    ControlDevice(cls.name + " " + IntToString(dev + 1), Some(ChannelLabel(channel)), Some(p.deviceName),
      cls.imageKey, p.index, cls.kind,
      Some(SubDeviceLeds(p.title, ref + dev * ledCount, ledCount)), None)
  }

  /** The first `n` sub-devices of a channel, as its device loop appends them. */
  function SubDevicesUpTo(p: Parent, channel: int, ref: int, cls: SubDeviceClass, ledCount: int, n: nat): (ds: seq<ControlDevice>)
    ensures |ds| == n
    ensures forall dev :: 0 <= dev < n ==> ds[dev] == SubDevice(p, channel, ref, cls, ledCount, dev)
  {
    if n == 0 then [] else SubDevicesUpTo(p, channel, ref, cls, ledCount, n - 1) + [SubDevice(p, channel, ref, cls, ledCount, n - 1)]
  }

  /**
   The devices one channel contributes. Only the first device record of the
   channel is read, so every sub-device is built from it.
   */
  function ChannelProducts(p: Parent, channel: int, ch: ChannelInfo, bases: ChannelBases): (ds: seq<ControlDevice>)
    ensures |ds| == if p.deviceType == CorsairDeviceType.Cooler && channel == 0 then 1 else LoopCount(ch.devicesCount)
  {
    var ref := GetChannelReferenceId(p.deviceType, channel, bases);
    if p.deviceType == CorsairDeviceType.Cooler && channel == 0 then
      [PumpDevice(p, channel, ref, ch.firstDevice.deviceLedCount)]
    else
      var cd := ch.firstDevice;
      SubDevicesUpTo(p, channel, ref, ClassifySubDevice(cd.deviceType, cd.deviceLedCount), cd.deviceLedCount, LoopCount(ch.devicesCount))
  }

  /**
   The devices of channels 0 .. n-1. Only the first channel record is read,
   so every channel is described by the same record; channels differ only in
   their number.
   */
  function ChannelsProducts(p: Parent, ch: ChannelInfo, n: nat, bases: ChannelBases): seq<ControlDevice>
  {
    if n == 0 then [] else ChannelsProducts(p, ch, n - 1, bases) + ChannelProducts(p, n - 1, ch, bases)
  }

  /** A keyboard LED: numbered in LED-id order, placed at (left, top - 38) with the row clamped at 0. */
  function KeyboardLed(title: string, ctr: int, lp: LedPosition): LedUnit
  {
    LedUnit(Positional(ctr, lp.ledId, lp.left, Max0(lp.top - 38)), LedName(title, ctr), Unlit)
  }

  /** The first `n` keyboard LEDs numbered along an already ordered position table. */
  function KeyboardNumbered(title: string, s: seq<LedPosition>, n: nat): (leds: seq<LedUnit>)
    requires n <= |s|
    ensures |leds| == n
    ensures forall k :: 0 <= k < n ==> leds[k] == KeyboardLed(title, k, s[k])
  {
    if n == 0 then [] else KeyboardNumbered(title, s, n - 1) + [KeyboardLed(title, n - 1, s[n - 1])]
  }

  function KeyboardLeds(title: string, ps: seq<LedPosition>): (leds: seq<LedUnit>)
    ensures |leds| == |ps|
  {
    var s := OrderBy(ps, ByLedId);
    KeyboardNumbered(title, s, |s|)
  }

  /** Any other LED: numbered in `top + left` order, without coordinates. */
  function PlainLed(title: string, ctr: int, lp: LedPosition): LedUnit
  {
    LedUnit(Plain(ctr, lp.ledId), LedName(title, ctr), Unlit)
  }

  /** The first `n` plain LEDs numbered along an already ordered position table. */
  function PlainNumbered(title: string, s: seq<LedPosition>, n: nat): (leds: seq<LedUnit>)
    requires n <= |s|
    ensures |leds| == n
    ensures forall k :: 0 <= k < n ==> leds[k] == PlainLed(title, k, s[k])
  {
    if n == 0 then [] else PlainNumbered(title, s, n - 1) + [PlainLed(title, n - 1, s[n - 1])]
  }

  function PlainLeds(title: string, ps: seq<LedPosition>): (leds: seq<LedUnit>)
    ensures |leds| == |ps|
  {
    var s := OrderBy(ps, ByTopLeft);
    PlainNumbered(title, s, |s|)
  }

  /** The largest `left` of a non-empty position table. */
  function MaxLeft(ps: seq<LedPosition>): (m: int)
    requires |ps| > 0
    ensures forall k :: 0 <= k < |ps| ==> ps[k].left <= m
    ensures exists k :: 0 <= k < |ps| && ps[k].left == m
    decreases |ps|
  {
    if |ps| == 1 then ps[0].left
    else
      var rest := MaxLeft(ps[1..]);
      assert forall k :: 1 <= k < |ps| ==> ps[k] == ps[1..][k - 1];
      if ps[0].left >= rest then ps[0].left else rest
  }

  /** The largest `top` of a non-empty position table. */
  function MaxTop(ps: seq<LedPosition>): (m: int)
    requires |ps| > 0
    ensures forall k :: 0 <= k < |ps| ==> ps[k].top <= m
    ensures exists k :: 0 <= k < |ps| && ps[k].top == m
    decreases |ps|
  {
    if |ps| == 1 then ps[0].top
    else
      var rest := MaxTop(ps[1..]);
      assert forall k :: 1 <= k < |ps| ==> ps[k] == ps[1..][k - 1];
      if ps[0].top >= rest then ps[0].top else rest
  }

  /** The device types the walk expands but never lists itself. */
  predicate IsHub(t: CorsairDeviceType)
  {
    t == CommanderPro || t == LightningNodePro || t == CorsairDeviceType.Cooler
  }

  function ParentDevice(p: Parent, leds: Option<seq<LedUnit>>, grid: Option<Grid>): ControlDevice
  {
    ControlDevice(p.title, None, None, p.imageKey, p.index,
      GetDeviceType(p.deviceType), leds, grid)
  }

  /**
   The parent device with whatever LEDs it gets: none when it has channels,
   the positional LEDs and a grid for a keyboard with positions (none for a
   keyboard without), the ordered plain LEDs otherwise.
   */
  function ParentWithLeds(p: Parent, chs: ChannelsInfo, ps: seq<LedPosition>): ControlDevice
  {
    var title := p.title;
    if chs.channelsCount > 0 then ParentDevice(p, None, None)
    else if p.deviceType == CorsairDeviceType.Keyboard then
      if |ps| > 0 then ParentDevice(p, Some(KeyboardLeds(title, ps)), Some(Grid(MaxLeft(ps), MaxTop(ps))))
      else ParentDevice(p, None, None)
    else ParentDevice(p, Some(PlainLeds(title, ps)), None)
  }

  /**
   Everything one SDK device contributes, in order: nothing without the
   lighting capability or without a channel structure; otherwise its channel
   products followed by itself unless it is a hub.
   */
  function DeviceProducts(p: Parent, info: NativeDeviceInfo, ps: seq<LedPosition>, bases: ChannelBases): (ds: seq<ControlDevice>)
    ensures !HasFlag(info.capsMask, Lighting) ==> ds == []
    ensures info.channels.None? ==> ds == []
  {
    if !HasFlag(info.capsMask, Lighting) then []
    else
      match info.channels
      case None => []
      case Some(chs) =>
        var children := if chs.channelsCount > 0 then ChannelsProducts(p, chs.firstChannel, chs.channelsCount, bases) else [];
        children + (if IsHub(p.deviceType) then [] else [ParentWithLeds(p, chs, ps)])
  }

  predicate ModelsPresent(raws: seq<RawDevice>)
  {
    forall k :: 0 <= k < |raws| ==> raws[k].info.model.Some?
  }

  /**
   The normalised model of a device. A null model makes the walk fail before
   its name is needed, so the empty string standing in for it is never used.
   */
  function ModelOf(raw: RawDevice): string
  {
    match NormaliseModel(raw.info.model)
    case Some(m) => m
    case None => ""
  }

  /** The normalised models of the devices, in order. */
  function Models(raws: seq<RawDevice>): (ms: seq<string>)
    ensures |ms| == |raws|
    ensures forall k :: 0 <= k < |raws| ==> ms[k] == ModelOf(raws[k])
  {
    seq(|raws|, k requires 0 <= k < |raws| => ModelOf(raws[k]))
  }

  /**
   The name device `i` gets from the shared counter: the counter has seen the
   models of every earlier device, whether or not those had lighting, because
   each device is named before its capabilities are looked at.
   */
  function DeviceNameAt(raws: seq<RawDevice>, i: nat): string
    requires i < |raws|
  {
    var ms := Models(raws);
    UniqueModelName(ms[i], CountsAfter(ms[..i], map[])).0
  }

  /** The devices the walk lists for SDK devices 0 .. n-1, in order. */
  function Discovered(raws: seq<RawDevice>, n: nat, bases: ChannelBases): seq<ControlDevice>
    requires n <= |raws|
  {
    if n == 0 then []
    else
      var info := raws[n - 1].info;
      Discovered(raws, n - 1, bases)
      + DeviceProducts(ParentOf(n - 1, DeviceNameAt(raws, n - 1), info.deviceType), info, raws[n - 1].positions, bases)
  }

  /**
   The list `GetDevices` returns: a device with a null model makes the whole
   call fail; otherwise the walk's devices, with equal names told apart.
   */
  function GetDevicesResult(raws: seq<RawDevice>, bases: ChannelBases): (r: Option<seq<ControlDevice>>)
    ensures r.None? <==> exists k :: 0 <= k < |raws| && raws[k].info.model.None?
  {
    if ModelsPresent(raws) then Some(Deduped(Discovered(raws, |raws|, bases))) else None
  }

  // ---------------------------------------------------------------------------
  // What a single device contributes

  /** Every channel product hangs off a channel of the parent and carries the parent's name as its title. */
  lemma {:induction false} ChannelProductsAttached(p: Parent, ch: ChannelInfo, n: nat, bases: ChannelBases)
    ensures forall d :: d in ChannelsProducts(p, ch, n, bases) ==>
      d.connectedTo.Some? && d.titleOverride == Some(p.deviceName) && d.corsairDeviceIndex == p.index
  {
    if n > 0 {
      ChannelProductsAttached(p, ch, n - 1, bases);
      ChannelMembers(p, n - 1, ch, bases);
    }
  }

  /**
   What every device of one channel shares: it hangs off that channel of the
   parent; off a cooler's first channel, it also has the kind, thumbnail and
   LED count of the channel's first device record.
   */
  lemma ChannelMembers(p: Parent, channel: int, ch: ChannelInfo, bases: ChannelBases)
    ensures forall d :: d in ChannelProducts(p, channel, ch, bases) ==>
      d.connectedTo == Some(ChannelLabel(channel)) && d.titleOverride == Some(p.deviceName) && d.corsairDeviceIndex == p.index
    ensures !(p.deviceType == CorsairDeviceType.Cooler && channel == 0) ==>
      var cls := ClassifySubDevice(ch.firstDevice.deviceType, ch.firstDevice.deviceLedCount);
      forall d :: d in ChannelProducts(p, channel, ch, bases) ==>
        d.kind == cls.kind && d.imageKey == cls.imageKey
        && d.leds.Some? && |d.leds.value| == LoopCount(ch.firstDevice.deviceLedCount)
  {
    if !(p.deviceType == CorsairDeviceType.Cooler && channel == 0) {
      var cd := ch.firstDevice;
      var cls := ClassifySubDevice(cd.deviceType, cd.deviceLedCount);
      var ref := GetChannelReferenceId(p.deviceType, channel, bases);
      var s := SubDevicesUpTo(p, channel, ref, cls, cd.deviceLedCount, LoopCount(ch.devicesCount));
      assert ChannelProducts(p, channel, ch, bases) == s;
      forall d | d in s
        ensures d.connectedTo == Some(ChannelLabel(channel)) && d.titleOverride == Some(p.deviceName) && d.corsairDeviceIndex == p.index
        ensures d.kind == cls.kind && d.imageKey == cls.imageKey
        ensures d.leds.Some? && |d.leds.value| == LoopCount(cd.deviceLedCount)
      {
        var k :| 0 <= k < |s| && s[k] == d;
        assert d == SubDevice(p, channel, ref, cls, cd.deviceLedCount, k);
      }
    }
  }

  /**
   Hubs (Commander Pro, Lightning Node Pro, coolers) are never listed
   themselves: everything they contribute is attached to one of their channels.
   Any other device with lighting and a channel structure lists itself last.
   */
  lemma HubsNeverListed(p: Parent, info: NativeDeviceInfo, ps: seq<LedPosition>, bases: ChannelBases)
    ensures IsHub(p.deviceType) ==> forall d :: d in DeviceProducts(p, info, ps, bases) ==> d.connectedTo.Some?
    ensures !IsHub(p.deviceType) && HasFlag(info.capsMask, Lighting) && info.channels.Some? ==>
      var ds := DeviceProducts(p, info, ps, bases);
      |ds| > 0 && ds[|ds| - 1] == ParentWithLeds(p, info.channels.value, ps) && ds[|ds| - 1].connectedTo.None?
  {
    if HasFlag(info.capsMask, Lighting) && info.channels.Some? {
      var chs := info.channels.value;
      if chs.channelsCount > 0 {
        ChannelProductsAttached(p, chs.firstChannel, chs.channelsCount, bases);
      }
    }
  }

  /** How many devices the channels give: one pump for a cooler's first channel, `devicesCount` for every other. */
  lemma {:induction false} ChannelsProductsCount(p: Parent, ch: ChannelInfo, n: nat, bases: ChannelBases)
    ensures p.deviceType != CorsairDeviceType.Cooler ==> |ChannelsProducts(p, ch, n, bases)| == n * LoopCount(ch.devicesCount)
    ensures p.deviceType == CorsairDeviceType.Cooler && n > 0 ==> |ChannelsProducts(p, ch, n, bases)| == 1 + (n - 1) * LoopCount(ch.devicesCount)
  {
    if n > 0 {
      var count := LoopCount(ch.devicesCount);
      ChannelsProductsCount(p, ch, n - 1, bases);
      assert |ChannelsProducts(p, ch, n, bases)| == |ChannelsProducts(p, ch, n - 1, bases)| + |ChannelProducts(p, n - 1, ch, bases)|;
      assert (n - 1) * count + count == n * count;
      if n > 1 {
        assert 1 + (n - 2) * count + count == 1 + (n - 1) * count;
      }
    }
  }

  /**
   A cooler's first channel is a pump and nothing else: one device with the
   parent's title, type and image, whose LED `j` is "Pump j" at the liquid
   cooler's first id plus `j`.
   */
  lemma PumpReplacesFirstChannel(p: Parent, ch: ChannelInfo, bases: ChannelBases)
    requires p.deviceType == CorsairDeviceType.Cooler
    ensures var ds := ChannelProducts(p, 0, ch, bases);
      |ds| == 1 && ds[0].name == p.title && ds[0].kind == DeviceKind.Cooler
      && ds[0].imageKey == p.imageKey && ds[0].connectedTo == Some(ChannelLabel(0))
      && ds[0].leds.Some? && |ds[0].leds.value| == LoopCount(ch.firstDevice.deviceLedCount)
      && forall j :: 0 <= j < |ds[0].leds.value| ==>
        ds[0].leds.value[j].data == Plain(j, bases.liquidCooler + j)
        && ds[0].leds.value[j].name == "Pump " + IntToString(j)
  {
  }

  /**
   Sub-device `dev` of a channel: its LED `j` is numbered `j`, addressed by
   the band formula from the channel's reference id plus `dev` times the LED
   count, and named after the parent device.
   */
  lemma SubDeviceLedAddresses(p: Parent, channel: int, ch: ChannelInfo, bases: ChannelBases, dev: nat, j: nat)
    requires !(p.deviceType == CorsairDeviceType.Cooler && channel == 0)
    requires dev < LoopCount(ch.devicesCount) && j < LoopCount(ch.firstDevice.deviceLedCount)
    ensures var d := ChannelProducts(p, channel, ch, bases)[dev];
      var count := ch.firstDevice.deviceLedCount;
      var ref := GetChannelReferenceId(p.deviceType, channel, bases) + dev * count;
      d.leds.Some? && |d.leds.value| == LoopCount(count)
      && d.leds.value[j].data == Plain(j, LedAddress(ref, count, j))
      && d.leds.value[j].name == p.title + " " + IntToString(j)
  {
    var cd := ch.firstDevice;
    var cls := ClassifySubDevice(cd.deviceType, cd.deviceLedCount);
    var ref := GetChannelReferenceId(p.deviceType, channel, bases);
    var s := SubDevicesUpTo(p, channel, ref, cls, cd.deviceLedCount, LoopCount(ch.devicesCount));
    assert ChannelProducts(p, channel, ch, bases) == s;
    assert s[dev] == SubDevice(p, channel, ref, cls, cd.deviceLedCount, dev);
    var leds := SubDeviceLeds(p.title, ref + dev * cd.deviceLedCount, cd.deviceLedCount);
    assert leds[j] == SubDeviceLed(p.title, ref + dev * cd.deviceLedCount, cd.deviceLedCount, j);
  }

  /**
   With at most 30 LEDs per sub-device, the LEDs of different sub-devices of one
   channel, and different LEDs of one sub-device, never share an id.
   */
  lemma {:induction false} ChannelLedIdsDistinct(p: Parent, channel: int, ch: ChannelInfo, bases: ChannelBases,
                                                dev1: nat, j1: nat, dev2: nat, j2: nat)
    requires !(p.deviceType == CorsairDeviceType.Cooler && channel == 0) && ch.firstDevice.deviceLedCount <= 30
    requires dev1 < LoopCount(ch.devicesCount) && j1 < LoopCount(ch.firstDevice.deviceLedCount)
    requires dev2 < LoopCount(ch.devicesCount) && j2 < LoopCount(ch.firstDevice.deviceLedCount)
    requires (dev1, j1) != (dev2, j2)
    ensures ChannelProducts(p, channel, ch, bases)[dev1].leds.value[j1].data.ledId
         != ChannelProducts(p, channel, ch, bases)[dev2].leds.value[j2].data.ledId
  {
    var count := ch.firstDevice.deviceLedCount;
    SubDeviceLedAddresses(p, channel, ch, bases, dev1, j1);
    SubDeviceLedAddresses(p, channel, ch, bases, dev2, j2);
    if dev1 < dev2 {
      BlocksApart(dev1, j1, dev2, j2, count);
    } else if dev2 < dev1 {
      BlocksApart(dev2, j2, dev1, j1, count);
    }
  }

  /** LED `j1` of block `dev1` lies below every LED of a later block `dev2`. */
  lemma BlocksApart(dev1: nat, j1: nat, dev2: nat, j2: nat, count: int)
    requires dev1 < dev2 && j1 < count
    ensures dev1 * count + j1 < dev2 * count + j2
  {
    assert (dev1 + 1) * count <= dev2 * count by {
      assert dev2 * count - (dev1 + 1) * count == (dev2 - dev1 - 1) * count;
    }
  }

  /**
   Only the first channel and the first channel device are read: on a
   non-cooler, every sub-device on every channel has the same kind, thumbnail
   and LED count.
   */
  lemma {:induction false} ChannelsReadOnce(p: Parent, ch: ChannelInfo, n: nat, bases: ChannelBases)
    requires p.deviceType != CorsairDeviceType.Cooler
    ensures var cls := ClassifySubDevice(ch.firstDevice.deviceType, ch.firstDevice.deviceLedCount);
      forall d :: d in ChannelsProducts(p, ch, n, bases) ==>
        d.kind == cls.kind && d.imageKey == cls.imageKey
        && d.leds.Some? && |d.leds.value| == LoopCount(ch.firstDevice.deviceLedCount)
  {
    if n > 0 {
      var cls := ClassifySubDevice(ch.firstDevice.deviceType, ch.firstDevice.deviceLedCount);
      var prev := ChannelsProducts(p, ch, n - 1, bases);
      var last := ChannelProducts(p, n - 1, ch, bases);
      ChannelsReadOnce(p, ch, n - 1, bases);
      ChannelMembers(p, n - 1, ch, bases);
      forall d: ControlDevice | d in prev + last
        ensures d.kind == cls.kind && d.imageKey == cls.imageKey
        ensures d.leds.Some? && |d.leds.value| == LoopCount(ch.firstDevice.deviceLedCount)
      {
        if d !in prev {
          assert d in last;
        }
      }
      assert ChannelsProducts(p, ch, n, bases) == prev + last;
    }
  }

  /**
   A keyboard's LEDs: numbered 0, 1, ... in LED-id order over a permutation
   of its position table, at column `left` and row `top - 38` clamped at 0.
   */
  lemma KeyboardLedsOrdered(title: string, ps: seq<LedPosition>)
    ensures var leds := KeyboardLeds(title, ps);
      exists s: seq<LedPosition> :: multiset(s) == multiset(ps) && |s| == |leds|
        && (forall i, j :: 0 <= i < j < |s| ==> s[i].ledId <= s[j].ledId)
        && (forall k :: 0 <= k < |leds| ==>
              leds[k].data == Positional(k, s[k].ledId, s[k].left, if s[k].top >= 38 then s[k].top - 38 else 0))
  {
    var s := OrderBy(ps, ByLedId);
    var leds := KeyboardLeds(title, ps);
    forall k | 0 <= k < |leds|
      ensures leds[k].data == Positional(k, s[k].ledId, s[k].left, if s[k].top >= 38 then s[k].top - 38 else 0)
    {
      assert leds[k] == KeyboardLed(title, k, s[k]);
    }
    forall i, j | 0 <= i < j < |s|
      ensures s[i].ledId <= s[j].ledId
    {
      assert Key(ByLedId, s[i]) <= Key(ByLedId, s[j]);
    }
  }

  /** Keyboard LEDs carry grid coordinates, and no row is above the top edge. */
  lemma KeyboardLedsPositional(title: string, ps: seq<LedPosition>)
    ensures forall led :: led in KeyboardLeds(title, ps) ==> led.data.Positional? && led.data.y >= 0
  {
  }

  /** Any other device's LEDs: numbered 0, 1, ... in `top + left` order over a permutation of its positions. */
  lemma PlainLedsOrdered(title: string, ps: seq<LedPosition>)
    ensures var leds := PlainLeds(title, ps);
      exists s: seq<LedPosition> :: multiset(s) == multiset(ps) && |s| == |leds|
        && (forall i, j :: 0 <= i < j < |s| ==> s[i].top + s[i].left <= s[j].top + s[j].left)
        && (forall k :: 0 <= k < |leds| ==> leds[k].data == Plain(k, s[k].ledId))
  {
    var s := OrderBy(ps, ByTopLeft);
    assert forall i, j :: 0 <= i < j < |s| ==> Key(ByTopLeft, s[i]) <= Key(ByTopLeft, s[j]);
  }

  /**
   A keyboard with positions and no channels is listed with its LEDs and a
   grid spanning the largest `left` and `top`; one without positions is listed
   with neither.
   */
  lemma KeyboardGrid(p: Parent, chs: ChannelsInfo, ps: seq<LedPosition>)
    requires p.deviceType == CorsairDeviceType.Keyboard && chs.channelsCount <= 0
    ensures var d := ParentWithLeds(p, chs, ps);
      (|ps| > 0 ==>
        (d.leds.Some? && d.grid.Some?
         && (forall k :: 0 <= k < |ps| ==> ps[k].left <= d.grid.value.width && ps[k].top <= d.grid.value.height)
         && (exists k :: 0 <= k < |ps| && ps[k].left == d.grid.value.width)
         && (exists k :: 0 <= k < |ps| && ps[k].top == d.grid.value.height)))
      && (|ps| == 0 ==> d.leds.None? && d.grid.None?)
  {
  }

  // ---------------------------------------------------------------------------
  // The walk

  /** Device `i` is named after the number of earlier devices of the same model, plus one. */
  lemma DeviceNamedAfterSightings(raws: seq<RawDevice>, i: nat)
    requires i < |raws|
    ensures var m := Models(raws)[i];
      DeviceNameAt(raws, i) == SightingName(m, Occurrences(Models(raws)[..i], m) + 1)
  {
    NamedAfterSightings(Models(raws)[..i], Models(raws)[i]);
  }

  /** Devices of the same model get different names. */
  lemma DeviceNamesDistinct(raws: seq<RawDevice>, i: nat, j: nat)
    requires i < j < |raws| && Models(raws)[i] == Models(raws)[j]
    ensures DeviceNameAt(raws, i) != DeviceNameAt(raws, j)
  {
    var ms := Models(raws);
    NameAllPrefix(ms, map[], i);
    NameAllPrefix(ms, map[], j);
    SameModelNamesDistinct(ms, i, j);
  }

  /**
   Naming device `i` through a counter that has seen the models of devices
   0 .. i-1 gives the name the walk expects and the counter that has seen
   devices 0 .. i.
   */
  lemma NamingStep(raws: seq<RawDevice>, i: nat, name: string, counts: map<string, int>)
    requires i < |raws|
    requires (name, counts) == UniqueModelName(ModelOf(raws[i]), CountsAfter(Models(raws)[..i], map[]))
    ensures name == DeviceNameAt(raws, i)
    ensures counts == CountsAfter(Models(raws)[..i + 1], map[])
  {
    var ms := Models(raws);
    assert ms[..i + 1] == ms[..i] + [ms[i]];
    CountsAfterAppend(ms[..i], ms[i], map[]);
  }

  /** The walk over devices 0 .. i appends what device `i` contributes to the walk over 0 .. i-1. */
  lemma DiscoveredStep(raws: seq<RawDevice>, i: nat, name: string, bases: ChannelBases)
    requires i < |raws| && name == DeviceNameAt(raws, i)
    ensures Discovered(raws, i + 1, bases)
      == Discovered(raws, i, bases) + DeviceProducts(ParentOf(i, name, raws[i].info.deviceType), raws[i].info, raws[i].positions, bases)
  {
  }

  /** The list after the first `m` devices is a prefix of the list after the first `n`: devices are listed in SDK order. */
  lemma {:induction false} DiscoveredPrefix(raws: seq<RawDevice>, m: nat, n: nat, bases: ChannelBases)
    requires m <= n <= |raws|
    ensures Discovered(raws, m, bases) <= Discovered(raws, n, bases)
    decreases n - m
  {
    if m < n {
      DiscoveredPrefix(raws, m, n - 1, bases);
    }
  }
}
