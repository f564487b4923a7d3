/**
 The driver object: configuring the SDK connection and the device walk as the
 driver runs it, loop by loop, proved to build the list `GetDevicesResult`
 describes.
 */
module Driver {
  import opened Text
  import opened CorsairSdk
  import opened DeviceInfo
  import opened Classification
  import opened Addressing
  import opened ControlDevices
  import opened Ordering
  import opened Dedup
  import opened Discovery

  /** How `Configure` ends: normally, or with the exception it throws. */
  datatype ConfigureOutcome =
    | Configured
    | HandshakeFailed(error: CorsairError)
    | Incompatible(details: ProtocolDetails)
    | LayerPriorityRefused(error: CorsairError)

  /**
   The checks `Configure` makes, in order: the handshake's last error, the
   breaking-changes flag, then the layer-priority request, whose failure is
   reported with the SDK's last error at that point.
   */
  function ConfigureOutcomeOf(handshake: ProtocolDetails, handshakeError: CorsairError,
                              layerPriorityOk: bool, priorityError: CorsairError): (o: ConfigureOutcome)
    ensures o.Configured? <==> handshakeError == Success && !handshake.breakingChanges && layerPriorityOk
    ensures o.HandshakeFailed? <==> handshakeError != Success
    ensures o.HandshakeFailed? ==> o.error == handshakeError
    ensures o.Incompatible? <==> handshakeError == Success && handshake.breakingChanges
    ensures o.Incompatible? ==> o.details == handshake
    ensures o.LayerPriorityRefused? <==> handshakeError == Success && !handshake.breakingChanges && !layerPriorityOk
    ensures o.LayerPriorityRefused? ==> o.error == priorityError
  {
    if handshakeError != Success then HandshakeFailed(handshakeError)
    else if handshake.breakingChanges then Incompatible(handshake)
    else if !layerPriorityOk then LayerPriorityRefused(priorityError)
    else Configured
  }

  class CUEDriver {
    /** The result of the last protocol handshake; `None` before the first `Configure`. */
    var protocolDetails: Option<ProtocolDetails>
    var hasExclusiveAccess: bool

    constructor ()
      ensures protocolDetails.None? && !hasExclusiveAccess
    {
      protocolDetails := None;
      hasExclusiveAccess := false;
    }

    /**
     `Configure`, with the SDK's answers as parameters: the handshake result and
     the last error after it, whether the layer-priority request succeeded and
     the last error after that. The handshake result is stored before any check,
     so it is kept even when `Configure` throws; exclusive access is cleared
     once both handshake checks pass.
     */
    method Configure(handshake: ProtocolDetails, handshakeError: CorsairError,
                     layerPriorityOk: bool, priorityError: CorsairError) returns (outcome: ConfigureOutcome)
      modifies this
      ensures outcome == ConfigureOutcomeOf(handshake, handshakeError, layerPriorityOk, priorityError)
      ensures protocolDetails == Some(handshake)
      ensures hasExclusiveAccess ==
        (if handshakeError == Success && !handshake.breakingChanges then false else old(hasExclusiveAccess))
      ensures outcome.Configured? || outcome.LayerPriorityRefused? ==> !hasExclusiveAccess
    {
      protocolDetails := Some(handshake);
      if handshakeError != Success {
        return HandshakeFailed(handshakeError);
      }
      if handshake.breakingChanges {
        return Incompatible(handshake);
      }
      hasExclusiveAccess := false;
      if !layerPriorityOk {
        return LayerPriorityRefused(priorityError);
      }
      outcome := Configured;
    }

    /**
     `GetDevices` over what the SDK reports: every device is named through one
     shared model counter, expanded, and the list renamed at the end. A device
     with a null model makes the call throw.
     */
    method GetDevices(raws: seq<RawDevice>, bases: ChannelBases) returns (r: Option<seq<ControlDevice>>)
      ensures r == GetDevicesResult(raws, bases)
    {
      var devices: seq<ControlDevice> := [];
      var modelCounter := new ModelCounter();
      var i := 0;
      while i < |raws|
        invariant 0 <= i <= |raws|
        invariant forall k :: 0 <= k < i ==> raws[k].info.model.Some?
        invariant modelCounter.counts == CountsAfter(Models(raws)[..i], map[])
        invariant devices == Discovered(raws, i, bases)
      {
        var raw := raws[i];
        if raw.info.model.None? {
          assert !ModelsPresent(raws);
          return None;
        }
        assert forall k :: 0 <= k < i + 1 ==> raws[k].info.model.Some?;
        var products := WalkDevice(raws, i, bases, modelCounter);
        devices := devices + products;
        i := i + 1;
      }
      assert ModelsPresent(raws);
      var renamed := RenameDuplicates(devices);
      r := Some(renamed);
    }
  }

  /** The renaming pass, run in place over the collected devices. */
  method RenameDuplicates(devices: seq<ControlDevice>) returns (renamed: seq<ControlDevice>)
    ensures renamed == Deduped(devices)
  {
    var a := new ControlDevice[|devices|](k requires 0 <= k < |devices| => devices[k]);
    assert a[..] == devices;
    DedupDevices(a);
    renamed := a[..];
  }

  /**
   One pass of the device loop: the device is named through the shared
   counter (whatever its capabilities) and expanded.
   */
  method WalkDevice(raws: seq<RawDevice>, i: nat, bases: ChannelBases, modelCounter: ModelCounter)
    returns (products: seq<ControlDevice>)
    requires i < |raws| && raws[i].info.model.Some?
    requires modelCounter.counts == CountsAfter(Models(raws)[..i], map[])
    modifies modelCounter
    ensures modelCounter.counts == CountsAfter(Models(raws)[..i + 1], map[])
    ensures Discovered(raws, i + 1, bases) == Discovered(raws, i, bases) + products
  {
    var raw := raws[i];
    var info := new CorsairRGBDeviceInfo.FromNative(i, "Other", raw.info, modelCounter);
    NamingStep(raws, i, info.deviceName, modelCounter.counts);
    var friendlyName := FriendlyName(info.deviceName);
    var imageKey := ImageKey(info.deviceName, GetDeviceType(info.corsairDeviceType));
    products := ExpandDevice(Parent(i, info.deviceName, friendlyName, imageKey, info.corsairDeviceType), raw.info, raw.positions, bases);
    DiscoveredStep(raws, i, info.deviceName, bases);
  }

  /**
   Everything one SDK device contributes: nothing without the lighting
   capability or a channel structure; otherwise the channel loop's devices and
   then, unless it is a hub, the device itself with the LEDs its branch builds.
   */
  method ExpandDevice(p: Parent, info: NativeDeviceInfo, ps: seq<LedPosition>, bases: ChannelBases)
    returns (ds: seq<ControlDevice>)
    ensures ds == DeviceProducts(p, info, ps, bases)
  {
    if !HasFlag(info.capsMask, Lighting) {
      return [];
    }
    match info.channels {
      case None =>
        ds := [];
      case Some(chs) =>
        var title := p.title;
        var children: seq<ControlDevice> := [];
        var leds: Option<seq<LedUnit>> := None;
        var grid: Option<Grid> := None;
        if chs.channelsCount > 0 {
          children := BuildChannels(p, chs.firstChannel, chs.channelsCount, bases);
        } else if p.deviceType == CorsairDeviceType.Keyboard {
          var keys := BuildKeyboardLeds(title, ps);
          if |ps| > 0 {
            grid := Some(Grid(MaxLeft(ps), MaxTop(ps)));
            leds := Some(keys);
          }
        } else {
          var plain := BuildPlainLeds(title, ps);
          leds := Some(plain);
        }
        var device := ParentDevice(p, leds, grid);
        assert device == ParentWithLeds(p, chs, ps);
        if IsHub(p.deviceType) {
          ds := children;
        } else {
          ds := children + [device];
        }
    }
  }

  /** The channel loop: channel `c` always reads the first channel record. */
  method BuildChannels(p: Parent, ch: ChannelInfo, n: nat, bases: ChannelBases) returns (ds: seq<ControlDevice>)
    ensures ds == ChannelsProducts(p, ch, n, bases)
  {
    ds := [];
    var channel := 0;
    while channel < n
      invariant 0 <= channel <= n
      invariant ds == ChannelsProducts(p, ch, channel, bases)
    {
      var cs := BuildChannel(p, ch, channel, bases);
      ds := ds + cs;
      channel := channel + 1;
    }
  }

  /** One channel: a cooler's first channel is its pump, any other channel is a run of sub-devices. */
  method BuildChannel(p: Parent, ch: ChannelInfo, channel: int, bases: ChannelBases) returns (cs: seq<ControlDevice>)
    ensures cs == ChannelProducts(p, channel, ch, bases)
  {
    var ref := GetChannelReferenceId(p.deviceType, channel, bases);
    if p.deviceType == CorsairDeviceType.Cooler && channel == 0 {
      var leds := BuildPumpLeds(ref, ch.firstDevice.deviceLedCount);
      cs := [ControlDevice(p.title, Some(ChannelLabel(channel)), Some(p.deviceName),
        p.imageKey, p.index, GetDeviceType(p.deviceType), Some(leds), None)];
    } else {
      var cd := ch.firstDevice;
      var cls := ClassifySubDevice(cd.deviceType, cd.deviceLedCount);
      cs := BuildSubDevices(p, channel, ref, cls, cd.deviceLedCount, ch.devicesCount);
    }
  }

  /**
   The sub-device loop of one channel: device `dev` starts `dev` times the LED
   count past the channel's reference id. Every pass classifies the same
   channel-device record, so the class is worked out once by the caller.
   */
  method BuildSubDevices(p: Parent, channel: int, ref: int, cls: SubDeviceClass, ledCount: int, count: int)
    returns (ds: seq<ControlDevice>)
    ensures ds == SubDevicesUpTo(p, channel, ref, cls, ledCount, LoopCount(count))
  {
    ds := [];
    var dev := 0;
    while dev < count
      invariant 0 <= dev && (dev <= count || dev == 0)
      invariant ds == SubDevicesUpTo(p, channel, ref, cls, ledCount, dev)
    {
      var d := BuildSubDevice(p, channel, ref, cls, ledCount, dev);
      ds := ds + [d];
      dev := dev + 1;
    }
  }

  /** One pass of the sub-device loop: the device's name, attachment and LED run. */
  method BuildSubDevice(p: Parent, channel: int, ref: int, cls: SubDeviceClass, ledCount: int, dev: int)
    returns (d: ControlDevice)
    ensures d == SubDevice(p, channel, ref, cls, ledCount, dev)
  {
    var referenceLed := ref + dev * ledCount;
    var leds := BuildSubDeviceLeds(p.title, referenceLed, ledCount);
    d := ControlDevice(cls.name + " " + IntToString(dev + 1), Some(ChannelLabel(channel)), Some(p.deviceName),
      cls.imageKey, p.index, cls.kind, Some(leds), None);
  }

  /** The LED loop of a sub-device: LED `j` is addressed by the band formula and named after the parent. */
  method BuildSubDeviceLeds(title: string, ref: int, count: int) returns (leds: seq<LedUnit>)
    ensures leds == SubDeviceLeds(title, ref, count)
  {
    leds := [];
    var devLed := 0;
    while devLed < count
      invariant 0 <= devLed && (devLed <= count || devLed == 0)
      invariant leds == SubDeviceLedsUpTo(title, ref, count, devLed)
    {
      var id := LedAddress(ref, count, devLed);
      leds := leds + [LedUnit(Plain(devLed, id), LedName(title, devLed), Unlit)];
      devLed := devLed + 1;
    }
  }

  /** The LED loop of a cooler pump: flat ids from the channel's reference id. */
  method BuildPumpLeds(ref: int, count: int) returns (leds: seq<LedUnit>)
    ensures leds == PumpLeds(ref, count)
  {
    leds := [];
    var devLed := 0;
    while devLed < count
      invariant 0 <= devLed && (devLed <= count || devLed == 0)
      invariant leds == PumpLedsUpTo(ref, devLed)
    {
      leds := leds + [LedUnit(Plain(devLed, ref + devLed), "Pump " + IntToString(devLed), Unlit)];
      devLed := devLed + 1;
    }
  }

  /** A keyboard's LED loop over its positions ordered by LED id, with a running counter. */
  method BuildKeyboardLeds(title: string, ps: seq<LedPosition>) returns (leds: seq<LedUnit>)
    ensures leds == KeyboardLeds(title, ps)
  {
    var ordered := OrderBy(ps, ByLedId);
    leds := [];
    var ctr := 0;
    while ctr < |ordered|
      invariant 0 <= ctr <= |ordered|
      invariant leds == KeyboardNumbered(title, ordered, ctr)
    {
      var lp := ordered[ctr];
      leds := leds + [LedUnit(Positional(ctr, lp.ledId, lp.left, Max0(lp.top - 38)), LedName(title, ctr), Unlit)];
      ctr := ctr + 1;
    }
  }

  /** Any other device's LED loop over its positions ordered by `top + left`. */
  method BuildPlainLeds(title: string, ps: seq<LedPosition>) returns (leds: seq<LedUnit>)
    ensures leds == PlainLeds(title, ps)
  {
    var ordered := OrderBy(ps, ByTopLeft);
    leds := [];
    var ctr := 0;
    while ctr < |ordered|
      invariant 0 <= ctr <= |ordered|
      invariant leds == PlainNumbered(title, ordered, ctr)
    {
      var lp := ordered[ctr];
      leds := leds + [LedUnit(Plain(ctr, lp.ledId), LedName(title, ctr), Unlit)];
      ctr := ctr + 1;
    }
  }
}
