/**
 The vendor SDK's enumerations and the native records the driver reads from it.
 Pointers and marshalling are gone: each record holds the values the driver
 actually reads.
 */
module CorsairSdk {
  import opened Text

  /** `CorsairDeviceType`, values 0..12. */
  datatype CorsairDeviceType =
    | Unknown | Mouse | Keyboard | Headset | Mousepad | HeadsetStand
    | CommanderPro | LightningNodePro | MemoryModule | Cooler | Unknown2
    | Motherboard | GraphicsCard

  /** `CorsairChannelDeviceType`, values 0..8. */
  datatype CorsairChannelDeviceType =
    | Invalid | FanHD | FanSP | FanLL | FanML | Strip | DAP | Pump | FanQL

  /** `CorsairError`, the SDK's last-error codes. */
  datatype CorsairError =
    | Success | ServerNotFound | NoControl | ProtocolHandshakeMissing
    | IncompatibleProtocol | InvalidArguments

  /** `CorsairDeviceCaps` flag values. */
  const Lighting: int := 1
  const PropertyLookup: int := 2

  /**
   `Enum.HasFlag` for the single-bit flags above, on the raw 32-bit mask: bit k
   of a two's-complement value is `(mask / 2^k) % 2` with floor division,
   which is what Dafny's `/` and `%` compute for a positive divisor.
   */
  predicate HasFlag(mask: int, flag: int)
    requires flag == Lighting || flag == PropertyLookup
  {
    (mask / flag) % 2 == 1
  }

  /** One entry of a device's LED-position table; millimetre coordinates truncated to integers. */
  datatype LedPosition = LedPosition(ledId: int, top: int, left: int)

  /** `_CorsairChannelDeviceInfo`: one LED device on a channel. */
  datatype ChannelDeviceInfo = ChannelDeviceInfo(deviceType: CorsairChannelDeviceType, deviceLedCount: int)

  /**
   `_CorsairChannelInfo`: the device count of a channel and the FIRST entry of
   its device array, the only entry the driver ever reads.
   */
  datatype ChannelInfo = ChannelInfo(devicesCount: int, firstDevice: ChannelDeviceInfo)

  /**
   `_CorsairChannelsInfo`: the channel count and the FIRST entry of the
   channel array, the only entry the driver ever reads.
   */
  datatype ChannelsInfo = ChannelsInfo(channelsCount: int, firstChannel: ChannelInfo)

  /**
   `_CorsairDeviceInfo` as far as the driver reads it. `model` is `None` for a
   null model pointer; `channels` is `None` for a missing channel structure.
   */
  datatype NativeDeviceInfo = NativeDeviceInfo(
    deviceType: CorsairDeviceType,
    model: Option<string>,
    capsMask: int,
    channels: Option<ChannelsInfo>)

  /** One device as the SDK reports it: its info record and its LED-position table. */
  datatype RawDevice = RawDevice(info: NativeDeviceInfo, positions: seq<LedPosition>)

  /** `_CorsairLedColor`: an LED id with its red, green and blue values. */
  datatype LedColor = LedColor(ledId: int, r: int, g: int, b: int)

  /** `CorsairProtocolDetails`, the result of the protocol handshake. */
  datatype ProtocolDetails = ProtocolDetails(
    sdkVersion: Option<string>,
    serverVersion: Option<string>,
    sdkProtocolVersion: int,
    serverProtocolVersion: int,
    breakingChanges: bool)

  /** The two flags are distinct bits: a mask of exactly one flag has only that flag. */
  lemma {:induction false} FlagsAreDistinctBits()
    ensures HasFlag(Lighting, Lighting) && !HasFlag(Lighting, PropertyLookup)
    ensures HasFlag(PropertyLookup, PropertyLookup) && !HasFlag(PropertyLookup, Lighting)
    ensures HasFlag(Lighting + PropertyLookup, Lighting) && HasFlag(Lighting + PropertyLookup, PropertyLookup)
    ensures !HasFlag(0, Lighting) && !HasFlag(0, PropertyLookup)
  {
  }
}
