/**
 The host library's view of what the driver reports: control devices holding
 LED units. The host types themselves are not part of this model; only the
 members the driver sets are kept.
 */
module ControlDevices {
  import opened Text
  import opened Classification

  /**
   The data the driver attaches to an LED: `CorsairLedData` (its position in
   the device and its SDK id) or `CorsairPositionalLEDData` (the same, plus grid
   coordinates).
   */
  datatype LedData =
    | Plain(ledNumber: int, ledId: int)
    | Positional(ledNumber: int, ledId: int, x: int, y: int)

  /** An LED colour as the host stores it: three integer channels. */
  datatype LedColour = LedColour(red: int, green: int, blue: int)

  /** The colour an LED unit has before anything sets it. */
  const Unlit: LedColour := LedColour(0, 0, 0)

  datatype LedUnit = LedUnit(data: LedData, name: string, color: LedColour)

  /** Grid size of a device with two-dimensional LED positions. */
  datatype Grid = Grid(width: int, height: int)

  /**
   A `CorsairDevice` as the walk fills it in. `leds` is `None` while the
   device's LED array is unset; `grid` is `Some` exactly for devices the driver
   marks as having 2D support.
   */
  datatype ControlDevice = ControlDevice(
    name: string,
    connectedTo: Option<string>,
    titleOverride: Option<string>,
    imageKey: string,
    corsairDeviceIndex: int,
    kind: DeviceKind,
    leds: Option<seq<LedUnit>>,
    grid: Option<Grid>)

  /** The names of a list of devices, in order. */
  function Names(ds: seq<ControlDevice>): (names: seq<string>)
    ensures |names| == |ds|
    ensures forall i :: 0 <= i < |ds| ==> names[i] == ds[i].name
  {
    seq(|ds|, i requires 0 <= i < |ds| => ds[i].name)
  }
}
