/**
 How the driver turns a channel position into the SDK's LED ids: the reference
 id of a channel, and the address of LED `i` of a sub-device whose first LED
 sits at a given reference id.
 */
module Addressing {
  import opened CorsairSdk

  /**
   The numeric values of the `CorsairLedId` members the walk starts from
   (`CustomLiquidCoolerChannel1Led1`, `CustomDeviceChannel1Led1` .. `3Led1` and
   `Invalid`). The enumeration that defines them is not part of this model, so
   they are a parameter.
   */
  datatype ChannelBases = ChannelBases(liquidCooler: int, custom1: int, custom2: int, custom3: int, invalid: int)

  /**
   `GetChannelReferenceId`: a cooler's channels all start at the liquid-cooler
   id; other devices have three custom channels, and any other channel number
   gets the `Invalid` id (the walk does not skip it).
   */
  function GetChannelReferenceId(t: CorsairDeviceType, channel: int, bases: ChannelBases): (ref: int)
    ensures t == Cooler ==> ref == bases.liquidCooler
    ensures t != Cooler && channel == 0 ==> ref == bases.custom1
    ensures t != Cooler && channel == 1 ==> ref == bases.custom2
    ensures t != Cooler && channel == 2 ==> ref == bases.custom3
    ensures t != Cooler && (channel < 0 || channel > 2) ==> ref == bases.invalid
  {
    if t == Cooler then bases.liquidCooler
    else if channel == 0 then bases.custom1
    else if channel == 1 then bases.custom2
    else if channel == 2 then bases.custom3
    else bases.invalid
  }

  /** Every channel of a cooler aliases the same reference id. */
  lemma CoolerChannelsAlias(c1: int, c2: int, bases: ChannelBases)
    ensures GetChannelReferenceId(Cooler, c1, bases) == GetChannelReferenceId(Cooler, c2, bases)
  {
  }

  /**
   The three custom channels of a non-cooler get distinct reference ids as soon
   as the enumeration gives them distinct values.
   */
  lemma CustomChannelsDistinct(t: CorsairDeviceType, c1: int, c2: int, bases: ChannelBases)
    requires t != Cooler && 0 <= c1 < c2 <= 2
    requires bases.custom1 != bases.custom2 && bases.custom2 != bases.custom3 && bases.custom1 != bases.custom3
    ensures GetChannelReferenceId(t, c1, bases) != GetChannelReferenceId(t, c2, bases)
  {
  }

  /** The reference ids the address formula refuses to move into the upper band. */
  predicate IsSentinel(ref: int)
  {
    ref == 350 || ref == 384 || ref == 418 || ref == 452 || ref == 486
  }

  /** Offset between the lower and the upper band of LED ids. */
  const BandOffset: int := 562

  /**
   When LED `i` of a sub-device lands in the upper band, stated without the
   cascade of the source: only devices with more than 30 LEDs move; a
   non-sentinel reference above 369 moves every LED; from LED 14 on, so does
   a non-sentinel reference above 335, and the sentinel 486 (the only value the
   `>= 486` branch can still see).
   */
  predicate UpperBand(ref: int, ledCount: int, i: int)
  {
    ledCount > 30
    && ((ref > 369 && !IsSentinel(ref))
        || (i >= 14 && ((ref > 335 && !IsSentinel(ref)) || ref == 486)))
  }

  /**
   The address of LED `i` of a sub-device whose first LED is `ref` and which
   has `ledCount` LEDs: the flat `ref + i`, or `ref + 562 + i` in the upper band.
   */
  function LedAddress(ref: int, ledCount: int, i: int): (a: int)
    ensures a == ref + i || a == ref + BandOffset + i
    ensures ledCount <= 30 ==> a == ref + i
    ensures a == ref + BandOffset + i <==> UpperBand(ref, ledCount, i)
    ensures a == ref + i <==> !UpperBand(ref, ledCount, i)
  {
    if ledCount > 30 then
      if ref > 369 && ref != 350 && ref != 384 && ref != 418 && ref != 452 && ref != 486 then
        ref + BandOffset + i
      else if ref > 335 && ref != 350 && ref != 384 && ref != 418 && ref != 452 && ref != 486 then
        if i < 14 then ref + i else ref + BandOffset + i
      else if ref >= 486 then
        if i < 14 then ref + i else ref + BandOffset + i
      else
        ref + i
    else
      ref + i
  }

  /** Within one sub-device, later LEDs get strictly larger addresses; so no two LEDs share one. */
  lemma {:induction false} LedAddressIncreasing(ref: int, ledCount: int, i: int, j: int)
    requires 0 <= i < j
    ensures LedAddress(ref, ledCount, i) < LedAddress(ref, ledCount, j)
  {
    if UpperBand(ref, ledCount, i) {
      assert UpperBand(ref, ledCount, j);
    }
  }

  /** Worked cases of the formula on 35-LED sub-devices. */
  lemma LedAddressExamples()
    ensures LedAddress(400, 35, 0) == 962
    ensures LedAddress(340, 35, 13) == 353 && LedAddress(340, 35, 14) == 916
    ensures LedAddress(486, 35, 13) == 499 && LedAddress(486, 35, 14) == 1062
    ensures LedAddress(384, 35, 20) == 404
    ensures LedAddress(400, 30, 0) == 400
  {
  }
}
