# Corsair driver for SimpleLed, modelled in Dafny

This project models the core of the SimpleLed Corsair driver (`CUEDriver` and
`CorsairRGBDeviceInfo`). The driver sits between the Corsair iCUE SDK and the
SimpleLed host. It does five things:

- it configures the SDK connection (protocol handshake, layer priority);
- it walks the devices the SDK reports and turns each into host control devices:
  - channel sub-devices of Commander Pro / Lightning Node Pro hubs;
  - the pump of an all-in-one cooler;
  - keyboards with a 2D grid;
  - any other device with its LEDs;
- it names devices through a shared model counter, so that devices of the same
  model get distinct names, and it tells apart equal names with a " #k" suffix;
- it computes the SDK LED id of every LED, including the "band" formula for
  sub-devices with more than 30 LEDs;
- it exchanges colours with the SDK: `Push` builds the colour buffer, `Pull`
  writes the colours the SDK returns back into the LEDs.

The SDK is not modelled; what it reports is the input. `RawDevice` holds the
native device record and the LED position table, and `ChannelBases` holds the
numeric values of the `CorsairLedId` members the walk starts from.

Modules, one per concern:

| file | contents |
|---|---|
| `Text.dfy` | `Option`, integer formatting, `Replace(…, "")`, `Trim`, occurrence counting |
| `CorsairSdk.dfy` | the SDK's records and enumerations as the driver reads them |
| `Classification.dfy` | `GetDeviceType`, the sub-device `switch`, the image table and its fallback |
| `Addressing.dfy` | `GetChannelReferenceId` and the LED address formula |
| `ControlDevices.dfy` | the host's control devices and LED units, as the driver fills them in |
| `DeviceInfo.dfy` | `CorsairRGBDeviceInfo` (a class) and the model counter |
| `Ordering.dfy` | the stable `OrderBy` used on position tables |
| `Dedup.dfy` | the final `GroupBy(Name)` renaming, in place over an array |
| `Discovery.dfy` | what `GetDevices` produces, as functions of the SDK's answers, and lemmas about it |
| `Driver.dfy` | the `CUEDriver` class: `Configure` and the loop-by-loop `GetDevices` |
| `LedSync.dfy` | `Push`'s buffer and `Pull`'s read loop |

`CUEDriver.GetDevices` is written as the source writes it:
- an outer device loop, a channel loop, a sub-device loop and LED loops;
- a shared `ModelCounter` object updated by each `CorsairRGBDeviceInfo` constructor;
- the renaming pass, in place over an array.

It is proved to return exactly `GetDevicesResult`. The properties of the result
are proved as lemmas about that function.

The model follows the code as written; in particular:

- On a cooler, the pump device replaces the sub-devices of channel 0; it is not
  added next to them.
- A channel number above 2 gets the `Invalid` reference id and is still
  expanded, not skipped.
- Every channel, and every sub-device of a channel, is built from the first
  channel record and its first device record. The record pointers are never
  advanced (CUEDriver.cs:283-292).
- A device whose `channels` record is null contributes nothing, even with
  lighting (CUEDriver.cs:275).
- Duplicate names get the suffix " #k", numbered from 1 within each group.
  The result is not unique in general (see `Dedup.DedupCollision`).
- A device reporting a null model makes `GetDevices` throw: the counter
  dictionary is given a null key. The model returns `None`.
- `Pull` first searches the LEDs with a cast to `CorsairLedData`. When that cast
  fails on an LED before a match, it searches again with a cast to
  `CorsairPositionalLEDData`, and a failing cast there escapes `Pull`.

## Model

| member | source | states |
|---|---|---|
| Driver.CUEDriver.constructor | Driver.Corsair/CUEDriver.cs:32-38 | a new driver has no protocol details and no exclusive access |
| Driver.ConfigureOutcomeOf | Driver.Corsair/CUEDriver.cs:49-82 | `Configure` succeeds iff the handshake error is `Success`, there are no breaking changes and the layer-priority request succeeds; each failure is reported by the first check that fails, in source order, with the error or details of that check |
| Driver.CUEDriver.Configure | Driver.Corsair/CUEDriver.cs:49-82 | stores the handshake result before any check; clears exclusive access once both handshake checks pass; the outcome is `ConfigureOutcomeOf` |
| Driver.CUEDriver.GetDevices | Driver.Corsair/CUEDriver.cs:85-567 | the imperative walk, with the shared model counter and in-place renaming, returns exactly `GetDevicesResult` |
| Driver.WalkDevice | Driver.Corsair/CUEDriver.cs:179-186 | one pass of the device loop: names device `i` through the counter (whatever its capabilities) and extends the walk's list by what device `i` contributes |
| Driver.ExpandDevice | Driver.Corsair/CUEDriver.cs:188-546 | what one device contributes equals `DeviceProducts`: nothing without lighting or channels, else channel products then the parent unless it is a hub |
| Driver.BuildChannels | Driver.Corsair/CUEDriver.cs:279-480 | the channel loop builds `ChannelsProducts` |
| Driver.BuildChannel | Driver.Corsair/CUEDriver.cs:283-478 | one channel: the pump on a cooler's channel 0, otherwise the run of sub-devices |
| Driver.BuildSubDevices | Driver.Corsair/CUEDriver.cs:328-477 | the sub-device loop builds the first `max(0, devicesCount)` sub-devices |
| Driver.BuildSubDevice | Driver.Corsair/CUEDriver.cs:330-476 | sub-device `dev` is named "<class> <dev+1>", is attached to "Channel <c+1>" and has its LED run |
| Driver.BuildSubDeviceLeds | Driver.Corsair/CUEDriver.cs:417-473 | the LED loop of a sub-device builds `SubDeviceLeds`: the band address and the parent-name label of each LED |
| Driver.BuildPumpLeds | Driver.Corsair/CUEDriver.cs:307-321 | the pump's LED loop builds `PumpLeds`: flat ids and "Pump j" names |
| Driver.BuildKeyboardLeds | Driver.Corsair/CUEDriver.cs:481-500 | the keyboard loop, with its running counter over the positions ordered by LED id, builds `KeyboardLeds` |
| Driver.BuildPlainLeds | Driver.Corsair/CUEDriver.cs:515-533 | the loop over positions ordered by `top + left` builds `PlainLeds` |
| Driver.RenameDuplicates | Driver.Corsair/CUEDriver.cs:550-561 | copying the list into an array and renaming in place gives `Deduped` |
| Discovery.GetDevicesResult | Driver.Corsair/CUEDriver.cs:85-567 | `GetDevices` fails exactly when some device reports a null model, whose name is then looked up in the counter dictionary (CorsairRGBDeviceInfo.cs:85-97); `CUEDriver.GetDevices` is proved to return it |
| Discovery.Discovered | Driver.Corsair/CUEDriver.cs:179-548 | definition, no contract of its own: the devices listed for SDK devices 0 .. n-1, each device's products in turn; `DiscoveredPrefix` states its order |
| Discovery.DeviceProducts | Driver.Corsair/CUEDriver.cs:188-546 | a device without the lighting bit, or with a null channel record, contributes nothing; `HubsNeverListed` states the rest |
| Discovery.ParentOf | Driver.Corsair/CUEDriver.cs:184-261 | definition, no contract of its own: a device's index, unique name, type, friendly name and thumbnail key, worked out once before the lighting check |
| Discovery.FriendlyName | Driver.Corsair/CUEDriver.cs:186 | definition, no contract of its own: the name with "Corsair" removed and then trimmed; `RemoveAllRemoves`, `RemoveAllSkipsPrefix`, `RemoveAllAbsent` and `Trim` state what that does |
| Discovery.ParentDevice | Driver.Corsair/CUEDriver.cs:263-270 | definition, no contract of its own: the device object titled with the friendly name, with the thumbnail, SDK index and host kind |
| Discovery.ParentWithLeds | Driver.Corsair/CUEDriver.cs:273-535 | definition, no contract of its own: no LEDs with channels; a keyboard's positional LEDs and grid when it has positions, none otherwise; plain LEDs for anything else; `KeyboardGrid` states the keyboard case |
| Discovery.IsHub | Driver.Corsair/CUEDriver.cs:537-539 | definition: Commander Pro, Lightning Node Pro and Cooler, the types the walk does not list |
| Discovery.ChannelLabel | Driver.Corsair/CUEDriver.cs:300 | definition, no contract of its own: "Channel " followed by the channel number plus one (also at :410) |
| Discovery.ChannelsProducts | Driver.Corsair/CUEDriver.cs:279-480 | definition, no contract of its own: the products of channels 0 .. n-1 in turn, each from the first channel record; `ChannelsProductsCount` and `ChannelsReadOnce` state its properties |
| Discovery.ChannelProducts | Driver.Corsair/CUEDriver.cs:283-478 | one channel gives one pump on a cooler's channel 0, otherwise `max(0, devicesCount)` devices |
| Discovery.PumpDevice | Driver.Corsair/CUEDriver.cs:293-325 | definition, no contract of its own: the pump device, attached to the channel; `PumpReplacesFirstChannel` states its fields |
| Discovery.SubDevice | Driver.Corsair/CUEDriver.cs:404-473 | definition, no contract of its own: sub-device `dev`, named "<class> <dev+1>" and with LEDs from `ref + dev * ledCount`; `SubDeviceLedAddresses` states its LEDs |
| Discovery.KeyboardLed | Driver.Corsair/CUEDriver.cs:488-498 | definition, no contract of its own: a positional LED numbered `ctr`, at `left` and `max(0, top - 38)`, named "<title> <ctr>" |
| Discovery.PlainLed | Driver.Corsair/CUEDriver.cs:521-529 | definition, no contract of its own: a plain LED numbered `ctr` with the position's LED id, named "<title> <ctr>" |
| Discovery.HubsNeverListed | Driver.Corsair/CUEDriver.cs:537-546 | Commander Pro, Lightning Node Pro and coolers are never listed themselves, only their channel products; any other device is listed last, after its channel products, unattached |
| Discovery.ChannelProductsAttached | Driver.Corsair/CUEDriver.cs:404-415 | every channel product is attached to a channel, has the parent's unique name as title override and carries the parent's SDK index |
| Discovery.ChannelMembers | Driver.Corsair/CUEDriver.cs:293-415 | every device of channel `c` is attached to "Channel c+1"; off a cooler's channel 0 they share the class, thumbnail and LED count of the first device record |
| Discovery.ChannelsProductsCount | Driver.Corsair/CUEDriver.cs:281-330 | `n` channels give `n * devicesCount` devices; on a cooler, `1 + (n-1) * devicesCount` |
| Discovery.PumpReplacesFirstChannel | Driver.Corsair/CUEDriver.cs:293-325 | a cooler's channel 0 is exactly one pump with the parent's title, cooler type and thumbnail; LED `j` is "Pump j" at the liquid-cooler id plus `j` |
| Discovery.SubDeviceLedAddresses | Driver.Corsair/CUEDriver.cs:328-473 | LED `j` of sub-device `dev` is numbered `j`, addressed by the band formula from the channel id plus `dev` times the LED count, and labelled with the parent's name |
| Discovery.ChannelLedIdsDistinct | Driver.Corsair/CUEDriver.cs:330-473 | with at most 30 LEDs per sub-device, no two LEDs of one channel share an SDK id |
| Discovery.ChannelsReadOnce | Driver.Corsair/CUEDriver.cs:283-292 | because only the first records are read, all sub-devices on all channels of a non-cooler have the same kind, thumbnail and LED count |
| Discovery.KeyboardLedsOrdered | Driver.Corsair/CUEDriver.cs:481-500 | keyboard LEDs are numbered 0, 1, … over a permutation of the positions sorted by LED id, at (`left`, `max(0, top - 38)`) |
| Discovery.KeyboardLedsPositional | Driver.Corsair/CUEDriver.cs:488-495 | every keyboard LED carries positional data with a non-negative row |
| Discovery.PlainLedsOrdered | Driver.Corsair/CUEDriver.cs:515-533 | other LEDs are numbered 0, 1, … over a permutation of the positions sorted by `top + left` |
| Discovery.KeyboardGrid | Driver.Corsair/CUEDriver.cs:502-510 | a keyboard with positions gets its LEDs and a grid of the largest `left` by the largest `top`; without positions it gets neither |
| Discovery.MaxLeft | Driver.Corsair/CUEDriver.cs:504 | the largest `left` of a non-empty table: an upper bound that is attained |
| Discovery.MaxTop | Driver.Corsair/CUEDriver.cs:505 | the largest `top` of a non-empty table: an upper bound that is attained |
| Discovery.DeviceNamedAfterSightings | Driver.Corsair/CUEDriver.cs:179-185 | device `i` is named after the number of earlier devices with the same model (lit or not), plus one |
| Discovery.DeviceNamesDistinct | Driver.Corsair/CUEDriver.cs:179-185 | devices of the same model get different unique names |
| Discovery.NamingStep | Driver.Corsair/CUEDriver.cs:184-185 | naming device `i` through the counter that has seen devices before `i` yields the expected name and the counter that has seen `i` too |
| Discovery.DiscoveredPrefix | Driver.Corsair/CUEDriver.cs:179-548 | devices are listed in SDK order: the list after `m` devices is a prefix of the list after `n >= m` |
| Discovery.SubDeviceLedsUpTo | Driver.Corsair/CUEDriver.cs:417-473 | the first `n` LEDs of a sub-device: LED `j` is `SubDeviceLed` `j` |
| Discovery.PumpLedsUpTo | Driver.Corsair/CUEDriver.cs:309-321 | the first `n` pump LEDs: LED `j` is `PumpLed` `j` |
| Discovery.SubDevicesUpTo | Driver.Corsair/CUEDriver.cs:328-477 | the first `n` sub-devices: device `dev` is `SubDevice` `dev` |
| Discovery.KeyboardNumbered | Driver.Corsair/CUEDriver.cs:485-500 | the first `n` keyboard LEDs: LED `k` is built from the `k`-th ordered position with counter `k` |
| Discovery.PlainNumbered | Driver.Corsair/CUEDriver.cs:518-531 | the first `n` plain LEDs: LED `k` is built from the `k`-th ordered position with counter `k` |
| Addressing.GetChannelReferenceId | Driver.Corsair/CUEDriver.cs:612-627 | a cooler always starts at the liquid-cooler id; other devices map channels 0, 1, 2 to the three custom ids and anything else to `Invalid` |
| Addressing.CoolerChannelsAlias | Driver.Corsair/CUEDriver.cs:614-615 | all channels of a cooler share one reference id |
| Addressing.CustomChannelsDistinct | Driver.Corsair/CUEDriver.cs:618-623 | the three custom channels of a non-cooler get distinct reference ids when the enumeration's values are distinct |
| Addressing.LedAddress | Driver.Corsair/CUEDriver.cs:417-462 | the address is `ref + i` or `ref + 562 + i`, and the upper band is taken iff `UpperBand` holds (more than 30 LEDs, a non-sentinel reference above 369, or from LED 14 on a non-sentinel above 335 or 486) |
| Addressing.LedAddressIncreasing | Driver.Corsair/CUEDriver.cs:417-462 | within one sub-device, addresses strictly increase with the LED index |
| Addressing.LedAddressExamples | Driver.Corsair/CUEDriver.cs:421-457 | concrete values of each branch: above 369, the 336-369 split at LED 14, the 486 split, a sentinel, and 30 LEDs or fewer |
| Classification.GetDeviceType | Driver.Corsair/CUEDriver.cs:587-610 | a device type is never fan or LED strip; it is "other" exactly for Commander Pro, Lightning Node Pro, Unknown and unlisted types |
| Classification.GetDeviceTypeInjective | Driver.Corsair/CUEDriver.cs:587-610 | two different SDK types map to the same kind only when both map to "other" |
| Classification.ClassifySubDevice | Driver.Corsair/CUEDriver.cs:335-402 | a sub-device is a fan iff its type is a fan type; an LED strip iff Strip or (Invalid with 27 LEDs); the placeholder thumbnail iff its kind is "other"; "Unknown" iff (Invalid without 27 LEDs) or Pump |
| Classification.Lookup | Driver.Corsair/CUEDriver.cs:216-219 | a table lookup succeeds iff some entry has the key, and returns that entry's value |
| Classification.ImageKey | Driver.Corsair/CUEDriver.cs:214-261 | a name listed in the table gets a thumbnail key of one of its own entries; an unlisted name gets the fallback for the device kind |
| Classification.ImageKeyOfListed | Driver.Corsair/CUEDriver.cs:216-219 | a listed product gets exactly the key of its own entry, whatever its kind: the table wins over the fallback |
| Classification.ImageTableKeysDistinct | Driver.Corsair/CUEDriver.cs:92-177 | no product name is listed twice in the dictionary initializer, so it does not throw and a name has at most one key |
| Classification.FallbackImageKey | Driver.Corsair/CUEDriver.cs:222-260 | definition, no contract of its own: the thumbnail by host kind, "CorsairPlaceholder" for anything without one |
| CorsairSdk.HasFlag | Driver.Corsair/CUEDriver.cs:188 | definition, no contract of its own: `Enum.HasFlag` for a one-bit flag, bit `k` of the mask; `FlagsAreDistinctBits` states its properties |
| DeviceInfo.CorsairRGBDeviceInfo.FromNative | Driver.Corsair/CorsairRGBDeviceInfo.cs:59-71 | copies index, type and caps; the model is the native model with " ?DEMO" removed, ignoring case; the name and the counter are `UniqueModelName` applied to the counter it was given |
| DeviceInfo.CorsairRGBDeviceInfo.WithModelName | Driver.Corsair/CorsairRGBDeviceInfo.cs:73-82 | the same, with the model name taken as given |
| DeviceInfo.CorsairRGBDeviceInfo.GetUniqueModelName | Driver.Corsair/CorsairRGBDeviceInfo.cs:85-97 | a new model gets "Corsair <model>" and counter 1; a known one has its counter incremented and the new value appended; no other counter changes |
| DeviceInfo.ModelCounter.constructor | Driver.Corsair/CUEDriver.cs:88 | the counter dictionary starts empty |
| DeviceInfo.StripDemo | Driver.Corsair/CorsairRGBDeviceInfo.cs:66-67 | removing " ?DEMO" never lengthens the model |
| DeviceInfo.StripDemoNoDemo | Driver.Corsair/CorsairRGBDeviceInfo.cs:66-67 | a model without any case-insensitive "DEMO" is left unchanged |
| DeviceInfo.StripDemoKeepsPrefix | Driver.Corsair/CorsairRGBDeviceInfo.cs:66-67 | a prefix in which no " ?DEMO" match starts is kept and the left-to-right scan resumes after it |
| DeviceInfo.StripDemoRemovesSpaced | Driver.Corsair/CorsairRGBDeviceInfo.cs:66-67 | a " DEMO" in any case after a match-free prefix is removed together with its space, and the rest is normalised in turn |
| DeviceInfo.StripDemoRemovesBare | Driver.Corsair/CorsairRGBDeviceInfo.cs:66-67 | a "DEMO" in any case with no space before it, after a match-free prefix, is removed on its own |
| DeviceInfo.NormaliseModel | Driver.Corsair/CorsairRGBDeviceInfo.cs:64-67 | a null model stays null; otherwise the result is no longer than the native model |
| DeviceInfo.UniqueModelName | Driver.Corsair/CorsairRGBDeviceInfo.cs:85-97 | the model is in the new dictionary; every other model keeps its presence and its counter |
| DeviceInfo.FirstSighting | Driver.Corsair/CorsairRGBDeviceInfo.cs:92-96 | an unseen model is named "Corsair <model>" and its counter set to 1 |
| DeviceInfo.LaterSighting | Driver.Corsair/CorsairRGBDeviceInfo.cs:87-91 | a model seen `k - 1` times is named "Corsair <model> k" and its counter set to `k` |
| DeviceInfo.SightingNamesDistinct | Driver.Corsair/CorsairRGBDeviceInfo.cs:85-97 | different sightings of one model get different names |
| DeviceInfo.NameAll | Driver.Corsair/CUEDriver.cs:179-185 | naming a list of models through one dictionary gives one name per model |
| DeviceInfo.CountsAfterValue | Driver.Corsair/CorsairRGBDeviceInfo.cs:85-97 | after a run of namings, a model's counter is its starting counter plus the number of times it was named |
| DeviceInfo.CountsAfterAppend | Driver.Corsair/CorsairRGBDeviceInfo.cs:85-97 | naming one more model extends the run by one `UniqueModelName` step |
| DeviceInfo.NamedAfterSightings | Driver.Corsair/CorsairRGBDeviceInfo.cs:85-97 | a model is named after its number of earlier sightings, plus one |
| DeviceInfo.NameAllPrefix | Driver.Corsair/CUEDriver.cs:179-185 | the `i`-th name is the one the dictionary holding the first `i` namings gives |
| DeviceInfo.NameAllSightings | Driver.Corsair/CUEDriver.cs:179-185 | the `i`-th name counts the earlier occurrences of the same model |
| DeviceInfo.SameModelNamesDistinct | Driver.Corsair/CUEDriver.cs:179-185 | equal models at different positions get different names |
| CorsairSdk.FlagsAreDistinctBits | Driver.Corsair/CorsairRGBDeviceInfo.cs:118-135 | the lighting and property-lookup flags are independent bits of the caps mask |
| Ordering.Insert | Driver.Corsair/CUEDriver.cs:486 | inserting into a sorted list keeps it sorted and adds exactly the new element |
| Ordering.OrderBy | Driver.Corsair/CUEDriver.cs:486-519 | `OrderBy` returns a sorted permutation of the positions |
| Ordering.InsertStable | Driver.Corsair/CUEDriver.cs:486 | insertion keeps the relative order of elements with equal keys |
| Ordering.OrderByStable | Driver.Corsair/CUEDriver.cs:486-519 | `OrderBy` is stable: the elements with any given key keep their input order |
| Dedup.DedupDevices | Driver.Corsair/CUEDriver.cs:550-561 | the in-place renaming over the array produces `Deduped` of the original list |
| Dedup.NumberGroup | Driver.Corsair/CUEDriver.cs:556-560 | the inner loop gives the members of one group their numbered names and touches no other device |
| Dedup.DistinctInOrder | Driver.Corsair/CUEDriver.cs:550 | the groups hold every name exactly once |
| Dedup.Deduped | Driver.Corsair/CUEDriver.cs:550-561 | renaming keeps the number of devices |
| Dedup.DedupedOnlyRenames | Driver.Corsair/CUEDriver.cs:550-561 | only the name of a device changes, and it becomes `DedupNames`' entry |
| Dedup.GroupRanksIncrease | Driver.Corsair/CUEDriver.cs:556-560 | members of a group are numbered 1, 2, … in list order |
| Dedup.DedupKeepsUniqueName | Driver.Corsair/CUEDriver.cs:554 | a name that no other device has is kept as it is |
| Dedup.NumberedDistinctNames | Driver.Corsair/CUEDriver.cs:559 | suffixed names of different '#'-free names differ |
| Dedup.NumberedDistinctRanks | Driver.Corsair/CUEDriver.cs:559 | different ranks give different suffixed names |
| Dedup.DedupPairDistinct | Driver.Corsair/CUEDriver.cs:550-561 | two devices whose names contain no '#' end up with different names |
| Dedup.DedupUniqueWhenNoHash | Driver.Corsair/CUEDriver.cs:550-561 | when no name contains '#', the renamed list has no duplicates |
| Dedup.DedupCollision | Driver.Corsair/CUEDriver.cs:550-561 | ["A", "A", "A #1"] becomes ["A #1", "A #2", "A #1"]: the renaming does not guarantee unique names |
| LedSync.ToByte | Driver.Corsair/CUEDriver.cs:643-645 | `(byte)x` is in 0..255, congruent to `x` modulo 256, and the identity on 0..255 |
| LedSync.PushPayload | Driver.Corsair/CUEDriver.cs:640-654 | one entry per LED, in LED order, with the LED's SDK id and byte colours; colours already in byte range are kept |
| LedSync.Push | Driver.Corsair/CUEDriver.cs:629-663 | the SDK call exists iff the device's LED array is set; it carries the device index, the LED count and a buffer of that length |
| LedSync.ProbeFrom | Driver.Corsair/CUEDriver.cs:687-688 | `FirstOrDefault` with a casting predicate: the first match, no match, or a failing cast on the first LED of the other kind |
| LedSync.FindTarget | Driver.Corsair/CUEDriver.cs:685-701 | an entry goes to the first LED with its id; it is ignored only when no LED has the id (on a single-kind device exactly then, with `UniformNeverThrows`); it throws only on a device mixing both kinds of data, where a missing id throws too |
| LedSync.UniformNeverThrows | Driver.Corsair/CUEDriver.cs:685-701 | on a device whose LEDs all have one kind of data, the search never throws |
| LedSync.ReadBackStep | Driver.Corsair/CUEDriver.cs:685-703 | one returned entry never changes an LED's data or name, nor the number of LEDs |
| LedSync.ApplyEntry | Driver.Corsair/CUEDriver.cs:685-703 | one pass of the read loop, writing the colour into the array in place, leaves the LEDs as `ReadBackStep` says |
| LedSync.ReadBack | Driver.Corsair/CUEDriver.cs:681-705 | reading back never changes an LED's data or name, nor the number of LEDs |
| LedSync.Pull | Driver.Corsair/CUEDriver.cs:665-709 | a device whose LEDs are unset makes the call fail before anything changes; otherwise the LEDs end as `ReadBack` says and the result reports whether every entry was read |
| LedSync.ReadBackInPlace | Driver.Corsair/CUEDriver.cs:680-706 | the read loop over the returned buffer, writing colours in place, leaves the LEDs as `ReadBack` says and reports whether it ran to the end |
| LedSync.PushEntry | Driver.Corsair/CUEDriver.cs:642-646 | definition, no contract of its own: one buffer entry, with the LED's SDK id and its colours cut to bytes; `PushPayload` states the properties |
| LedSync.Recolour | Driver.Corsair/CUEDriver.cs:691 | definition, no contract of its own: the LED with its colour replaced by the entry's |
| LedSync.ReadBackStops | Driver.Corsair/CUEDriver.cs:681-705 | once an entry throws, later entries change nothing |
| LedSync.ReadBackKeepsData | Driver.Corsair/CUEDriver.cs:681-705 | the LEDs' data after reading back is the data before |
| LedSync.OwnIdFindsOwnLed | Driver.Corsair/CUEDriver.cs:687-699 | with distinct ids on a single-kind device, LED `k`'s id finds LED `k` |
| LedSync.EchoStep | Driver.Corsair/CUEDriver.cs:685-701 | an entry carrying LED `k`'s id recolours LED `k` and nothing else |
| LedSync.PullEchoed | Driver.Corsair/CUEDriver.cs:665-709 | when the SDK echoes the ids it was given, LED `k` takes entry `k`'s colour and nothing else changes |
| LedSync.PushPullRoundTrip | Driver.Corsair/CUEDriver.cs:629-709 | pulling back exactly the buffer `Push` built leaves a single-kind device with distinct ids and byte-range colours unchanged |
| Text.IntToString | Driver.Corsair/CUEDriver.cs:407-410 | the `(dev + 1).ToString()` here and the same number-to-text conversion at :300, :319, :471, :497 and :528: non-negative numbers print as their digits; negative ones start with '-' |
| Text.NatToStringInjective | Driver.Corsair/CorsairRGBDeviceInfo.cs:90 | different numbers print differently |
| Text.RemoveAll | Driver.Corsair/CUEDriver.cs:186 | `Replace(pattern, "")` never lengthens a string |
| Text.RemoveAllSkipsPrefix | Driver.Corsair/CUEDriver.cs:186 | a prefix at which no occurrence of the pattern starts is kept, and the left-to-right scan resumes after it |
| Text.RemoveAllRemoves | Driver.Corsair/CUEDriver.cs:186 | the first occurrence of the pattern is removed and the scan resumes right after it, so `Replace` drops every non-overlapping occurrence found left to right |
| Text.RemoveAllAbsent | Driver.Corsair/CUEDriver.cs:186 | a string without the pattern is unchanged |
| Text.Trim | Driver.Corsair/CUEDriver.cs:186 | `Trim` returns the span of the string between a white-space prefix and a white-space suffix, and the span neither starts nor ends with white space |
| Text.TrimSpan | Driver.Corsair/CUEDriver.cs:186 | trimming the start and then the end leaves exactly the span between the leading and the trailing white space |
| Text.TrimStart | Driver.Corsair/CUEDriver.cs:186 | only leading white space is removed, and all of it |
| Text.TrimEnd | Driver.Corsair/CUEDriver.cs:186 | only trailing white space is removed, and all of it |

## Left out

- The SDK itself, marshalling, `HomePath`/`Reload`, `GetImage` (bitmap loading), `Dispose`, `GetProperties`, `GetConfig`/`PutConfig`, `Name` and `Debug.WriteLine` are not modelled. The SDK's answers are parameters (`RawDevice`, the handshake result and errors), and a device's thumbnail is its image key.
- The numeric values of `CorsairLedId` come from an enumeration that is not part of this model; they are the `ChannelBases` parameter. `Addressing.LedAddress` works on the integer value the source computes.
- LED positions are `double` in the SDK; the model takes them as integers. The LED coordinates and grid size are `(int)` casts in the source, but the plain-LED order sorts by `top + left` on the doubles themselves (CUEDriver.cs:519). The model does not capture that order for fractional positions: (0.6, 0.6) sorts after (1.0, 0.0) on doubles.
- `int` arithmetic is unbounded. The 32-bit overflow of `ref + dev * deviceLedCount` and of the address formula is not modelled, because SDK ids and LED counts are small.
- `LedSync.ToByte` models the unchecked `(byte)` cast as the low eight bits, the behaviour of the default unchecked context.
- The host's `LedUnit` default colour is a host type that is not part of this model. The model starts every LED at `Unlit` (0, 0, 0).
- The regular expression " ?DEMO" with `IgnoreCase` is modelled for ASCII letters only; culture-sensitive case folding is left out. `Trim` uses the white-space set of `Char.IsWhiteSpace`.
- Devices and LEDs are values. The aliasing of `ControlDevice` objects between the `devices` list and the `GroupBy` groups is modelled by renaming in place over one array. The aliasing of LED units between the host and `Pull` is modelled by `Pull` working in place on the device's LED array.
- Concurrency and the `DeviceRescanRequired` event are not modelled.
- `CustomDeviceSpecifications` and the custom device specs are not used by the core walk and are not part of this model.
- The image dictionary is a list of its 56 pairs, in initializer order; `Classification.ImageTableKeysDistinct` proves no key repeats, so the first match is the dictionary's entry.
- `Driver.BuildSubDevices` is given the sub-device class worked out once per channel. The source re-runs the `switch` on every pass, but always on the same record, so the class is the same.
- `DeviceInfo.CorsairRGBDeviceInfo.WithModelName` takes a non-null model name. A null `modelName` would make the counter lookup throw, as a null native model does in `FromNative`.
- `Dedup.DedupUniqueWhenNoHash`: unique names after renaming are proved only when no name contains '#'. In general the renaming does not guarantee them (`Dedup.DedupCollision`).
