/**
 Colour exchange with the SDK: the buffer `Push` hands over for a device, and
 how `Pull` writes the colours the SDK reports back into the device's LEDs.
 */
module LedSync {
  import opened Text
  import opened CorsairSdk
  import opened ControlDevices

  // ---------------------------------------------------------------------------
  // Push

  /** `(byte)x` in an unchecked context: the low eight bits of a two's-complement integer. */
  function ToByte(x: int): (b: int)
    ensures 0 <= b < 256
    ensures (x - b) % 256 == 0
    ensures 0 <= x < 256 ==> b == x
  {
    x % 256
  }

  /** The buffer entry for one LED: its SDK id, whichever kind of data it has, and its colour cut to bytes. */
  function PushEntry(led: LedUnit): LedColor
  {
    LedColor(led.data.ledId, ToByte(led.color.red), ToByte(led.color.green), ToByte(led.color.blue))
  }

  /** The buffer `Push` fills: one entry per LED, in LED order. */
  function PushPayload(leds: seq<LedUnit>): (payload: seq<LedColor>)
    ensures |payload| == |leds|
    ensures forall k :: 0 <= k < |leds| ==>
      payload[k].ledId == leds[k].data.ledId
      && 0 <= payload[k].r < 256 && 0 <= payload[k].g < 256 && 0 <= payload[k].b < 256
    ensures forall k :: 0 <= k < |leds| && InByteRange(leds[k].color) ==>
      (payload[k].r, payload[k].g, payload[k].b) == (leds[k].color.red, leds[k].color.green, leds[k].color.blue)
  {
    seq(|leds|, k requires 0 <= k < |leds| => PushEntry(leds[k]))
  }

  predicate InByteRange(c: LedColour)
  {
    0 <= c.red < 256 && 0 <= c.green < 256 && 0 <= c.blue < 256
  }

  /** The SDK call `Push` makes: the device index, the LED count and the buffer. */
  datatype PushCall = PushCall(deviceIndex: int, count: int, buffer: seq<LedColor>)

  /**
   `Push` for one device. A device whose LED array was never set (a hub's
   parent, a keyboard without positions) makes `Push` throw.
   */
  function Push(d: ControlDevice): (call: Option<PushCall>)
    ensures call.Some? <==> d.leds.Some?
    ensures call.Some? ==>
      call.value.deviceIndex == d.corsairDeviceIndex
      && call.value.count == |d.leds.value| == |call.value.buffer|
  {
    match d.leds
    case None => None
    case Some(leds) => Some(PushCall(d.corsairDeviceIndex, |leds|, PushPayload(leds)))
  }

  // ---------------------------------------------------------------------------
  // Pull

  /** The data of each LED, in order; reading colours back never changes it. */
  function Datas(leds: seq<LedUnit>): (ds: seq<LedData>)
    ensures |ds| == |leds|
    ensures forall k :: 0 <= k < |leds| ==> ds[k] == leds[k].data
  {
    seq(|leds|, k requires 0 <= k < |leds| => leds[k].data)
  }

  /** Whether a cast of `d` to the positional (or, for `false`, the plain) data class succeeds. */
  predicate Fits(d: LedData, positional: bool)
  {
    d.Positional? == positional
  }

  /** `d` is cast successfully and does not carry `id`: the search moves past it. */
  predicate Passes(d: LedData, id: int, positional: bool)
  {
    Fits(d, positional) && d.ledId != id
  }

  /** What one `FirstOrDefault` search ends with. */
  datatype Probe = Match(index: nat) | NoMatch | CastFails

  /**
   `FirstOrDefault` from LED `i` on, with a predicate that casts each LED's
   data before comparing ids: the first LED with the id, no match, or an LED of
   the other kind reached first (the cast throws).
   */
  function ProbeFrom(ds: seq<LedData>, id: int, positional: bool, i: nat): (r: Probe)
    requires i <= |ds|
    ensures r.Match? ==>
      i <= r.index < |ds| && Fits(ds[r.index], positional) && ds[r.index].ledId == id
      && forall j :: i <= j < r.index ==> Passes(ds[j], id, positional)
    ensures r.NoMatch? ==> forall j :: i <= j < |ds| ==> Passes(ds[j], id, positional)
    ensures r.CastFails? ==>
      exists k :: i <= k < |ds| && !Fits(ds[k], positional) && forall j :: i <= j < k ==> Passes(ds[j], id, positional)
    decreases |ds| - i
  {
    if i == |ds| then NoMatch
    else if !Fits(ds[i], positional) then CastFails
    else if ds[i].ledId == id then Match(i)
    else ProbeFrom(ds, id, positional, i + 1)
  }

  /** Where one returned entry goes: into LED `index`, nowhere, or `Pull` throws. */
  datatype Target = SetLed(index: nat) | Ignore | Throws

  /**
   The `try` searches as plain LEDs; when a cast fails, the `catch` searches
   again as positional LEDs, and a failing cast there escapes `Pull`.
   */
  function FindTarget(ds: seq<LedData>, id: int): (t: Target)
    ensures t.SetLed? ==> t.index < |ds| && ds[t.index].ledId == id && forall j :: 0 <= j < t.index ==> ds[j].ledId != id
    ensures t.Ignore? ==> forall j :: 0 <= j < |ds| ==> ds[j].ledId != id
    ensures t.Throws? ==> (exists j :: 0 <= j < |ds| && ds[j].Plain?) && (exists j :: 0 <= j < |ds| && ds[j].Positional?)
  {
    match ProbeFrom(ds, id, false, 0)
    case Match(k) => SetLed(k)
    case NoMatch => Ignore
    case CastFails =>
      match ProbeFrom(ds, id, true, 0)
      case Match(k) => SetLed(k)
      case NoMatch => Ignore
      case CastFails => Throws
  }

  /** All LEDs carry the same kind of data, as every device the walk builds does. */
  predicate Uniform(ds: seq<LedData>)
  {
    forall j, k :: 0 <= j < |ds| && 0 <= k < |ds| ==> ds[j].Positional? == ds[k].Positional?
  }

  /** On a device whose LEDs are all of one kind the search never throws. */
  lemma UniformNeverThrows(ds: seq<LedData>, id: int)
    requires Uniform(ds)
    ensures !FindTarget(ds, id).Throws?
  {
  }

  /** An LED takes the colour of a returned entry. */
  function Recolour(led: LedUnit, c: LedColor): LedUnit
  {
    led.(color := LedColour(c.r, c.g, c.b))
  }

  /**
   One returned entry read back: the first LED with its id takes its colour,
   an entry no LED matches is ignored, and a failing cast ends `Pull`.
   */
  function ReadBackStep(leds: seq<LedUnit>, c: LedColor): (r: (seq<LedUnit>, bool))
    ensures |r.0| == |leds|
    ensures forall k :: 0 <= k < |leds| ==> r.0[k].data == leds[k].data && r.0[k].name == leds[k].name
  {
    match FindTarget(Datas(leds), c.ledId)
    case SetLed(k) =>
      (leds[k := Recolour(leds[k], c)], true)
    case Ignore => (leds, true)
    case Throws => (leds, false)
  }

  /**
   The LEDs after the first `n` returned entries are read back, and whether
   `Pull` is still running: once an entry throws, nothing more is read.
   */
  function ReadBack(leds: seq<LedUnit>, returned: seq<LedColor>, n: nat): (r: (seq<LedUnit>, bool))
    requires n <= |returned|
    ensures |r.0| == |leds|
    ensures forall k :: 0 <= k < |leds| ==> r.0[k].data == leds[k].data && r.0[k].name == leds[k].name
    decreases n
  {
    if n == 0 then (leds, true)
    else
      var prev := ReadBack(leds, returned, n - 1);
      if !prev.1 then prev else ReadBackStep(prev.0, returned[n - 1])
  }

  /**
   `Pull` on a device whose LED list is `leds`: a device without LEDs makes
   the call throw when it counts them, before the SDK is asked; otherwise the
   read loop runs over the buffer the SDK filled.
   */
  method Pull(leds: Option<array<LedUnit>>, returned: seq<LedColor>) returns (ok: bool)
    requires leds.Some? ==> |returned| == leds.value.Length
    modifies if leds.Some? then {leds.value} else {}
    ensures leds.None? ==> !ok
    ensures leds.Some? ==> (leds.value[..], ok) == ReadBack(old(leds.value[..]), returned, |returned|)
  {
    if leds.None? {
      return false;
    }
    ok := ReadBackInPlace(leds.value, returned);
  }

  /**
   `Pull`'s read loop over the buffer the SDK filled (one entry per LED):
   each entry recolours the first LED with its id; an entry that throws ends
   the call with the earlier entries already applied.
   */
  method ReadBackInPlace(leds: array<LedUnit>, returned: seq<LedColor>) returns (ok: bool)
    requires |returned| == leds.Length
    modifies leds
    ensures (leds[..], ok) == ReadBack(old(leds[..]), returned, |returned|)
  {
    ghost var orig := leds[..];
    ok := true;
    var i := 0;
    while i < |returned|
      invariant 0 <= i <= |returned|
      invariant ReadBack(orig, returned, i).1
      invariant ReadBack(orig, returned, i).0 == leds[..]
    {
      ok := ApplyEntry(leds, returned[i]);
      if !ok {
        ReadBackStops(orig, returned, i + 1, |returned|);
        return;
      }
      i := i + 1;
    }
  }

  /** One pass of the read loop: the entry's colour goes into the first LED with its id. */
  method ApplyEntry(leds: array<LedUnit>, c: LedColor) returns (ok: bool)
    modifies leds
    ensures (leds[..], ok) == ReadBackStep(old(leds[..]), c)
  {
    ghost var before := leds[..];
    var t := FindTarget(Datas(leds[..]), c.ledId);
    match t {
      case SetLed(k) =>
        leds[k] := Recolour(leds[k], c);
        assert leds[..] == before[k := Recolour(before[k], c)];
        ok := true;
      case Ignore =>
        ok := true;
      case Throws =>
        ok := false;
    }
  }

  /** After an entry throws, later entries change nothing. */
  lemma {:induction false} ReadBackStops(leds: seq<LedUnit>, returned: seq<LedColor>, m: nat, n: nat)
    requires m <= n <= |returned| && !ReadBack(leds, returned, m).1
    ensures ReadBack(leds, returned, n) == ReadBack(leds, returned, m)
    decreases n - m
  {
    if m < n {
      ReadBackStops(leds, returned, m, n - 1);
    }
  }

  /** No two LEDs carry the same SDK id. */
  predicate DistinctIds(ds: seq<LedData>)
  {
    forall j, k :: 0 <= j < k < |ds| ==> ds[j].ledId != ds[k].ledId
  }

  /**
   When the SDK echoes the ids it was given, on a device of one kind with
   distinct ids, LED `k` gets the colour of entry `k` and nothing else changes.
   */
  lemma {:induction false} PullEchoed(leds: seq<LedUnit>, returned: seq<LedColor>, n: nat)
    requires n <= |returned| == |leds|
    requires Uniform(Datas(leds)) && DistinctIds(Datas(leds))
    requires forall k :: 0 <= k < |leds| ==> returned[k].ledId == leds[k].data.ledId
    ensures ReadBack(leds, returned, n).1
    ensures forall k :: 0 <= k < |leds| ==>
      ReadBack(leds, returned, n).0[k] == if k < n then Recolour(leds[k], returned[k]) else leds[k]
    decreases n
  {
    if n > 0 {
      PullEchoed(leds, returned, n - 1);
      var cur := ReadBack(leds, returned, n - 1).0;
      ReadBackKeepsData(leds, returned, n - 1);
      EchoStep(leds, cur, returned[n - 1], n - 1);
      assert ReadBack(leds, returned, n) == ReadBackStep(cur, returned[n - 1]);
    }
  }

  /**
   One entry carrying LED `k`'s id, read back into LEDs whose data is that of
   `leds`, recolours LED `k` and nothing else.
   */
  lemma EchoStep(leds: seq<LedUnit>, cur: seq<LedUnit>, c: LedColor, k: nat)
    requires Uniform(Datas(leds)) && DistinctIds(Datas(leds)) && k < |leds|
    requires |cur| == |leds| && Datas(cur) == Datas(leds)
    requires c.ledId == leds[k].data.ledId
    ensures ReadBackStep(cur, c) == (cur[k := Recolour(cur[k], c)], true)
  {
    OwnIdFindsOwnLed(Datas(leds), k);
  }

  /** Reading colours back leaves every LED's data as it was. */
  lemma ReadBackKeepsData(leds: seq<LedUnit>, returned: seq<LedColor>, n: nat)
    requires n <= |returned|
    ensures Datas(ReadBack(leds, returned, n).0) == Datas(leds)
  {
    var cur := ReadBack(leds, returned, n).0;
    assert forall i :: 0 <= i < |leds| ==> Datas(cur)[i] == Datas(leds)[i];
  }

  /** With distinct ids on a device of one kind, an entry carrying LED `k`'s id lands on LED `k`. */
  lemma OwnIdFindsOwnLed(ds: seq<LedData>, k: nat)
    requires Uniform(ds) && DistinctIds(ds) && k < |ds|
    ensures FindTarget(ds, ds[k].ledId) == SetLed(k)
  {
    UniformNeverThrows(ds, ds[k].ledId);
  }

  /**
   Push then Pull is the identity: reading back exactly the buffer `Push`
   produced leaves a device of one kind with distinct ids and byte-range
   colours unchanged.
   */
  lemma PushPullRoundTrip(leds: seq<LedUnit>)
    requires Uniform(Datas(leds)) && DistinctIds(Datas(leds))
    requires forall k :: 0 <= k < |leds| ==> InByteRange(leds[k].color)
    ensures ReadBack(leds, PushPayload(leds), |leds|) == (leds, true)
  {
    var p := PushPayload(leds);
    PullEchoed(leds, p, |leds|);
  }
}
