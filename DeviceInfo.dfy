/**
 `CorsairRGBDeviceInfo`: the managed view of one native device record, and the
 per-model counter that gives equal models distinct device names.
 */
module DeviceInfo {
  import opened Text
  import opened CorsairSdk

  const Manufacturer: string := "Corsair"

  /** `c` equals the upper-case ASCII letter `u` ignoring case. */
  predicate SameLetter(c: char, u: char)
    requires 'A' <= u <= 'Z'
  {
    c == u || c as int == u as int + 32
  }

  /** "DEMO", in any mix of cases, starts at index `i` of `s`. */
  predicate DemoAt(s: string, i: nat)
  {
    i + 4 <= |s| && SameLetter(s[i], 'D') && SameLetter(s[i + 1], 'E')
    && SameLetter(s[i + 2], 'M') && SameLetter(s[i + 3], 'O')
  }

  /**
   `Regex.Replace(s, " ?DEMO", "", RegexOptions.IgnoreCase)`: scanning left to
   right, a match with the optional space is preferred, then one without it;
   matches are removed and scanning resumes after them.
   */
  function StripDemo(s: string): (r: string)
    ensures |r| <= |s|
    decreases |s|
  {
    if |s| == 0 then ""
    else if s[0] == ' ' && DemoAt(s, 1) then StripDemo(s[5..])
    else if DemoAt(s, 0) then StripDemo(s[4..])
    else [s[0]] + StripDemo(s[1..])
  }

  /** The managed `Model`: null for a null native pointer, otherwise the string with " ?DEMO" removed. */
  function NormaliseModel(native: Option<string>): (model: Option<string>)
    ensures native.None? <==> model.None?
    ensures native.Some? ==> |model.value| <= |native.value|
  {
    match native
    case None => None
    case Some(s) => Some(StripDemo(s))
  }

  /** A model string with no "demo" in any case is left as it is. */
  lemma {:induction false} StripDemoNoDemo(s: string)
    requires forall i: nat :: i < |s| ==> !DemoAt(s, i)
    ensures StripDemo(s) == s
    decreases |s|
  {
    if |s| > 0 {
      assert !DemoAt(s, 0) && (|s| > 1 ==> !DemoAt(s, 1));
      forall i: nat | i < |s[1..]|
        ensures !DemoAt(s[1..], i)
      {
        assert !DemoAt(s, i + 1);
      }
      StripDemoNoDemo(s[1..]);
      assert s == [s[0]] + s[1..];
    }
  }

  /**
   A prefix in which no match starts, not even one running on into `rest`, is
   kept as it is and scanning goes on with `rest`.
   */
  lemma {:induction false} StripDemoKeepsPrefix(m: string, rest: string)
    requires forall i: nat :: i < |m| ==>
               !DemoAt(m + rest, i) && !((m + rest)[i] == ' ' && DemoAt(m + rest, i + 1))
    ensures StripDemo(m + rest) == m + StripDemo(rest)
    decreases |m|
  {
    if m != [] {
      var s := m + rest;
      assert !DemoAt(s, 0) && !(s[0] == ' ' && DemoAt(s, 1));
      assert s[1..] == m[1..] + rest;
      forall i: nat | i < |m[1..]|
        ensures !DemoAt(m[1..] + rest, i) && !((m[1..] + rest)[i] == ' ' && DemoAt(m[1..] + rest, i + 1))
      {
        assert !DemoAt(s, i + 1) && !(s[i + 1] == ' ' && DemoAt(s, i + 2));
      }
      StripDemoKeepsPrefix(m[1..], rest);
      assert s[0] == m[0] && m == [m[0]] + m[1..];
    } else {
      assert m + rest == rest;
    }
  }

  /** A " DEMO" (any case) after a match-free prefix is removed together with its space. */
  lemma StripDemoRemovesSpaced(m: string, w: string, t: string)
    requires forall i: nat :: i < |m| ==> !DemoAt(m, i)
    requires |w| == 4 && DemoAt(w, 0)
    ensures StripDemo(m + " " + w + t) == m + StripDemo(t)
  {
    var rest := " " + w + t;
    var s := m + rest;
    assert s == m + " " + w + t;
    forall i: nat | i < |m|
      ensures !DemoAt(s, i) && !(s[i] == ' ' && DemoAt(s, i + 1))
    {
      assert s[|m|] == ' ';
      if i + 4 <= |m| {
        assert !DemoAt(m, i);
        assert s[i] == m[i] && s[i + 1] == m[i + 1] && s[i + 2] == m[i + 2] && s[i + 3] == m[i + 3];
      }
      if i + 5 <= |m| {
        assert !DemoAt(m, i + 1);
        assert s[i + 1] == m[i + 1] && s[i + 2] == m[i + 2] && s[i + 3] == m[i + 3] && s[i + 4] == m[i + 4];
      }
    }
    StripDemoKeepsPrefix(m, rest);
    assert rest[0] == ' ' && DemoAt(rest, 1) && rest[5..] == t;
  }

  /**
   A "DEMO" (any case) with no space before it, after a match-free prefix, is
   removed on its own.
   */
  lemma StripDemoRemovesBare(m: string, w: string, t: string)
    requires forall i: nat :: i < |m| ==> !DemoAt(m, i)
    requires m == [] || m[|m| - 1] != ' '
    requires |w| == 4 && DemoAt(w, 0)
    ensures StripDemo(m + w + t) == m + StripDemo(t)
  {
    var rest := w + t;
    var s := m + rest;
    assert s == m + w + t;
    forall i: nat | i < |m|
      ensures !DemoAt(s, i) && !(s[i] == ' ' && DemoAt(s, i + 1))
    {
      assert s[|m|] == w[0];
      if i + 4 <= |m| {
        assert !DemoAt(m, i);
        assert s[i] == m[i] && s[i + 1] == m[i + 1] && s[i + 2] == m[i + 2] && s[i + 3] == m[i + 3];
      }
      if i + 5 <= |m| {
        assert !DemoAt(m, i + 1);
        assert s[i + 1] == m[i + 1] && s[i + 2] == m[i + 2] && s[i + 3] == m[i + 3] && s[i + 4] == m[i + 4];
      }
      if i + 1 == |m| {
        assert s[i] == m[|m| - 1];
      }
    }
    StripDemoKeepsPrefix(m, rest);
    assert rest[0] == w[0] && DemoAt(rest, 0) && rest[4..] == t;
    assert !(rest[0] == ' ');
  }

  /** "Corsair <model>" for the first sighting, "Corsair <model> <k>" for the k-th (k >= 2). */
  function SightingName(model: string, k: nat): string
  {
    if k <= 1 then Manufacturer + " " + model
    else Manufacturer + " " + model + " " + NatToString(k)
  }

  /**
   What `GetUniqueModelName` computes from the counter dictionary: the name and
   the new dictionary. A model already present has its counter incremented
   before use; a new model is added with counter 1.
   */
  function UniqueModelName(model: string, counts: map<string, int>): (result: (string, map<string, int>))
    ensures model in result.1
    ensures forall m :: m != model ==> (m in result.1 <==> m in counts)
    ensures forall m :: m != model && m in counts ==> result.1[m] == counts[m]
  {
    if model in counts then
      var counter := counts[model] + 1;
      (Manufacturer + " " + model + " " + IntToString(counter), counts[model := counter])
    else
      (Manufacturer + " " + model, counts[model := 1])
  }

  /** First sighting: named "Corsair <model>", counter set to 1. */
  lemma FirstSighting(model: string, counts: map<string, int>)
    requires model !in counts
    ensures UniqueModelName(model, counts).0 == SightingName(model, 1)
    ensures UniqueModelName(model, counts).1 == counts[model := 1]
  {
  }

  /** A later sighting: the counter goes from k-1 to k and the name carries k. */
  lemma LaterSighting(model: string, counts: map<string, int>, k: nat)
    requires k >= 2 && model in counts && counts[model] == k - 1
    ensures UniqueModelName(model, counts).0 == SightingName(model, k)
    ensures UniqueModelName(model, counts).1 == counts[model := k]
  {
  }

  /** The names of the k-th and l-th sighting of one model differ whenever k != l. */
  lemma {:induction false} SightingNamesDistinct(model: string, k: nat, l: nat)
    requires 1 <= k < l
    ensures SightingName(model, k) != SightingName(model, l)
  {
    var prefix := Manufacturer + " " + model + " ";
    if k == 1 {
      assert |SightingName(model, k)| < |SightingName(model, l)|;
    } else if SightingName(model, k) == SightingName(model, l) {
      var a, b := NatToString(k), NatToString(l);
      assert SightingName(model, k) == prefix + a;
      assert SightingName(model, l) == prefix + b;
      assert a == (prefix + a)[|prefix|..];
      assert b == (prefix + b)[|prefix|..];
      NatToStringInjective(k, l);
    }
  }

  /** Names given to `models`, in order, by one counter dictionary that starts as `counts`. */
  function NameAll(models: seq<string>, counts: map<string, int>): (result: (seq<string>, map<string, int>))
    ensures |result.0| == |models|
    decreases |models|
  {
    if models == [] then ([], counts)
    else
      var first := UniqueModelName(models[0], counts);
      var rest := NameAll(models[1..], first.1);
      ([first.0] + rest.0, rest.1)
  }

  /** The dictionary after the models in `seen` have been named, one after the other, starting from `counts`. */
  function CountsAfter(seen: seq<string>, counts: map<string, int>): map<string, int>
    decreases |seen|
  {
    if seen == [] then counts else CountsAfter(seen[1..], UniqueModelName(seen[0], counts).1)
  }

  /**
   The counter of a model after a run of namings is its starting counter plus
   the number of times it was named; a model is present exactly when it was
   present already or was named at least once.
   */
  lemma {:induction false} CountsAfterValue(seen: seq<string>, counts: map<string, int>, m: string)
    ensures m in CountsAfter(seen, counts) <==> m in counts || Occurrences(seen, m) > 0
    ensures m in CountsAfter(seen, counts) ==>
      CountsAfter(seen, counts)[m] == (if m in counts then counts[m] else 0) + Occurrences(seen, m)
    decreases |seen|
  {
    if seen != [] {
      CountsAfterValue(seen[1..], UniqueModelName(seen[0], counts).1, m);
    }
  }

  /** One more naming extends the fold by one step. */
  lemma {:induction false} CountsAfterAppend(seen: seq<string>, m: string, counts: map<string, int>)
    ensures CountsAfter(seen + [m], counts) == UniqueModelName(m, CountsAfter(seen, counts)).1
    decreases |seen|
  {
    if seen == [] {
      assert [] + [m] == [m];
    } else {
      assert (seen + [m])[1..] == seen[1..] + [m];
      CountsAfterAppend(seen[1..], m, UniqueModelName(seen[0], counts).1);
    }
  }

  /** After the models in `seen`, a model is named after the number of its earlier sightings. */
  lemma NamedAfterSightings(seen: seq<string>, m: string)
    ensures UniqueModelName(m, CountsAfter(seen, map[])).0 == SightingName(m, Occurrences(seen, m) + 1)
  {
    var c := CountsAfter(seen, map[]);
    var k := Occurrences(seen, m);
    CountsAfterValue(seen, map[], m);
    if m in c {
      assert c[m] == k && k >= 1;
      LaterSighting(m, c, k + 1);
    } else {
      assert k == 0;
      FirstSighting(m, c);
    }
  }

  /** The i-th name given by `NameAll` is the one the dictionary holding the first i namings gives. */
  lemma {:induction false} NameAllPrefix(models: seq<string>, counts: map<string, int>, i: nat)
    requires i < |models|
    ensures NameAll(models, counts).0[i] == UniqueModelName(models[i], CountsAfter(models[..i], counts)).0
    decreases |models|
  {
    var first := UniqueModelName(models[0], counts);
    var rest := NameAll(models[1..], first.1);
    assert NameAll(models, counts).0 == [first.0] + rest.0;
    if i == 0 {
      assert models[..0] == [];
    } else {
      NameAllPrefix(models[1..], first.1, i - 1);
      assert models[..i][1..] == models[1..][..i - 1];
      assert models[1..][i - 1] == models[i];
    }
  }

  /**
   With a dictionary that starts empty, the i-th model is named after the number
   of its earlier sightings, whatever other models come in between.
   */
  lemma {:induction false} NameAllSightings(models: seq<string>, i: nat)
    requires i < |models|
    ensures NameAll(models, map[]).0[i] == SightingName(models[i], Occurrences(models[..i], models[i]) + 1)
  {
    NameAllPrefix(models, map[], i);
    NamedAfterSightings(models[..i], models[i]);
  }

  /** Devices of the same model that share one counter dictionary get pairwise distinct names. */
  lemma {:induction false} SameModelNamesDistinct(models: seq<string>, i: nat, j: nat)
    requires i < j < |models| && models[i] == models[j]
    ensures NameAll(models, map[]).0[i] != NameAll(models, map[]).0[j]
  {
    var m := models[i];
    assert models[..j] == models[..i] + models[i..j];
    OccurrencesAppend(models[..i], models[i..j], m);
    assert models[i..j][0] == m;
    NameAllSightings(models, i);
    NameAllSightings(models, j);
    SightingNamesDistinct(m, Occurrences(models[..i], m) + 1, Occurrences(models[..j], m) + 1);
  }

  /** The driver's shared `Dictionary<string, int>` of per-model counters. */
  class ModelCounter {
    var counts: map<string, int>

    constructor ()
      ensures counts == map[]
    {
      counts := map[];
    }
  }

  /** `CorsairRGBDeviceInfo`: fields set once by a constructor. */
  class CorsairRGBDeviceInfo {
    const corsairDeviceIndex: int
    const corsairDeviceType: CorsairDeviceType
    /** The host-library device-kind label the caller passes in (the walk always passes "Other"). */
    const deviceType: string
    const model: Option<string>
    /** The raw capability mask, read through `HasFlag`. */
    const capsMask: int
    var deviceName: string

    /**
     The constructor over a native record. The model is normalised, then named
     through the shared counter; a null model makes the counter lookup throw,
     so the caller must supply a non-null one.
     */
    constructor FromNative(deviceIndex: int, deviceType: string, nativeInfo: NativeDeviceInfo, modelCounter: ModelCounter)
      requires nativeInfo.model.Some?
      modifies modelCounter
      ensures corsairDeviceIndex == deviceIndex && this.deviceType == deviceType
      ensures corsairDeviceType == nativeInfo.deviceType
      ensures model == NormaliseModel(nativeInfo.model) && capsMask == nativeInfo.capsMask
      ensures (deviceName, modelCounter.counts) == UniqueModelName(model.value, old(modelCounter.counts))
    {
      corsairDeviceIndex := deviceIndex;
      this.deviceType := deviceType;
      corsairDeviceType := nativeInfo.deviceType;
      model := NormaliseModel(nativeInfo.model);
      capsMask := nativeInfo.capsMask;
      new;
      deviceName := GetUniqueModelName(modelCounter);
    }

    /** The constructor that takes the model name as given, without normalising it. */
    constructor WithModelName(deviceIndex: int, deviceType: string, nativeInfo: NativeDeviceInfo, modelName: string, modelCounter: ModelCounter)
      modifies modelCounter
      ensures corsairDeviceIndex == deviceIndex && this.deviceType == deviceType
      ensures corsairDeviceType == nativeInfo.deviceType
      ensures model == Some(modelName) && capsMask == nativeInfo.capsMask
      ensures (deviceName, modelCounter.counts) == UniqueModelName(modelName, old(modelCounter.counts))
    {
      corsairDeviceIndex := deviceIndex;
      this.deviceType := deviceType;
      corsairDeviceType := nativeInfo.deviceType;
      model := Some(modelName);
      capsMask := nativeInfo.capsMask;
      new;
      deviceName := GetUniqueModelName(modelCounter);
    }

    /**
     Names this device after its model and updates the shared counter: only
     the entry for `model` changes.
     */
    method GetUniqueModelName(modelCounter: ModelCounter) returns (name: string)
      requires model.Some?
      modifies modelCounter
      ensures (name, modelCounter.counts) == UniqueModelName(model.value, old(modelCounter.counts))
      ensures model.value !in old(modelCounter.counts) ==> name == SightingName(model.value, 1) && modelCounter.counts[model.value] == 1
      ensures forall m :: m != model.value && m in old(modelCounter.counts) ==> m in modelCounter.counts && modelCounter.counts[m] == old(modelCounter.counts)[m]
    {
      var m := model.value;
      if m in modelCounter.counts {
        var counter := modelCounter.counts[m] + 1;
        modelCounter.counts := modelCounter.counts[m := counter];
        name := Manufacturer + " " + m + " " + IntToString(counter);
      } else {
        modelCounter.counts := modelCounter.counts[m := 1];
        name := Manufacturer + " " + m;
      }
    }
  }
}
