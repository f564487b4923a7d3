/**
 How the driver labels what the SDK reports: the host's device kind for a
 top-level device, the name, kind and thumbnail of a channel sub-device, and
 the thumbnail key chosen for a device name.
 */
module Classification {
  import opened Text
  import opened CorsairSdk

  /** The host library's device-kind labels (`DeviceTypes.*`). */
  datatype DeviceKind =
    | Keyboard | Mouse | MousePad | Headset | HeadsetStand | MotherBoard
    | GPU | Cooler | Fan | LedStrip | Memory | Other

  /** Device types the SDK reports that have no kind of their own. */
  predicate KindlessType(t: CorsairDeviceType)
  {
    t == Unknown || t == Unknown2 || t == CommanderPro || t == LightningNodePro
  }

  /**
   `GetDeviceType`: the kind of a top-level device. Top-level devices are never
   fans or strips, and exactly the kindless types become `Other`.
   */
  function GetDeviceType(t: CorsairDeviceType): (k: DeviceKind)
    ensures k != Fan && k != LedStrip
    ensures k == Other <==> KindlessType(t)
  {
    match t
    case Cooler => DeviceKind.Cooler
    case CommanderPro => Other
    case Headset => DeviceKind.Headset
    case HeadsetStand => DeviceKind.HeadsetStand
    case Keyboard => DeviceKind.Keyboard
    case MemoryModule => Memory
    case Motherboard => MotherBoard
    case GraphicsCard => GPU
    case Unknown => Other
    case Mouse => DeviceKind.Mouse
    case Mousepad => MousePad
    case LightningNodePro => Other
    case _ => Other
  }

  /** Two device types with a kind of their own never share it. */
  lemma GetDeviceTypeInjective(t1: CorsairDeviceType, t2: CorsairDeviceType)
    requires t1 != t2 && GetDeviceType(t1) == GetDeviceType(t2)
    ensures KindlessType(t1) && KindlessType(t2)
  {
  }

  /** Name stem, kind and thumbnail key of a channel sub-device. */
  datatype SubDeviceClass = SubDeviceClass(name: string, kind: DeviceKind, imageKey: string)

  predicate IsFanType(t: CorsairChannelDeviceType)
  {
    t == FanHD || t == FanSP || t == FanML || t == FanLL || t == FanQL
  }

  /**
   The sub-device switch of the channel walk. It is total; only fans are fans,
   only strips and the 27-LED invalid device (an LT100 tower) are strips, and
   everything else — pump included — stays `Other` with the placeholder image.
   */
  function ClassifySubDevice(t: CorsairChannelDeviceType, ledCount: int): (c: SubDeviceClass)
    ensures c.kind == Fan <==> IsFanType(t)
    ensures c.kind == LedStrip <==> t == Strip || (t == Invalid && ledCount == 27)
    ensures c.kind == Fan || c.kind == LedStrip || c.kind == Other
    ensures c.imageKey == "CorsairPlaceholder" <==> c.kind == Other
    ensures c.name == "Unknown" <==> (t == Invalid && ledCount != 27) || t == Pump
  {
    match t
    case Invalid =>
      if ledCount == 27 then SubDeviceClass("LT100RGB", LedStrip, "LT100")
      else SubDeviceClass("Unknown", Other, "CorsairPlaceholder")
    case FanHD => SubDeviceClass("HD Fan", Fan, "HDFan")
    case FanSP => SubDeviceClass("SP Fan", Fan, "SPFan")
    case FanML => SubDeviceClass("ML Fan", Fan, "MLFan")
    case FanLL => SubDeviceClass("LL Fan", Fan, "LLFan")
    case Strip =>
      if ledCount > 10 then SubDeviceClass("LS100 LED Strip", LedStrip, "LS100")
      else SubDeviceClass("Internal LED Strip", LedStrip, "LedStrip")
    case DAP => SubDeviceClass("DAP??", Other, "CorsairPlaceholder")
    case FanQL => SubDeviceClass("QL Fan", Fan, "QLFan")
    case _ => SubDeviceClass("Unknown", Other, "CorsairPlaceholder")
  }

  /**
   The first sixteen dictionary entries: the keyboard section, then the three
   HARPOON entries that open the mouse section. The table is cut into blocks of
   at most sixteen only so that each distinctness check stays small.
   */
  const KeyboardImages: seq<(string, string)> := [
    ("Corsair K65 RGB", "K65"),
    ("Corsair K65 LUX RGB", "K65"),
    ("Corsair K68 RGB", "K68"),
    ("Corsair STRAFE RGB", "Strafe"),
    ("Corsair K70 RGB", "K70"),
    ("Corsair K70 LUX RGB", "K70"),
    ("Corsair K95 RGB", "K95"),
    ("Corsair K70 RGB MK.2", "K70v2"),
    ("Corsair K70 RGB MK.2 LP", "K70v2"),
    ("Corsair K70 RGB MK.2 SE", "K70v2SE"),
    ("Corsair STRAFE RGB MK.2", "Strafev2"),
    ("Corsair K95 RGB PLATINUM", "K95Plat"),
    ("Corsair K95 RGB PLATINUM XT", "K95Plat"),
    ("Corsair HARPOON RGB", "Harpoon"),
    ("Corsair HARPOON RGB PRO", "Harpoon"),
    ("Corsair HARPOON RGB WIRELESS", "Harpoon")
  ]

  /** The rest of the dictionary's mouse section, after the HARPOON entries. */
  const MouseImages: seq<(string, string)> := [
    ("Corsair M55 RGB", "M55"),
    ("Corsair M65 RGB", "M65"),
    ("Corsair M65 PRO RGB", "M65"),
    ("Corsair M65 RGB ELITE", "M65"),
    ("Corsair SCIMITAR RGB", "Scimitar"),
    ("Corsair SCIMITAR PRO RGB", "Scimitar"),
    ("Corsair SCIMITAR ELITE RGB", "Scimitar"),
    ("Corsair IRONCLAW RGB", "Ironclaw"),
    ("Corsair IRONCLAW RGB WIRELESS", "Ironclaw"),
    ("Corsair GLAIVE RGB", "Glaive"),
    ("Corsair GLAIVE RGB PRO", "Glaive"),
    ("Corsair NIGHTSWORD RGB", "Nightsword"),
    ("Corsair DARK CORE RGB", "DarkCore"),
    ("Corsair DARK CORE RGB SE", "DarkCore"),
    ("Corsair DARK CORE PRO RGB", "DarkCore"),
    ("Corsair DARK CORE PRO RGB SE", "DarkCore")
  ]

  /** The dictionary's mouse pad, headset stand and headset entries. */
  const AccessoryImages: seq<(string, string)> := [
    ("Corsair MM800RGB", "MM800"),
    ("Corsair MM800CRGB", "MM800"),
    ("Corsair ST100RGB", "ST100"),
    ("Corsair VOID Wireless", "Void"),
    ("Corsair VOID PRO Wireless", "Void"),
    ("Corsair VOID ELITE Wireless", "Void"),
    ("Corsair VIRTUOSO RGB Wireless", "Virtuoso"),
    ("Corsair VIRTUOSO SE RGB Wireless", "Virtuoso")
  ]

  /** The dictionary's memory entries. */
  const MemoryImages: seq<(string, string)> := [
    ("Corsair VENGEANCE RGB PRO", "VengeancePro"),
    ("Corsair VENGEANCE RGB PRO 2", "VengeancePro"),
    ("Corsair VENGEANCE RGB PRO 3", "VengeancePro"),
    ("Corsair VENGEANCE RGB PRO 4", "VengeancePro"),
    ("Corsair VENGEANCE RGB PRO 5", "VengeancePro"),
    ("Corsair VENGEANCE RGB PRO 6", "VengeancePro"),
    ("Corsair VENGEANCE RGB PRO 7", "VengeancePro"),
    ("Corsair VENGEANCE RGB PRO 8", "VengeancePro"),
    ("Corsair DOMINATOR PLATINUM RGB", "DomPlat"),
    ("Corsair DOMINATOR PLATINUM RGB 2", "DomPlat"),
    ("Corsair DOMINATOR PLATINUM RGB 3", "DomPlat"),
    ("Corsair DOMINATOR PLATINUM RGB 4", "DomPlat"),
    ("Corsair DOMINATOR PLATINUM RGB 5", "DomPlat"),
    ("Corsair DOMINATOR PLATINUM RGB 6", "DomPlat"),
    ("Corsair DOMINATOR PLATINUM RGB 7", "DomPlat"),
    ("Corsair DOMINATOR PLATINUM RGB 8", "DomPlat")
  ]

  /**
   Thumbnail keys of known products, by exact device name: the driver's
   dictionary, entry by entry, in the order of its initializer.
   */
  const ImageTable: seq<(string, string)> := KeyboardImages + MouseImages + AccessoryImages + MemoryImages

  /** No name is the key of two entries. */
  predicate KeysDistinct(t: seq<(string, string)>)
  {
    forall i, j :: 0 <= i < j < |t| ==> t[i].0 != t[j].0
  }

  /** No name is a key of both tables. */
  predicate KeysApart(a: seq<(string, string)>, b: seq<(string, string)>)
  {
    forall i, j :: 0 <= i < |a| && 0 <= j < |b| ==> a[i].0 != b[j].0
  }

  lemma DistinctConcat(a: seq<(string, string)>, b: seq<(string, string)>)
    requires KeysDistinct(a) && KeysDistinct(b) && KeysApart(a, b)
    ensures KeysDistinct(a + b)
  {
    forall i, j | 0 <= i < j < |a + b| ensures (a + b)[i].0 != (a + b)[j].0 {
      if j < |a| {
        assert (a + b)[i] == a[i] && (a + b)[j] == a[j];
      } else if i < |a| {
        assert (a + b)[i] == a[i] && (a + b)[j] == b[j - |a|];
      } else {
        assert (a + b)[i] == b[i - |a|] && (a + b)[j] == b[j - |a|];
      }
    }
  }

  lemma ApartConcat(a: seq<(string, string)>, b: seq<(string, string)>, c: seq<(string, string)>)
    requires KeysApart(a, c) && KeysApart(b, c)
    ensures KeysApart(a + b, c)
  {
    forall i, j | 0 <= i < |a + b| && 0 <= j < |c| ensures (a + b)[i].0 != c[j].0 {
      if i < |a| { assert (a + b)[i] == a[i]; } else { assert (a + b)[i] == b[i - |a|]; }
    }
  }

  /** A table is free of repeated keys when both its halves are and they share none. */
  lemma HalvesDistinct(t: seq<(string, string)>, m: nat)
    requires m <= |t|
    requires KeysDistinct(t[..m]) && KeysDistinct(t[m..]) && KeysApart(t[..m], t[m..])
    ensures KeysDistinct(t)
  {
    DistinctConcat(t[..m], t[m..]);
    assert t == t[..m] + t[m..];
  }

  /** A table shares no key with `c` when neither of its halves does. */
  lemma HalvesApart(t: seq<(string, string)>, m: nat, c: seq<(string, string)>)
    requires m <= |t|
    requires KeysApart(t[..m], c) && KeysApart(t[m..], c)
    ensures KeysApart(t, c)
  {
    ApartConcat(t[..m], t[m..], c);
    assert t == t[..m] + t[m..];
  }

  // The literal entries, checked a block or half a block at a time. These
  // lemmas model nothing of the driver: they exist only to keep each proof
  // obligation over the literal small enough for the solver, and are combined
  // in `ImageTableKeysDistinct`.

  lemma KeyboardLowKeysDistinct()
    ensures KeysDistinct(KeyboardImages[..8])
  {
  }

  lemma KeyboardHighKeysDistinct()
    ensures KeysDistinct(KeyboardImages[8..])
  {
  }

  lemma KeyboardHalvesKeysApart()
    ensures KeysApart(KeyboardImages[..8], KeyboardImages[8..])
  {
  }

  lemma KeyboardKeysDistinct()
    ensures KeysDistinct(KeyboardImages)
  {
    KeyboardLowKeysDistinct();
    KeyboardHighKeysDistinct();
    KeyboardHalvesKeysApart();
    HalvesDistinct(KeyboardImages, 8);
  }

  lemma MouseLowKeysDistinct()
    ensures KeysDistinct(MouseImages[..8])
  {
  }

  lemma MouseHighKeysDistinct()
    ensures KeysDistinct(MouseImages[8..])
  {
  }

  lemma MouseHalvesKeysApart()
    ensures KeysApart(MouseImages[..8], MouseImages[8..])
  {
  }

  lemma MouseKeysDistinct()
    ensures KeysDistinct(MouseImages)
  {
    MouseLowKeysDistinct();
    MouseHighKeysDistinct();
    MouseHalvesKeysApart();
    HalvesDistinct(MouseImages, 8);
  }

  lemma AccessoryKeysDistinct()
    ensures KeysDistinct(AccessoryImages)
  {
  }

  lemma MemoryLowKeysDistinct()
    ensures KeysDistinct(MemoryImages[..8])
  {
  }

  lemma MemoryHighKeysDistinct()
    ensures KeysDistinct(MemoryImages[8..])
  {
  }

  lemma MemoryHalvesKeysApart()
    ensures KeysApart(MemoryImages[..8], MemoryImages[8..])
  {
  }

  lemma MemoryKeysDistinct()
    ensures KeysDistinct(MemoryImages)
  {
    MemoryLowKeysDistinct();
    MemoryHighKeysDistinct();
    MemoryHalvesKeysApart();
    HalvesDistinct(MemoryImages, 8);
  }

  lemma KeyboardLowMouseApart()
    ensures KeysApart(KeyboardImages[..8], MouseImages)
  {
  }

  lemma KeyboardHighMouseApart()
    ensures KeysApart(KeyboardImages[8..], MouseImages)
  {
  }

  lemma KeyboardMouseApart()
    ensures KeysApart(KeyboardImages, MouseImages)
  {
    KeyboardLowMouseApart();
    KeyboardHighMouseApart();
    HalvesApart(KeyboardImages, 8, MouseImages);
  }

  lemma KeyboardAccessoryApart()
    ensures KeysApart(KeyboardImages, AccessoryImages)
  {
  }

  lemma KeyboardLowMemoryApart()
    ensures KeysApart(KeyboardImages[..8], MemoryImages)
  {
  }

  lemma KeyboardHighMemoryApart()
    ensures KeysApart(KeyboardImages[8..], MemoryImages)
  {
  }

  lemma KeyboardMemoryApart()
    ensures KeysApart(KeyboardImages, MemoryImages)
  {
    KeyboardLowMemoryApart();
    KeyboardHighMemoryApart();
    HalvesApart(KeyboardImages, 8, MemoryImages);
  }

  lemma MouseAccessoryApart()
    ensures KeysApart(MouseImages, AccessoryImages)
  {
  }

  lemma MouseLowMemoryApart()
    ensures KeysApart(MouseImages[..8], MemoryImages)
  {
  }

  lemma MouseHighMemoryApart()
    ensures KeysApart(MouseImages[8..], MemoryImages)
  {
  }

  lemma MouseMemoryApart()
    ensures KeysApart(MouseImages, MemoryImages)
  {
    MouseLowMemoryApart();
    MouseHighMemoryApart();
    HalvesApart(MouseImages, 8, MemoryImages);
  }

  lemma AccessoryMemoryApart()
    ensures KeysApart(AccessoryImages, MemoryImages)
  {
  }

  /**
   No product name is listed twice, so the dictionary initializer does not
   throw and a name has at most one thumbnail key.
   */
  lemma {:induction false} ImageTableKeysDistinct()
    ensures KeysDistinct(ImageTable)
  {
    KeyboardKeysDistinct(); MouseKeysDistinct(); AccessoryKeysDistinct(); MemoryKeysDistinct();
    KeyboardMouseApart(); KeyboardAccessoryApart(); KeyboardMemoryApart();
    MouseAccessoryApart(); MouseMemoryApart(); AccessoryMemoryApart();
    DistinctConcat(KeyboardImages, MouseImages);
    ApartConcat(KeyboardImages, MouseImages, AccessoryImages);
    DistinctConcat(KeyboardImages + MouseImages, AccessoryImages);
    ApartConcat(KeyboardImages, MouseImages, MemoryImages);
    ApartConcat(KeyboardImages + MouseImages, AccessoryImages, MemoryImages);
    DistinctConcat(KeyboardImages + MouseImages + AccessoryImages, MemoryImages);
  }

  /** The dictionary lookup: the key stored for `name`, if any. */
  function Lookup(table: seq<(string, string)>, name: string): (r: Option<string>)
    ensures r.Some? <==> exists k :: 0 <= k < |table| && table[k].0 == name
    ensures r.Some? ==> exists k :: 0 <= k < |table| && table[k] == (name, r.value)
    decreases |table|
  {
    if table == [] then None
    else if table[0].0 == name then Some(table[0].1)
    else
      var r := Lookup(table[1..], name);
      assert forall k :: 1 <= k < |table| ==> table[k] == table[1..][k - 1];
      r
  }

  /** The thumbnail chosen by kind when the name is not in the table. */
  function FallbackImageKey(k: DeviceKind): string
  {
    match k
    case Keyboard => "K95Plat"
    case Mouse => "Scimitar"
    case MousePad => "MM800"
    case Headset => "Void"
    case HeadsetStand => "ST100"
    case MotherBoard => "Motherboard"
    case GPU => "GPU"
    case Cooler => "AIO"
    case Fan => "QLFan"
    case LedStrip => "LedStrip"
    case Memory => "VengeancePro"
    case Other => "CorsairPlaceholder"
  }

  /** A known name's table entry wins over the fallback by kind. */
  function ImageKey(deviceName: string, kind: DeviceKind): (key: string)
    ensures (exists k :: 0 <= k < |ImageTable| && ImageTable[k].0 == deviceName) ==>
      exists k :: 0 <= k < |ImageTable| && ImageTable[k] == (deviceName, key)
    ensures (forall k :: 0 <= k < |ImageTable| ==> ImageTable[k].0 != deviceName) ==> key == FallbackImageKey(kind)
  {
    match Lookup(ImageTable, deviceName)
    case Some(key) => key
    case None => FallbackImageKey(kind)
  }

  /** A listed product gets exactly the thumbnail key of its own entry. */
  lemma ImageKeyOfListed(k: nat, kind: DeviceKind)
    requires k < |ImageTable|
    ensures ImageKey(ImageTable[k].0, kind) == ImageTable[k].1
  {
    ImageTableKeysDistinct();
    var key := ImageKey(ImageTable[k].0, kind);
    var k' :| 0 <= k' < |ImageTable| && ImageTable[k'] == (ImageTable[k].0, key);
    assert k' == k;
  }
}
