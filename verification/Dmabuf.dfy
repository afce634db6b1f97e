/**
 DMA-BUF import and export (libwlblur/src/dmabuf.c): the EGL attribute list built for an import,
 what a driver reads back from it, and the balance of images, textures and descriptors.
 */
module Dmabuf {
  import opened CTypes
  import opened Wrappers
  import opened Gpu
  import opened Kernel

  datatype Plane = Plane(fd: int32, offset: uint32, stride: uint32)

  type Planes = p: seq<Plane> | |p| == 4
    witness seq(4, _ => Plane(0, 0, 0))

  datatype Attribs = Attribs(width: int32, height: int32, format: uint32, modifier: uint64, numPlanes: int32,
      planes: Planes)

  const MODIFIER_INVALID: uint64 := 0x00FF_FFFF_FFFF_FFFF

  const EGL_NONE: int32 := 0x3038
  const EGL_HEIGHT: int32 := 0x3056
  const EGL_WIDTH: int32 := 0x3057
  const EGL_LINUX_DRM_FOURCC_EXT: int32 := 0x3271

  /** EGL_DMA_BUF_PLANEk_{FD,OFFSET,PITCH,MODIFIER_LO,MODIFIER_HI}_EXT */
  function FdKey(k: nat): int32
    requires k < 4
  {
    if k < 3 then 0x3272 + 3 * k else 0x3440
  }

  function OffsetKey(k: nat): int32
    requires k < 4
  {
    FdKey(k) + 1
  }

  function PitchKey(k: nat): int32
    requires k < 4
  {
    FdKey(k) + 2
  }

  function ModifierLoKey(k: nat): int32
    requires k < 4
  {
    0x3443 + 2 * k
  }

  function ModifierHiKey(k: nat): int32
    requires k < 4
  {
    0x3444 + 2 * k
  }

  // ----- the attribute list -----

  type Entry = (int32, int32)

  ghost function Header(a: Attribs): seq<Entry> {
    [(EGL_WIDTH, a.width), (EGL_HEIGHT, a.height), (EGL_LINUX_DRM_FOURCC_EXT, ToInt32(a.format))]
  }

  ghost function PlaneEntries(a: Attribs, k: nat): seq<Entry>
    requires k < 4
  {
    [(FdKey(k), a.planes[k].fd), (OffsetKey(k), ToInt32(a.planes[k].offset)),
     (PitchKey(k), ToInt32(a.planes[k].stride))]
    + if a.modifier == MODIFIER_INVALID then []
      else [(ModifierLoKey(k), ToInt32(a.modifier % TWO32)), (ModifierHiKey(k), ToInt32(a.modifier / TWO32))]
  }

  /** The header and the first n planes. */
  ghost function Entries(a: Attribs, n: nat): seq<Entry>
    requires n <= 4
  {
    if n == 0 then Header(a) else Entries(a, n - 1) + PlaneEntries(a, n - 1)
  }

  ghost function Flatten(entries: seq<Entry>): seq<int32> {
    if entries == [] then []
    else Flatten(entries[..|entries| - 1]) + [entries[|entries| - 1].0, entries[|entries| - 1].1]
  }

  /** The whole list for an import: key, value, key, value, ..., EGL_NONE. */
  ghost function Encode(a: Attribs): seq<int32>
    requires 1 <= a.numPlanes <= 4
  {
    Flatten(Entries(a, a.numPlanes)) + [EGL_NONE]
  }

  // ----- what a driver reads -----

  /** The value of a key: the first match before the terminating EGL_NONE. */
  function Find(list: seq<int32>, key: int32): Option<int32> {
    if |list| < 2 || list[0] == 0x3038 then None
    else if list[0] == key then Some(list[1])
    else Find(list[2..], key)
  }

  datatype ReadPlane = ReadPlane(fd: int32, offset: uint32, stride: uint32, modifier: Option<uint64>)
  datatype ReadImage = ReadImage(width: int32, height: int32, format: uint32, planes: seq<ReadPlane>)

  function Value(list: seq<int32>, key: int32): int32 {
    match Find(list, key) case Some(v) => v case None => 0
  }

  /** The keys of a plane, by number: EGL_EXT_image_dma_buf_import and its modifiers extension. */
  datatype PlaneKeys = PlaneKeys(fd: int32, offset: int32, pitch: int32, modifierLo: int32, modifierHi: int32)

  function KeysOf(k: nat): PlaneKeys
    requires k < 4
  {
    match k
    case 0 => PlaneKeys(0x3272, 0x3273, 0x3274, 0x3443, 0x3444)
    case 1 => PlaneKeys(0x3275, 0x3276, 0x3277, 0x3445, 0x3446)
    case 2 => PlaneKeys(0x3278, 0x3279, 0x327A, 0x3447, 0x3448)
    case 3 => PlaneKeys(0x3440, 0x3441, 0x3442, 0x3449, 0x344A)
  }

  function ReadModifier(list: seq<int32>, keys: PlaneKeys): Option<uint64> {
    match (Find(list, keys.modifierLo), Find(list, keys.modifierHi))
    case (Some(lo), Some(hi)) => Some(ToUint32(hi) * TWO32 + ToUint32(lo))
    case _ => None
  }

  /** Planes are read from k upwards for as long as they name a descriptor. */
  function ReadPlanes(list: seq<int32>, k: nat): seq<ReadPlane>
    requires k <= 4
    decreases 4 - k
  {
    if k == 4 || Find(list, KeysOf(k).fd).None? then []
    else
      var keys := KeysOf(k);
      [ReadPlane(Value(list, keys.fd), ToUint32(Value(list, keys.offset)), ToUint32(Value(list, keys.pitch)),
                 ReadModifier(list, keys))]
      + ReadPlanes(list, k + 1)
  }

  function Decode(list: seq<int32>): ReadImage {
    ReadImage(Value(list, 0x3057), Value(list, 0x3056), ToUint32(Value(list, 0x3271)), ReadPlanes(list, 0))
  }

  // ----- round trip -----

  ghost function Assoc(entries: seq<Entry>, key: int32): Option<int32> {
    if entries == [] then None
    else if entries[0].0 == key then Some(entries[0].1)
    else Assoc(entries[1..], key)
  }

  lemma {:induction false} AssocConcat(a: seq<Entry>, b: seq<Entry>, key: int32)
    ensures Assoc(a + b, key) == if Assoc(a, key).Some? then Assoc(a, key) else Assoc(b, key)
  {
    if a == [] {
      assert a + b == b;
    } else {
      assert (a + b)[1..] == a[1..] + b;
      AssocConcat(a[1..], b, key);
    }
  }

  lemma AssocTwo(x: Entry, y: Entry, key: int32)
    ensures Assoc([x, y], key) == if x.0 == key then Some(x.1) else if y.0 == key then Some(y.1) else None
  {
    var rest := [y];
    assert [x, y][1..] == rest && rest[1..] == [];
    assert Assoc(rest, key) == if y.0 == key then Some(y.1) else None;
  }

  lemma AssocThree(x: Entry, y: Entry, z: Entry, key: int32)
    ensures Assoc([x, y, z], key) == if x.0 == key then Some(x.1) else Assoc([y, z], key)
    ensures Assoc([y, z], key) == if y.0 == key then Some(y.1) else if z.0 == key then Some(z.1) else None
  {
    AssocTwo(y, z, key);
    assert [x, y, z][1..] == [y, z];
  }

  lemma {:induction false} FlattenFront(entries: seq<Entry>)
    requires entries != []
    ensures Flatten(entries) == [entries[0].0, entries[0].1] + Flatten(entries[1..])
  {
    if |entries| > 1 {
      var init := entries[..|entries| - 1];
      FlattenFront(init);
      assert init[1..] == entries[1..][..|entries| - 2];
    } else {
      assert entries[..0] == entries[1..] == [];
    }
  }

  ghost predicate NoTerminator(entries: seq<Entry>) {
    forall i | 0 <= i < |entries| :: entries[i].0 != EGL_NONE
  }

  lemma {:induction false} FindIsAssoc(entries: seq<Entry>, key: int32)
    requires NoTerminator(entries)
    ensures Find(Flatten(entries) + [EGL_NONE], key) == Assoc(entries, key)
  {
    if entries != [] {
      FlattenFront(entries);
      var list := Flatten(entries) + [EGL_NONE];
      assert list[2..] == Flatten(entries[1..]) + [EGL_NONE];
      assert forall i | 0 <= i < |entries| - 1 :: entries[1..][i] == entries[i + 1];
      FindIsAssoc(entries[1..], key);
    }
  }

  /** The value listed for a plane key, by kind of key; None when the plane does not list it. */
  ghost function PlaneValue(a: Attribs, k: nat, key: int32): Option<int32>
    requires k < 4
  {
    var listed := a.modifier != MODIFIER_INVALID;
    if key == FdKey(k) then Some(a.planes[k].fd)
    else if key == OffsetKey(k) then Some(ToInt32(a.planes[k].offset))
    else if key == PitchKey(k) then Some(ToInt32(a.planes[k].stride))
    else if listed && key == ModifierLoKey(k) then Some(ToInt32(a.modifier % TWO32))
    else if listed && key == ModifierHiKey(k) then Some(ToInt32(a.modifier / TWO32))
    else None
  }

  lemma PlaneAssoc(a: Attribs, k: nat, key: int32)
    requires k < 4
    ensures Assoc(PlaneEntries(a, k), key) == PlaneValue(a, k, key)
  {
    var fd, offset := (FdKey(k), a.planes[k].fd), (OffsetKey(k), ToInt32(a.planes[k].offset));
    var pitch := (PitchKey(k), ToInt32(a.planes[k].stride));
    var lo, hi := (ModifierLoKey(k), ToInt32(a.modifier % TWO32)), (ModifierHiKey(k), ToInt32(a.modifier / TWO32));
    AssocThree(fd, offset, pitch, key);
    AssocTwo(lo, hi, key);
    AssocConcat([fd, offset, pitch], if a.modifier == MODIFIER_INVALID then [] else [lo, hi], key);
  }

  /** A key that belongs to plane k. */
  ghost predicate PlaneKey(k: nat, key: int32)
    requires k < 4
  {
    key in {FdKey(k), OffsetKey(k), PitchKey(k), ModifierLoKey(k), ModifierHiKey(k)}
  }

  lemma {:induction false} EntriesAssoc(a: Attribs, n: nat, k: nat, key: int32)
    requires n <= 4 && k < 4 && PlaneKey(k, key)
    ensures Assoc(Entries(a, n), key) == if k < n then PlaneValue(a, k, key) else None
  {
    if n == 0 {
      AssocThree(Header(a)[0], Header(a)[1], Header(a)[2], key);
    } else {
      AssocConcat(Entries(a, n - 1), PlaneEntries(a, n - 1), key);
      EntriesAssoc(a, n - 1, k, key);
      PlaneAssoc(a, n - 1, key);
    }
  }

  lemma {:induction false} HeaderAssoc(a: Attribs, n: nat)
    requires n <= 4
    ensures Assoc(Entries(a, n), EGL_WIDTH) == Some(a.width)
    ensures Assoc(Entries(a, n), EGL_HEIGHT) == Some(a.height)
    ensures Assoc(Entries(a, n), EGL_LINUX_DRM_FOURCC_EXT) == Some(ToInt32(a.format))
    ensures NoTerminator(Entries(a, n)) && |Entries(a, n)| == 3 + n * if a.modifier == MODIFIER_INVALID then 3 else 5
  {
    if n == 0 {
      AssocThree(Header(a)[0], Header(a)[1], Header(a)[2], EGL_WIDTH);
      AssocThree(Header(a)[0], Header(a)[1], Header(a)[2], EGL_HEIGHT);
      AssocThree(Header(a)[0], Header(a)[1], Header(a)[2], EGL_LINUX_DRM_FOURCC_EXT);
    } else {
      HeaderAssoc(a, n - 1);
      AssocConcat(Entries(a, n - 1), PlaneEntries(a, n - 1), EGL_WIDTH);
      AssocConcat(Entries(a, n - 1), PlaneEntries(a, n - 1), EGL_HEIGHT);
      AssocConcat(Entries(a, n - 1), PlaneEntries(a, n - 1), EGL_LINUX_DRM_FOURCC_EXT);
    }
  }

  lemma WordRoundTrip(x: uint32)
    ensures ToUint32(ToInt32(x)) == x
  {
  }

  lemma ModifierRoundTrip(m: uint64)
    ensures ToUint32(ToInt32(m / TWO32)) * TWO32 + ToUint32(ToInt32(m % TWO32)) == m
  {
    assert 0 <= m / TWO32 < TWO32;
    WordRoundTrip(m / TWO32);
    WordRoundTrip(m % TWO32);
  }

  /** What the attributes say, in the driver's terms. */
  ghost function Meant(a: Attribs): ReadImage
    requires 1 <= a.numPlanes <= 4
  {
    ReadImage(a.width, a.height, a.format, MeantPlanes(a, 0))
  }

  ghost function MeantPlanes(a: Attribs, k: nat): seq<ReadPlane>
    requires k <= a.numPlanes <= 4
    decreases a.numPlanes - k
  {
    if k == a.numPlanes then []
    else
      [ReadPlane(a.planes[k].fd, a.planes[k].offset, a.planes[k].stride,
                 if a.modifier == MODIFIER_INVALID then None else Some(a.modifier))]
      + MeantPlanes(a, k + 1)
  }

  lemma FindPlaneKey(a: Attribs, k: nat, key: int32)
    requires 1 <= a.numPlanes <= 4 && k < 4 && PlaneKey(k, key)
    ensures Find(Encode(a), key) == if k < a.numPlanes then PlaneValue(a, k, key) else None
  {
    HeaderAssoc(a, a.numPlanes);
    FindIsAssoc(Entries(a, a.numPlanes), key);
    EntriesAssoc(a, a.numPlanes, k, key);
  }

  /** What is written under a key is read under it. */
  lemma KeysAgree(k: nat)
    requires k < 4
    ensures KeysOf(k) == PlaneKeys(FdKey(k), OffsetKey(k), PitchKey(k), ModifierLoKey(k), ModifierHiKey(k))
  {
  }

  lemma ReadPlaneAt(a: Attribs, k: nat)
    requires 1 <= a.numPlanes <= 4 && k < 4
    ensures Find(Encode(a), KeysOf(k).fd).Some? <==> k < a.numPlanes
    ensures k < a.numPlanes ==>
              && Value(Encode(a), KeysOf(k).fd) == a.planes[k].fd
              && ToUint32(Value(Encode(a), KeysOf(k).offset)) == a.planes[k].offset
              && ToUint32(Value(Encode(a), KeysOf(k).pitch)) == a.planes[k].stride
              && ReadModifier(Encode(a), KeysOf(k))
                 == if a.modifier == MODIFIER_INVALID then None else Some(a.modifier)
  {
    KeysAgree(k);
    FindPlaneKey(a, k, FdKey(k));
    FindPlaneKey(a, k, OffsetKey(k));
    FindPlaneKey(a, k, PitchKey(k));
    FindPlaneKey(a, k, ModifierLoKey(k));
    FindPlaneKey(a, k, ModifierHiKey(k));
    WordRoundTrip(a.planes[k].offset);
    WordRoundTrip(a.planes[k].stride);
    ModifierRoundTrip(a.modifier);
  }

  lemma {:induction false} ReadPlanesFrom(a: Attribs, k: nat)
    requires 1 <= a.numPlanes <= 4 && k <= a.numPlanes
    ensures ReadPlanes(Encode(a), k) == MeantPlanes(a, k)
    decreases 4 - k
  {
    if k < 4 {
      ReadPlaneAt(a, k);
      if k < a.numPlanes {
        ReadPlanesFrom(a, k + 1);
      }
    }
  }

  /** Reading the emitted list gives back exactly what was put in, for every modifier. */
  lemma RoundTrip(a: Attribs)
    requires 1 <= a.numPlanes <= 4
    ensures Decode(Encode(a)) == Meant(a)
  {
    HeaderAssoc(a, a.numPlanes);
    FindIsAssoc(Entries(a, a.numPlanes), EGL_WIDTH);
    FindIsAssoc(Entries(a, a.numPlanes), EGL_HEIGHT);
    FindIsAssoc(Entries(a, a.numPlanes), EGL_LINUX_DRM_FOURCC_EXT);
    WordRoundTrip(a.format);
    ReadPlanesFrom(a, 0);
  }

  lemma {:induction false} FlattenAt(entries: seq<Entry>, i: nat)
    requires i < |entries|
    ensures |Flatten(entries)| == 2 * |entries|
    ensures Flatten(entries)[2 * i] == entries[i].0 && Flatten(entries)[2 * i + 1] == entries[i].1
  {
    var init := entries[..|entries| - 1];
    if i < |init| {
      FlattenAt(init, i);
    } else if init != [] {
      FlattenAt(init, 0);
    }
  }

  /** The list has one EGL_NONE among its keys, at its end, and fits the 50 slots with room to spare. */
  lemma ListShape(a: Attribs)
    requires 1 <= a.numPlanes <= 4
    ensures |Encode(a)| <= 47 && |Encode(a)| % 2 == 1
    ensures forall i | 0 <= i < |Encode(a)| && i % 2 == 0 :: Encode(a)[i] == EGL_NONE <==> i == |Encode(a)| - 1
  {
    var entries := Entries(a, a.numPlanes);
    HeaderAssoc(a, a.numPlanes);
    FlattenAt(entries, 0);
    forall i | 0 <= i < |Encode(a)| && i % 2 == 0
      ensures Encode(a)[i] == EGL_NONE <==> i == |Encode(a)| - 1
    {
      if i < |Encode(a)| - 1 {
        FlattenAt(entries, i / 2);
        assert entries[i / 2].0 != EGL_NONE;
      }
    }
  }

  // ----- the code -----

  /** Two slots of the array: a key and its value. */
  method Put(list: array<int32>, i: nat, key: int32, value: int32, ghost entries: seq<Entry>) returns (next: nat)
    requires i + 2 <= list.Length && list[..i] == Flatten(entries)
    modifies list
    ensures next == i + 2 && list[..next] == Flatten(entries + [(key, value)])
  {
    list[i] := key;
    list[i + 1] := value;
    next := i + 2;
    assert list[..next] == list[..i] + [key, value];
    assert (entries + [(key, value)])[..|entries|] == entries;
  }

  method PutHeader(list: array<int32>, a: Attribs) returns (next: nat)
    requires list.Length == 50
    modifies list
    ensures next == 6 && list[..next] == Flatten(Entries(a, 0))
  {
    assert list[..0] == Flatten([]);
    next := Put(list, 0, EGL_WIDTH, a.width, []);
    next := Put(list, next, EGL_HEIGHT, a.height, [] + [(EGL_WIDTH, a.width)]);
    next := Put(list, next, EGL_LINUX_DRM_FOURCC_EXT, ToInt32(a.format),
                [] + [(EGL_WIDTH, a.width)] + [(EGL_HEIGHT, a.height)]);
    assert [] + [(EGL_WIDTH, a.width)] + [(EGL_HEIGHT, a.height)]
           + [(EGL_LINUX_DRM_FOURCC_EXT, ToInt32(a.format))] == Header(a);
  }

  method PutPlane(list: array<int32>, i: nat, a: Attribs, k: nat) returns (next: nat)
    requires list.Length == 50 && k < 4 && i <= 6 + 10 * k && list[..i] == Flatten(Entries(a, k))
    modifies list
    ensures i <= next <= i + 10 && list[..next] == Flatten(Entries(a, k + 1))
  {
    ghost var e := Entries(a, k);
    next := Put(list, i, FdKey(k), a.planes[k].fd, e);
    e := e + [(FdKey(k), a.planes[k].fd)];
    next := Put(list, next, OffsetKey(k), ToInt32(a.planes[k].offset), e);
    e := e + [(OffsetKey(k), ToInt32(a.planes[k].offset))];
    next := Put(list, next, PitchKey(k), ToInt32(a.planes[k].stride), e);
    e := e + [(PitchKey(k), ToInt32(a.planes[k].stride))];
    if a.modifier != MODIFIER_INVALID {
      next := Put(list, next, ModifierLoKey(k), ToInt32(a.modifier % TWO32), e);
      e := e + [(ModifierLoKey(k), ToInt32(a.modifier % TWO32))];
      next := Put(list, next, ModifierHiKey(k), ToInt32(a.modifier / TWO32), e);
      e := e + [(ModifierHiKey(k), ToInt32(a.modifier / TWO32))];
    }
    assert e == Entries(a, k) + PlaneEntries(a, k);
  }

  /**
   The attribute list of wlblur_dmabuf_import, in an array of fifty slots. The source spells the
   four planes out one after the other, each guarded by the plane count.
   */
  method BuildAttributes(a: Attribs) returns (list: array<int32>, count: nat)
    requires 1 <= a.numPlanes <= 4
    ensures list.Length == 50 && count <= 47 && list[..count] == Encode(a)
  {
    list := new int32[50](_ => 0);
    count := PutHeader(list, a);
    for k := 0 to a.numPlanes
      invariant count <= 6 + 10 * k && list[..count] == Flatten(Entries(a, k))
    {
      count := PutPlane(list, count, a, k);
    }
    ghost var before := list[..count];
    list[count] := EGL_NONE;
    count := count + 1;
    assert list[..count] == before + [EGL_NONE];
  }

  /** wlblur_dmabuf_import: a new texture showing the buffer, or 0; no EGLImage survives. */
  method Import(gpu: Driver, supported: bool, a: Attribs) returns (texture: nat)
    modifies gpu`memory, gpu`images
    ensures gpu.images == old(gpu.images)
    ensures texture == 0 ==> gpu.memory == old(gpu.memory)
    ensures gpu.caps.reliable && supported && 1 <= a.numPlanes <= 4 ==> texture != 0
    ensures texture != 0 ==>
              && supported && 1 <= a.numPlanes <= 4
              && texture !in old(gpu.memory) && gpu.memory == old(gpu.memory)[texture := Imported(Encode(a))]
  {
    if !supported || a.numPlanes < 1 || a.numPlanes > 4 {
      return 0;
    }
    var list, count := BuildAttributes(a);
    var ok, image := gpu.CreateImage(FromBuffer(list[..count]));
    if !ok {
      return 0;
    }
    texture := gpu.GenTexture();
    gpu.BindImage(texture, image);
    var glError: bool := *;
    if glError && !gpu.caps.reliable {
      gpu.DeleteTexture(texture);
      gpu.DestroyImage(image);
      return 0;
    }
    gpu.DestroyImage(image);
  }

  // ----- export -----

  /** The descriptors held by the planes the attributes count. */
  ghost function HeldFds(a: Attribs): seq<int32> {
    seq(if a.numPlanes < 0 then 0 else if a.numPlanes > 4 then 4 else a.numPlanes,
        i requires 0 <= i < 4 => a.planes[i].fd)
  }

  ghost function Strides(a: Attribs): seq<uint32>
    requires 1 <= a.numPlanes <= 4
  {
    seq(a.numPlanes, i requires 0 <= i < 4 => a.planes[i].stride)
  }

  ghost function Offsets(a: Attribs): seq<uint32>
    requires 1 <= a.numPlanes <= 4
  {
    seq(a.numPlanes, i requires 0 <= i < 4 => a.planes[i].offset)
  }

  /** The driver's reports that these attributes repeat. */
  ghost function ReportsOf(a: Attribs): seq<Report>
    requires 1 <= a.numPlanes <= 4
  {
    [Queried(a.format, a.numPlanes, a.modifier), Laid(Strides(a), Offsets(a))]
  }

  lemma AppendTwo<T>(s: seq<T>, a: T, b: T)
    ensures s + [a] + [b] == s + [a, b]
  {
  }

  /** wlblur_dmabuf_close: closes each held descriptor once and forgets it. */
  method CloseAttribs(process: Process, a: Attribs) returns (b: Attribs)
    requires Fds(HeldFds(a)) <= process.open
    requires forall i, j | 0 <= i < j < |HeldFds(a)| && HeldFds(a)[i] >= 0 :: HeldFds(a)[i] != HeldFds(a)[j]
    modifies process`open
    ensures process.open == old(process.open) - Fds(HeldFds(a))
    ensures b.numPlanes == 0 && Fds(HeldFds(b)) == {}
    ensures forall i | 0 <= i < |HeldFds(a)| :: b.planes[i].fd < 0
  {
    b := a;
    var i := 0;
    while i < b.numPlanes && i < 4
      invariant 0 <= i <= |HeldFds(a)| && b.numPlanes == a.numPlanes
      invariant forall k | 0 <= k < i :: b.planes[k].fd < 0
      invariant forall k | i <= k < 4 :: b.planes[k] == a.planes[k]
      invariant process.open == old(process.open) - Fds(HeldFds(a)[..i])
    {
      var fd := b.planes[i].fd;
      assert HeldFds(a)[..i + 1] == HeldFds(a)[..i] + [fd];
      assert fd == HeldFds(a)[i];
      if fd >= 0 {
        assert fd in Fds(HeldFds(a)) && fd !in Fds(HeldFds(a)[..i]);
        process.Close(fd);
        b := b.(planes := b.planes[i := b.planes[i].(fd := -1)]);
      }
      i := i + 1;
    }
    assert HeldFds(a)[..i] == HeldFds(a);
    b := b.(numPlanes := 0);
  }

  /** wlblur_dmabuf_export: on success the attributes hold what was newly opened to show
   the texture, else nothing stays open. */
  method Export(gpu: Driver, process: Process, supported: bool, texture: nat, width: int32, height: int32)
    returns (ok: bool, a: Attribs)
    modifies gpu`images, gpu`reports, process`open, process`shows
    ensures gpu.images == old(gpu.images)
    ensures !ok ==> process.open == old(process.open)
    ensures gpu.caps.reliable && supported && texture != 0 ==> ok
    ensures ok ==>
              && texture != 0 && supported
              && a.width == width && a.height == height && 1 <= a.numPlanes <= 4
              && NewDescriptors(HeldFds(a), old(process.open))
              && process.open == old(process.open) + Fds(HeldFds(a))
              && AllShow(HeldFds(a), process.shows, texture)
              && gpu.reports == old(gpu.reports) + ReportsOf(a)
  {
    a := Attribs(width, height, 0, 0, 0, seq(4, _ => Plane(0, 0, 0)));
    if texture == 0 || !supported {
      return false, a;
    }
    var created, image := gpu.CreateImage(FromTexture(texture));
    if !created {
      return false, a;
    }
    var queried, format, numPlanes, modifier := gpu.QueryBuffer(image);
    if !queried || numPlanes < 1 || numPlanes > 4 {
      gpu.DestroyImage(image);
      return false, a;
    }
    a := a.(format := format, modifier := modifier, numPlanes := numPlanes);
    var exported, strides, offsets := gpu.LayOut(image, numPlanes);
    if !exported {
      gpu.DestroyImage(image);
      return false, a;
    }
    a := FillPlanes(gpu, process, image, a, strides, offsets);
    AppendTwo(old(gpu.reports), Queried(format, numPlanes, modifier), Laid(strides, offsets));
    var glError: bool := *;
    if glError && !gpu.caps.reliable {
      a := CloseAttribs(process, a);
      gpu.DestroyImage(image);
      return false, a;
    }
    gpu.DestroyImage(image);
    ok := true;
  }

  /** The descriptors of eglExportDMABUFImageMESA, and the loop that copies its arrays into the attributes. */
  method FillPlanes(gpu: Driver, process: Process, image: int, a: Attribs, strides: seq<uint32>,
      offsets: seq<uint32>)
    returns (b: Attribs)
    requires 1 <= a.numPlanes <= 4 && image in gpu.images && gpu.images[image].FromTexture?
    requires |strides| == |offsets| == a.numPlanes
    modifies process`open, process`shows
    ensures b == a.(planes := b.planes)
    ensures NewDescriptors(HeldFds(b), old(process.open))
    ensures process.open == old(process.open) + Fds(HeldFds(b))
    ensures AllShow(HeldFds(b), process.shows, gpu.images[image].texture)
    ensures Strides(b) == strides && Offsets(b) == offsets
  {
    var fds := process.NewBuffers(a.numPlanes, gpu.images[image].texture);
    b := a;
    for i := 0 to a.numPlanes
      invariant b == a.(planes := b.planes)
      invariant forall k | 0 <= k < i :: b.planes[k] == Plane(fds[k], offsets[k], strides[k])
    {
      b := b.(planes := b.planes[i := Plane(fds[i], offsets[i], strides[i])]);
    }
    assert HeldFds(b) == fds;
  }
}
