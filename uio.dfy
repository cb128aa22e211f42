/** The decisions `main` takes: the argument count, the device's identity,
    the map offset and size, and whether and what it writes. The attribute
    reads, the device open and the mapping come in as their results. */
module Uio {
  import opened Parse
  import opened MapIo
  import opened CStr
  import opened Attribute

  datatype Option<T> = None | Some(value: T)

  /** What `read_attr` left for each attribute of `/sys/class/uio/DEVICE`:
      the C string in the buffer, or None when it returned -1. */
  datatype Sysfs = Sysfs(name: Option<string>, version: Option<string>,
                         offset: Option<string>, size: Option<string>)

  /** Whether opening `/dev/DEVICE` and mapping it succeed. */
  datatype Device = Device(opens: bool, maps: bool)

  /** The stage at which `main` gives up. */
  datatype Failure =
    | NoDeviceName
    | NameUnreadable | UnexpectedType
    | VersionUnreadable | UnexpectedVersion
    | OffsetUnreadable | SizeUnreadable
    | DeviceOpenFailed | MmapFailed
    | UnsupportedWidth
    | PastWindow

  /** The `map_write32(map, woffset, wvalue)` call `main` makes. */
  datatype Write = Write(offset: u32, value: u32)

  /** Either `main` gave up, or it mapped `mapSize` bytes (having read the
      informational `mapOffset`) and possibly wrote once. */
  datatype Outcome =
    | Abort(failure: Failure)
    | Mapped(mapOffset: nat, mapSize: nat, write: Option<Write>)

  /** Conversion of a `long` to the `uint32_t` fields `woffset`, `wbits` and
      `wvalue`. */
  function ToU32(x: int): (r: u32)
    ensures 0 <= x < 0x1_0000_0000 ==> r == x
    ensures (x - r) % 0x1_0000_0000 == 0
  {
    x % 0x1_0000_0000
  }

  /** Conversion of a `long` to `size_t` (32 bits on the target). */
  function ToSize(x: int): (r: nat)
    ensures r < 0x1_0000_0000
    ensures 0 <= x < 0x1_0000_0000 ==> r == x
    ensures (x - r) % 0x1_0000_0000 == 0
  {
    x % 0x1_0000_0000
  }

  /** Both conversions keep a value that fits in 32 bits. */
  lemma InRange(x: int)
    requires 0 <= x < 0x1_0000_0000
    ensures ToU32(x) == x && ToSize(x) == x
  {
  }

  /** Identity of the device `main` accepts. */
  predicate Identified(sys: Sysfs) {
    sys.name == Some("scratch") && sys.version == Some("devicetree")
  }

  /** `main` as written: the write value is parsed from `argv[3]`, the width
      argument, and the write offset is not checked against the window. */
  function Run(argv: seq<string>, sys: Sysfs, dev: Device): (r: Outcome)
    ensures |argv| < 2 ==> r == Abort(NoDeviceName)
    ensures |argv| >= 2 && sys.name.None? ==> r == Abort(NameUnreadable)
    ensures |argv| >= 2 && sys.name.Some? && sys.name.value != "scratch" ==> r == Abort(UnexpectedType)
    ensures |argv| >= 2 && sys.name == Some("scratch") && sys.version.None? ==> r == Abort(VersionUnreadable)
    ensures |argv| >= 2 && sys.name == Some("scratch") && sys.version.Some? && sys.version.value != "devicetree" ==>
      r == Abort(UnexpectedVersion)
    ensures |argv| >= 2 && Identified(sys) && sys.offset.None? ==> r == Abort(OffsetUnreadable)
    ensures |argv| >= 2 && Identified(sys) && sys.offset.Some? && sys.size.None? ==> r == Abort(SizeUnreadable)
    ensures |argv| >= 2 && Identified(sys) && sys.offset.Some? && sys.size.Some? && !dev.opens ==>
      r == Abort(DeviceOpenFailed)
    ensures |argv| >= 2 && Identified(sys) && sys.offset.Some? && sys.size.Some? && dev.opens && !dev.maps ==>
      r == Abort(MmapFailed)
    ensures (|argv| == 5 && Identified(sys) && sys.offset.Some? && sys.size.Some? && dev.opens && dev.maps
             && ToU32(Strtol(argv[3])) != 32) ==> r == Abort(UnsupportedWidth)
    ensures r.Mapped? <==>
      && |argv| >= 2 && Identified(sys)
      && sys.offset.Some? && sys.size.Some? && dev.opens && dev.maps
      && (|argv| == 5 ==> ToU32(Strtol(argv[3])) == 32)
    ensures r.Mapped? ==>
      && r.mapOffset == ToSize(Strtol(sys.offset.value))
      && r.mapSize == ToSize(Strtol(sys.size.value))
      && (r.write.Some? <==> |argv| == 5)
    ensures r.Mapped? && r.write.Some? ==> r.write.value == Write(ToU32(Strtol(argv[2])), 32)
  {
    if |argv| < 2 then Abort(NoDeviceName)
    else if sys.name.None? then Abort(NameUnreadable)
    else if sys.name.value != "scratch" then Abort(UnexpectedType)
    else if sys.version.None? then Abort(VersionUnreadable)
    else if sys.version.value != "devicetree" then Abort(UnexpectedVersion)
    else if sys.offset.None? then Abort(OffsetUnreadable)
    else
      var offset := ToSize(Strtol(sys.offset.value));
      if sys.size.None? then Abort(SizeUnreadable)
      else
        var size := ToSize(Strtol(sys.size.value));
        if !dev.opens then Abort(DeviceOpenFailed)
        else if !dev.maps then Abort(MmapFailed)
        else if |argv| != 5 then Mapped(offset, size, None)
        else
          var woffset := ToU32(Strtol(argv[2]));
          var wbits := ToU32(Strtol(argv[3]));
          var wvalue := ToU32(Strtol(argv[3]));
          if wbits != 32 then Abort(UnsupportedWidth)
          else Mapped(offset, size, Some(Write(woffset, wvalue)))
  }

  /** `main` as its usage line `uio SYSFS [OFFSET BITS VALUE]` intends: the
      value comes from `argv[4]`, and a write that would not fit the window
      is refused. */
  function RunIntended(argv: seq<string>, sys: Sysfs, dev: Device): (r: Outcome)
    ensures Run(argv, sys, dev).Abort? ==> r == Run(argv, sys, dev)
    ensures Run(argv, sys, dev).Mapped? && Run(argv, sys, dev).write.None? ==> r == Run(argv, sys, dev)
    ensures r.Abort? ==> r == Run(argv, sys, dev) || r == Abort(PastWindow)
    ensures (Run(argv, sys, dev).Mapped? && Run(argv, sys, dev).write.Some?
             && Run(argv, sys, dev).write.value.offset + 4 <= Run(argv, sys, dev).mapSize) ==> r.Mapped? && r.write.Some?
    ensures r.Mapped? ==>
      && Run(argv, sys, dev).Mapped?
      && r.mapOffset == Run(argv, sys, dev).mapOffset && r.mapSize == Run(argv, sys, dev).mapSize
      && r.write.Some? == Run(argv, sys, dev).write.Some?
    ensures r.Mapped? && r.write.Some? ==>
      && |argv| == 5 && ToU32(Strtol(argv[3])) == 32
      && r.write.value == Write(ToU32(Strtol(argv[2])), ToU32(Strtol(argv[4])))
      && r.write.value.offset + 4 <= r.mapSize
    ensures r == Abort(PastWindow) <==>
      && Run(argv, sys, dev).Mapped? && Run(argv, sys, dev).write.Some?
      && Run(argv, sys, dev).write.value.offset + 4 > Run(argv, sys, dev).mapSize
  {
    match Run(argv, sys, dev)
    case Abort(f) => Abort(f)
    case Mapped(offset, size, None) => Mapped(offset, size, None)
    case Mapped(offset, size, Some(w)) =>
      if w.offset + 4 > size then Abort(PastWindow)
      else Mapped(offset, size, Some(Write(w.offset, ToU32(Strtol(argv[4])))))
  }

  /** The identity gate comes first: when it fails, the outcome does not
      depend on the offset and size attributes or on the device node, none of
      which `main` has looked at yet. */
  lemma IdentityFirst(argv: seq<string>, sys: Sysfs, dev: Device, offset: Option<string>, size: Option<string>, dev': Device)
    requires |argv| >= 2 && !Identified(sys)
    ensures Run(argv, sys, dev).Abort?
    ensures Run(argv, sys, dev) == Run(argv, Sysfs(sys.name, sys.version, offset, size), dev')
  {
  }

  /** The sysfs files of the scratch device pass the identity gate, whatever
      the attribute buffer held before each read. */
  lemma ScratchFilesIdentify(nameJunk: string, versionJunk: string, offset: Option<string>, size: Option<string>)
    requires |nameJunk| == ATTR_LEN - 8 && |versionJunk| == ATTR_LEN - 11
    ensures Identified(Sysfs(Some(CStringOf(Normalize("scratch\n" + nameJunk))),
                             Some(CStringOf(Normalize("devicetree\n" + versionJunk))), offset, size))
  {
    ReadsScratch(nameJunk);
    assert "devicetree\n" + versionJunk == "devicetree" + "\n" + versionJunk;
    LineValue("devicetree", versionJunk);
  }

  /** Because `wvalue` is parsed from the width argument, every write `main`
      makes stores 32, that is the bytes 20 00 00 00 at `woffset`. */
  lemma WriteStoresWidth(argv: seq<string>, sys: Sysfs, dev: Device, window: seq<byte>)
    requires Run(argv, sys, dev).Mapped? && Run(argv, sys, dev).write.Some?
    requires Run(argv, sys, dev).write.value.offset + 4 <= |window|
    ensures Run(argv, sys, dev).write.value.value == 32
    ensures var w := Run(argv, sys, dev).write.value;
            Stored(window, w.offset, w.value)[w.offset..w.offset + 4] == [0x20, 0, 0, 0]
  {
    var w := Run(argv, sys, dev).write.value;
    StoredAt(window, w.offset, w.value);
    LE32Small(32);
  }

  /** A five-argument command line whose width argument reads 32, on the
      scratch device, reaches the write. */
  lemma RunWrites(argv: seq<string>, sys: Sysfs, dev: Device)
    requires |argv| == 5 && Identified(sys) && sys.offset.Some? && sys.size.Some? && dev.opens && dev.maps
    requires Strtol(argv[3]) == 32
    ensures Run(argv, sys, dev) ==
      Mapped(ToSize(Strtol(sys.offset.value)), ToSize(Strtol(sys.size.value)), Some(Write(ToU32(Strtol(argv[2])), 32)))
  {
  }

  /** A command line without the write arguments, on the scratch device,
      only maps. */
  lemma RunMaps(argv: seq<string>, sys: Sysfs, dev: Device)
    requires |argv| >= 2 && |argv| != 5
    requires Identified(sys) && sys.offset.Some? && sys.size.Some? && dev.opens && dev.maps
    ensures Run(argv, sys, dev) == Mapped(ToSize(Strtol(sys.offset.value)), ToSize(Strtol(sys.size.value)), None)
  {
  }

  /** RunWrites on the one-page scratch window. */
  lemma RunOnPage(argv: seq<string>, sys: Sysfs, woffset: u32)
    requires |argv| == 5 && Identified(sys) && sys.offset.Some? && sys.size.Some?
    requires Strtol(sys.offset.value) == 0 && Strtol(sys.size.value) == 0x1000
    requires Strtol(argv[2]) == woffset && Strtol(argv[3]) == 32
    ensures Run(argv, sys, Device(true, true)) == Mapped(0, 0x1000, Some(Write(woffset, 32)))
  {
    RunWrites(argv, sys, Device(true, true));
    InRange(woffset);
    InRange(0);
    InRange(0x1000);
  }

  // Values of the numerals used below, stated for a string variable so
  // that callers do not hand the solver literal calls of Strtol to unfold.

  lemma ZeroText(s: string)
    requires s == "0"
    ensures Strtol(s) == 0
  {
    assert Dec(0) == "0";
    DecRoundTrip(0);
  }

  lemma HexZero(s: string)
    requires s == "0x0"
    ensures Strtol(s) == 0
  {
    assert Hex(0) == "0x0";
    HexRoundTrip(0);
  }

  lemma HexOne(s: string)
    requires s == "0x1"
    ensures Strtol(s) == 1
  {
    assert Hex(1) == "0x1";
    HexRoundTrip(1);
  }

  lemma HexSixteen(s: string)
    requires s == "0x10"
    ensures Strtol(s) == 0x10
  {
    assert Digits(16, 16) == "10" by { assert Digits(16, 16) == Digits(1, 16) + "0"; }
    assert Hex(16) == "0x10";
    HexRoundTrip(16);
  }

  lemma HexPage(s: string)
    requires s == "0x1000"
    ensures Strtol(s) == 0x1000
  {
    HexPageSize();
  }

  lemma WidthText(s: string)
    requires s == "32"
    ensures Strtol(s) == 32
  {
    assert Digits(32, 10) == "32" by { assert Digits(32, 10) == Digits(3, 10) + "2"; }
    assert Dec(32) == "32";
    DecRoundTrip(32);
  }

  lemma OffsetText(s: string)
    requires s == "0xffe"
    ensures Strtol(s) == 0xffe
  {
    assert Digits(15, 16) == "f";
    assert Digits(255, 16) == "ff" by { assert Digits(255, 16) == Digits(15, 16) + "f"; }
    assert Digits(0xffe, 16) == "ffe" by { assert Digits(0xffe, 16) == Digits(255, 16) + "e"; }
    assert Hex(0xffe) == "0xffe";
    HexRoundTrip(0xffe);
  }

  /** The scratch device with a one-page window at offset 0. */
  predicate ScratchPage(sys: Sysfs) {
    sys == Sysfs(Some("scratch"), Some("devicetree"), Some("0x0"), Some("0x1000"))
  }

  /** A size attribute of "0" is not refused: with the device opening and
      mapping, `main` reaches `mmap` with length 0, which Linux refuses; the
      model's mapping input does not depend on the size. */
  lemma ZeroSizeNotRejected(argv: seq<string>, sys: Sysfs)
    requires |argv| == 2
    requires sys == Sysfs(Some("scratch"), Some("devicetree"), Some("0x0"), Some("0"))
    ensures Run(argv, sys, Device(true, true)) == Mapped(0, 0, None)
  {
    HexZero(sys.offset.value);
    ZeroText(sys.size.value);
    RunMaps(argv, sys, Device(true, true));
    InRange(0);
  }

  /** `uio scratch0 0x10 32 0x1` writes 32, not 1, at offset 0x10. */
  lemma WriteValueFromWidth(argv: seq<string>, sys: Sysfs)
    requires argv == ["uio", "scratch0", "0x10", "32", "0x1"] && ScratchPage(sys)
    ensures Run(argv, sys, Device(true, true)) == Mapped(0, 0x1000, Some(Write(0x10, 32)))
  {
    HexZero(sys.offset.value);
    HexPage(sys.size.value);
    HexSixteen(argv[2]);
    WidthText(argv[3]);
    RunOnPage(argv, sys, 0x10);
  }

  /** `uio scratch0 0xffe 32 0` on a one-page window asks `map_write32` to
      store the bytes 0xffe..0x1001, two of them past the mapping. */
  lemma WritePastWindow(argv: seq<string>, sys: Sysfs)
    requires argv == ["uio", "scratch0", "0xffe", "32", "0"] && ScratchPage(sys)
    ensures Run(argv, sys, Device(true, true)) == Mapped(0, 0x1000, Some(Write(0xffe, 32)))
    ensures Run(argv, sys, Device(true, true)).write.value.offset + 4 > Run(argv, sys, Device(true, true)).mapSize
  {
    HexZero(sys.offset.value);
    HexPage(sys.size.value);
    OffsetText(argv[2]);
    WidthText(argv[3]);
    RunOnPage(argv, sys, 0xffe);
  }

  /** A write the as-written `main` makes within the window, with a value
      argument that converts, is made by the intended `main` with that value. */
  lemma IntendedWrites(argv: seq<string>, sys: Sysfs, dev: Device, offset: nat, size: nat, w: Write, value: u32)
    requires Run(argv, sys, dev) == Mapped(offset, size, Some(w)) && w.offset + 4 <= size
    requires ToU32(Strtol(argv[4])) == value
    ensures RunIntended(argv, sys, dev) == Mapped(offset, size, Some(Write(w.offset, value)))
  {
  }

  /** With the intended argument positions the same command line stores
      01 00 00 00 at offset 0x10 and leaves the rest of the window alone. */
  lemma IntendedScenario(argv: seq<string>, sys: Sysfs, window: seq<byte>)
    requires argv == ["uio", "scratch0", "0x10", "32", "0x1"] && ScratchPage(sys)
    requires |window| == 0x1000
    ensures RunIntended(argv, sys, Device(true, true)) == Mapped(0, 0x1000, Some(Write(0x10, 1)))
    ensures Stored(window, 0x10, 1)[0x10..0x14] == [1, 0, 0, 0]
    ensures forall i :: 0 <= i < |window| && (i < 0x10 || 0x14 <= i) ==> Stored(window, 0x10, 1)[i] == window[i]
  {
    WriteValueFromWidth(argv, sys);
    HexOne(argv[4]);
    IntendedWrites(argv, sys, Device(true, true), 0, 0x1000, Write(0x10, 32), 1);
    StoredSpec(window, 0x10, 1);
    StoredAt(window, 0x10, 1);
    LE32Small(1);
  }

  /** The intended `main` refuses the write past the window. */
  lemma IntendedRefusesPastWindow(argv: seq<string>, sys: Sysfs)
    requires argv == ["uio", "scratch0", "0xffe", "32", "0"] && ScratchPage(sys)
    ensures RunIntended(argv, sys, Device(true, true)) == Abort(PastWindow)
  {
    WritePastWindow(argv, sys);
  }
}
