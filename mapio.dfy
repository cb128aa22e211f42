/** `map_write32`: store a 32-bit value little-endian, byte by byte, into the
    mapped register window. */
module MapIo {

  type byte = b: int | 0 <= b < 0x100
  type u32 = v: int | 0 <= v < 0x1_0000_0000

  /** The bytes of `htole32(value)` in memory order, least significant first,
      whatever the byte order of the host. */
  function LE32(v: u32): (b: seq<byte>)
    ensures |b| == 4 && FromLE32(b) == v
  {
    assert v / 0x1_0000 == v / 0x100 / 0x100;
    assert v / 0x100_0000 == v / 0x100 / 0x100 / 0x100;
    [v % 0x100, v / 0x100 % 0x100, v / 0x1_0000 % 0x100, v / 0x100_0000]
  }

  /** The value four bytes denote when read little-endian. */
  function FromLE32(b: seq<byte>): (v: u32)
    requires |b| == 4
  {
    b[0] as int + 0x100 * b[1] as int + 0x1_0000 * b[2] as int + 0x100_0000 * b[3] as int
  }

  lemma EncodeDecode(b: seq<byte>)
    requires |b| == 4
    ensures LE32(FromLE32(b)) == b
  {
    var v := FromLE32(b);
    assert v % 0x100 == b[0];
    assert v / 0x100 == b[1] as int + 0x100 * b[2] as int + 0x1_0000 * b[3] as int;
    assert v / 0x1_0000 == b[2] as int + 0x100 * b[3] as int;
    assert v / 0x100_0000 == b[3];
  }

  /** The register window after the four bytes of `v` were stored at
      `offset`. */
  function Stored(m: seq<byte>, offset: nat, v: u32): (r: seq<byte>)
    requires offset + 4 <= |m|
  {
    m[..offset] + LE32(v) + m[offset + 4..]
  }

  /** A store keeps the window's size, reads back as the value it stored, and
      leaves every byte outside `offset..offset + 3` as it was. */
  lemma {:induction false} StoredSpec(m: seq<byte>, offset: nat, v: u32)
    requires offset + 4 <= |m|
    ensures |Stored(m, offset, v)| == |m|
    ensures FromLE32(Stored(m, offset, v)[offset..offset + 4]) == v
    ensures forall i :: 0 <= i < |m| && (i < offset || offset + 4 <= i) ==> Stored(m, offset, v)[i] == m[i]
  {
    var r := Stored(m, offset, v);
    assert r[offset..offset + 4] == LE32(v);
  }

  lemma StoredAt(m: seq<byte>, offset: nat, v: u32)
    requires offset + 4 <= |m|
    ensures Stored(m, offset, v)[offset..offset + 4] == LE32(v)
  {
  }

  /** A value below 256 is its own first byte, followed by three zeros. */
  lemma LE32Small(v: u32)
    requires v < 0x100
    ensures LE32(v) == [v, 0, 0, 0]
  {
  }

  /** A second store to the same place replaces the first. */
  lemma LastStoreWins(m: seq<byte>, offset: nat, v: u32, w: u32)
    requires offset + 4 <= |m|
    ensures Stored(Stored(m, offset, v), offset, w) == Stored(m, offset, w)
  {
  }

  /** The value 0xDEADBEEF stored at offset 0 puts its least significant
      byte first. */
  lemma DeadBeef(m: seq<byte>)
    requires |m| >= 4
    ensures Stored(m, 0, 0xDEAD_BEEF)[..4] == [0xEF, 0xBE, 0xAD, 0xDE]
  {
  }

  /** `map_write32(map, offset, value)`, `window` standing for `map`. The
      source checks no bound, so the caller must keep `offset + 4` within the
      window. */
  method MapWrite32(window: array<byte>, offset: nat, value: u32)
    requires offset + 4 <= window.Length
    modifies window
    ensures window[..] == Stored(old(window[..]), offset, value)
    ensures FromLE32(window[offset..offset + 4]) == value
    ensures forall i :: 0 <= i < window.Length && (i < offset || offset + 4 <= i) ==> window[i] == old(window[i])
  {
    var lev := LE32(value);
    var o := offset;
    window[o] := lev[0];
    o := o + 1;
    window[o] := lev[1];
    o := o + 1;
    window[o] := lev[2];
    o := o + 1;
    window[o] := lev[3];
    StoredSpec(old(window[..]), offset, value);
  }
}
