# uio: a verified model of the UIO scratch-device poke tool

`uio.c` is a small Linux tool for a userspace I/O (UIO) device. It is
invoked as `uio DEVICE [OFFSET BITS VALUE]` and does the following:

1. It reads the `name` and `version` attributes of `/sys/class/uio/DEVICE`.
   They must be `scratch` and `devicetree`.
2. It reads `maps/map0/offset` and `maps/map0/size` and converts them with
   `strtol(…, NULL, 0)`.
3. It opens `/dev/DEVICE` and maps `size` bytes of it.
4. With exactly four extra arguments, it stores one 32-bit value,
   little-endian and byte by byte, at an offset in the mapping.

The model has six modules:

- `CStr` (cstr.dfy) gives C-string views of a character buffer:
  `strchrnul`, the string `strcmp` sees, and a buffer's first line.
- `Syscall` (syscall.dfy) models `read(2)` on an open attribute file.
  - A `Source` is the bytes still unread plus a schedule of the kernel's
    answers: short reads of at most `limit` bytes, or failures. After the
    schedule runs out, reads are full.
  - `Filled` and `ReadStep` describe what a series of reads leaves in a
    buffer of type `array<char>`.
- `Attribute` (attribute.dfy) models `read_attr` imperatively.
  - `Fill` is the read loop, proved against the `Source`.
  - `Terminate` performs the two NUL stores, using a loop-based
    `StrChrNul`.
  - `ReadAttr` puts the two together.
  - `Normalize` is the function on buffer contents that `Terminate` is
    proved against. The lemmas derive the attribute value from it.
- `Parse` (strtol.dfy) models base-0 `strtol` as section 7.22.1.4 of
  ISO/IEC 9899:2011 defines it, with `long` taken as 32 bits. Its partner is
  the `printf` formatting `Dec`/`Hex`, which `strtol` reads back.
- `MapIo` (mapio.dfy) models `map_write32` as a method on an `array<byte>`.
  It is proved against `Stored`, a function on the window's bytes, and
  against `FromLE32`, its little-endian inverse.
- `Uio` (uio.dfy) models `main`'s decisions as a pure function `Run`.
  - Run's inputs are the argument vector, the outcome of each attribute
    read, and whether the device opens and maps.
  - Run's output is an abort stage, or the map offset and size plus the
    write, if any.
  - `RunIntended` is the corrected `main` (see Findings).

The model follows the code where it departs from its usage comment (uio.c:68, `uio SYSFS [OFFSET BITS VALUE]`) or from what that comment implies:

- An argument count of 3, 4 or 6 or more only maps the device; it is not a
  usage error.
- `main` does not itself refuse a size of 0; only `mmap` can refuse it.
- The write is not checked against the window.
- The write value is parsed from `argv[3]`.

## Model

| member | source | states |
|---|---|---|
| CStr.ChrNul | uio.c:49 | the index `strchrnul` returns is the first `c` or NUL, or the end: at most the length, a stop character there, none before |
| CStr.CStringOf | uio.c:99 | the string `strcmp` compares is a NUL-free prefix of the buffer, followed by a NUL when shorter |
| CStr.Line | uio.c:49 | the first line is a prefix with no newline or NUL, stopped by one of them |
| Syscall.SysRead | uio.c:39 | one `read` returns -1 and changes nothing; otherwise it returns a count in [0, count], 0 only at end of file or on an empty request, and copies exactly that many next file bytes to `buf + at` |
| Syscall.ReadStep | uio.c:39-40 | a read after `cursor` filled bytes extends the filled prefix by `rc` and advances the file. A -1 means the schedule held a failure; a 0 means the buffer is full or the file is exhausted |
| Attribute.StrChrNul | uio.c:49 | on a buffer holding a NUL, the loop returns the first `c` or NUL index, equal to `ChrNul` |
| Attribute.Normalize | uio.c:48-49 | the buffer keeps its length and ends in NUL, and its C string is the first line of all but the last byte |
| Attribute.ValueBounded | uio.c:48-49 | the value read is at most `len - 1` characters and holds no newline or NUL |
| Attribute.LineValue | uio.c:48-49 | a buffer holding a line and a newline yields exactly that line, whatever follows the newline |
| Attribute.LongValue | uio.c:48-49 | a full buffer without a newline or NUL yields its first `len - 1` bytes |
| Attribute.Terminate | uio.c:48-49 | the two NUL stores turn the buffer into `Normalize` of its old contents |
| Attribute.Fill | uio.c:37-46 | the loop returns -1 only when some read failed. Otherwise it has read `min(len, file length)` bytes into the front of the buffer, and the rest of the buffer is untouched |
| Attribute.ReadAttr | uio.c:37-53 | returns -1 only on a read failure, and never when no read fails. Otherwise it returns the number of bytes read, `min(len, file length)`, the buffer is `Normalize` of what was read over the old contents |
| Attribute.ReadsLine | uio.c:37-53 | an attribute file whose first line is shorter than the buffer reads as that line, whatever follows it |
| Attribute.ReadsScratch | uio.c:94-99 | the `name` file `scratch\n` reads as `scratch` in the 20-byte buffer |
| Syscall.Read | uio.c:39 | the contract of one `read`: the buffer keeps its size, the file only advances, and a successful read advances it by `rc` bytes and changes the buffer nowhere outside `at..at + rc` |
| Parse.IsSpace | uio.c:121 | `isspace` in the "C" locale holds for exactly space, tab, newline, vertical tab, form feed and carriage return |
| Parse.Span | uio.c:121 | the digit run is the longest prefix of digits of the base |
| Parse.SkipSpace | uio.c:121 | what is dropped is white space, it is a prefix, and what is left does not start with white space |
| Parse.Magnitude | uio.c:121 | text that starts with no digit denotes 0, and so does "0x" without a hexadecimal digit after it, whose subject sequence is the octal "0" |
| Parse.Value | uio.c:121 | the value of the subject sequence is negative only after a minus sign |
| Parse.Strtol | uio.c:121 | the result is within `long`: the value of the subject sequence, or the bound it overflows |
| Parse.DigitsRoundTrip | uio.c:121 | every digit string written in a base reads back as its number |
| Parse.DecRoundTrip | uio.c:121 | the value of every "%ld" text is its number; `strtol` returns it for every `long` and sets ERANGE exactly for the numbers outside `long` |
| Parse.HexRoundTrip | uio.c:135-141 | the value of every "0x%zx" text, the form in which `main` prints the size at uio.c:141, is its number; `strtol` returns it up to LONG_MAX and returns LONG_MAX with ERANGE above |
| Parse.Base0Spellings | uio.c:121-135 | "0x1000" and "4096" both convert to 4096, within range |
| Parse.NoDigitsIsZero | uio.c:121 | text with no digit at its start, after the white space and an optional sign, converts to 0 |
| MapIo.LE32 | uio.c:58-59 | the four bytes of `htole32(value)` in memory order, which read little-endian denote `value` |
| MapIo.EncodeDecode | uio.c:58-63 | any four bytes are the little-endian encoding of the value they denote |
| MapIo.StoredSpec | uio.c:56-64 | a store keeps the window size, reads back as the value, and leaves all bytes outside `offset..offset+3` as they were |
| MapIo.LastStoreWins | uio.c:56-64 | a second store at the same offset replaces the first |
| MapIo.DeadBeef | uio.c:58-63 | storing 0xDEADBEEF at offset 0 gives the bytes EF BE AD DE |
| MapIo.MapWrite32 | uio.c:56-64 | the window becomes `Stored(old window, offset, value)`: the four bytes read back as `value` and every other byte is unchanged |
| Uio.ToU32 | uio.c:167-177 | the conversion of a `long` to `uint32_t`: unchanged within 32 bits, otherwise congruent modulo 2^32 |
| Uio.ToSize | uio.c:121-135 | the conversion of a `long` to a 32-bit `size_t`: unchanged within 32 bits, otherwise congruent modulo 2^32 |
| Uio.Run | uio.c:82-188 | each abort stage in `main`'s order. The outcome maps exactly when the device is identified, its offset and size were read, it opens and maps, and a five-argument call's width converts to 32. The map size is the converted size, a write happens iff there are five arguments, and its offset is the converted `argv[2]` and its value 32 |
| Uio.IdentityFirst | uio.c:94-112 | when the identity check fails, the outcome does not depend on the offset and size attributes or on the device |
| Uio.ScratchFilesIdentify | uio.c:94-112 | the files `scratch\n` and `devicetree\n` pass the identity check whatever the buffer held before |
| Uio.WriteStoresWidth | uio.c:172-188 | every write `main` makes has the value 32 and stores the bytes 20 00 00 00 |
| Uio.RunWrites | uio.c:164-188 | a five-argument call on the identified device, with a width argument of 32, writes at the converted offset |
| Uio.RunMaps | uio.c:158-164 | a call without exactly four extra arguments, on the identified device, only maps |
| Uio.ZeroSizeNotRejected | uio.c:134-164 | a size attribute of "0" is not refused by `main`, which reaches `mmap` with length 0. The outcome `Mapped(0, 0, None)` arises because the model's mapping input does not depend on the size; Linux refuses a zero-length `mmap` |
| Uio.WriteValueFromWidth | uio.c:172-177 | `uio scratch0 0x10 32 0x1` writes 32, not 1, at offset 0x10 |
| Uio.WritePastWindow | uio.c:164-188 | `uio scratch0 0xffe 32 0` on a one-page window writes at 0xffe, whose four bytes end past the window |
| Uio.RunIntended | uio.c:68-188 | the corrected `main` keeps every abort and every map-only outcome of `Run`, adds only the `PastWindow` abort, refuses exactly the writes past the window, and makes every write that fits, with the value from `argv[4]` |
| Uio.IntendedWrites | uio.c:68-188 | a write that fits the window is made by the corrected `main` with the value from `argv[4]` |
| Uio.IntendedScenario | uio.c:68-188 | the corrected `main` on `uio scratch0 0x10 32 0x1` stores 01 00 00 00 at 0x10 and nothing else |
| Uio.IntendedRefusesPastWindow | uio.c:68-188 | the corrected `main` refuses `uio scratch0 0xffe 32 0` on a one-page window |

## Verifying

`dafny verify --resource-limit 2000000 --verification-time-limit 0 --warn-contradictory-assumptions *.dfy`
checks all six files together.

## Left out

- The `asprintf` path building and its failure at uio.c:22-26, 88-92 and 143-147 is not modelled. Each attribute read's result comes in as a parameter of `Run`, and none of `asprintf`'s failures are modelled.
- The `open` of the attribute file and its failure path in `read_attr` (uio.c:30-35) are not modelled. `ReadAttr` starts from an open file. When `open` fails, `read_attr` returns `rc`, which still holds `asprintf`'s positive count (uio.c:22, 34), and leaves the buffer as it was. `main`'s -1 tests then do not fire, and it goes on with the previous attribute's text. `Run` has no input for that case: a `None` in `Sysfs` stands only for a -1 return.
- The file descriptors are never closed in the source. Their lifetime is not modelled, and neither is the unmapping.
- The real `open` and `mmap` of `/dev/DEVICE` are not modelled. They are the booleans of `Device`.
- `printf`, `perror` and the `__LINE__` exit codes are not modelled. Each `Failure` constructor stands for one exit point.
- `errno`: the ERANGE tests after each `strtol` (uio.c:120-125, 134-139, 166-181) are not modelled. `Parse.Strtol` clamps to `long`, as `strtol` does, and the aborts on overflow are not modelled.
- The test of `map_write32`'s result (uio.c:188-192) is not modelled. The function returns no value, so the test reads an indeterminate value.
- `long` and `size_t` are taken as 32 bits, as on the 32-bit ARM controllers the tool targets. The conversions to `uint32_t` and `size_t` are reduction modulo 2^32.
- Characters stand for the bytes of the attribute files.
- There is no locale: `isspace` is the "C" locale's.
- Attribute.Fill: on a failed read, the buffer contents are left unspecified, and `read_attr` does not use them.
- Attribute.ReadAttr: the contract says only that -1 needs a scheduled failure and that a schedule without failures never gives -1. It does not say which schedules reach their failure before the end of the file.

## Findings

| source | as written | input that shows it | evidently intended | confidence | as-written member | corrected member |
|---|---|---|---|---|---|---|
| uio.c:177 | `wvalue` is converted from `argv[3]`, the width argument | `uio scratch0 0x10 32 0x1` stores 32 at 0x10 | the value comes from `argv[4]`, per the usage line at uio.c:68, so 1 is stored | not executed | Uio.WriteValueFromWidth | Uio.IntendedScenario |
| uio.c:56-64 | `map_write32` stores four bytes at `woffset` without comparing it to the map size | `uio scratch0 0xffe 32 0` on a 0x1000-byte map writes bytes 0x1000 and 0x1001, past the mapping | a write with `offset + 4 > size` is refused | not executed | Uio.WritePastWindow | Uio.IntendedRefusesPastWindow |
