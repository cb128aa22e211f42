/** `strtol(s, NULL, 0)` as section 7.22.1.4 of ISO/IEC 9899:2011 defines it:
    skip white space, take an optional sign, then the longest run of digits
    of the base the prefix selects ("0x"/"0X" hexadecimal, a leading "0"
    octal, otherwise decimal), and clamp the value to the range of `long`.
    Its partner is the formatting `printf` does for "%ld" and for "0x%zx",
    the form in which `main` prints the map size. */
module Parse {

  /** `long` on the 32-bit ARM BMCs the tool runs on. */
  const LONG_MIN: int := -0x8000_0000
  const LONG_MAX: int := 0x7FFF_FFFF

  /** `isspace` in the "C" locale. */
  predicate IsSpace(c: char)
    ensures IsSpace(c) <==> c as int in {0x20, 0x09, 0x0A, 0x0B, 0x0C, 0x0D}
  {
    c == ' ' || '\t' <= c <= '\r'
  }

  /** The value of `c` as a digit of any base up to 36; 36 if it is none. */
  function DigitValue(c: char): (d: nat)
    ensures d <= 36
  {
    if '0' <= c <= '9' then c as int - '0' as int
    else if 'a' <= c <= 'z' then c as int - 'a' as int + 10
    else if 'A' <= c <= 'Z' then c as int - 'A' as int + 10
    else 36
  }

  predicate AllDigits(s: string, base: nat) {
    forall j :: 0 <= j < |s| ==> DigitValue(s[j]) < base
  }

  /** Length of the longest prefix of `s` made of digits of `base`. */
  function Span(s: string, base: nat): (k: nat)
    ensures k <= |s| && AllDigits(s[..k], base)
    ensures k < |s| ==> DigitValue(s[k]) >= base
  {
    if |s| == 0 || DigitValue(s[0]) >= base then 0
    else
      var k := 1 + Span(s[1..], base);
      assert forall j :: 1 <= j < k ==> s[..k][j] == s[1..][..k - 1][j - 1];
      k
  }

  /** The number a run of digits denotes, most significant digit first. */
  function DigitsValue(s: string, base: nat): (v: nat)
    requires AllDigits(s, base)
  {
    if s == [] then 0
    else DigitsValue(s[..|s| - 1], base) * base + DigitValue(s[|s| - 1])
  }

  function SkipSpace(s: string): (t: string)
    ensures |t| <= |s| && t == s[|s| - |t|..] && (t != [] ==> !IsSpace(t[0]))
    ensures forall i :: 0 <= i < |s| - |t| ==> IsSpace(s[i])
    decreases |s|
  {
    if s != [] && IsSpace(s[0]) then SkipSpace(s[1..]) else s
  }

  /** The value of the unsigned part of the subject sequence, base 0. Text
      that starts with no digit denotes 0, and so does "0x" followed by no
      hexadecimal digit: its subject sequence is the octal "0". */
  function Magnitude(u: string): (m: nat)
    ensures u == [] || DigitValue(u[0]) >= 10 ==> m == 0
    ensures |u| >= 2 && u[0] == '0' && (u[1] == 'x' || u[1] == 'X') && (|u| == 2 || DigitValue(u[2]) >= 16) ==> m == 0
  {
    if |u| >= 3 && u[0] == '0' && (u[1] == 'x' || u[1] == 'X') && DigitValue(u[2]) < 16 then
      DigitsValue(u[2..][..Span(u[2..], 16)], 16)
    else if |u| >= 1 && u[0] == '0' then
      var k := Span(u, 8);
      assert |u| >= 2 && (u[1] == 'x' || u[1] == 'X') ==>
        k == 1 && u[..1][..0] == [] && u[..1][0] == '0' && DigitsValue(u[..1], 8) == 0;
      DigitsValue(u[..k], 8)
    else
      DigitsValue(u[..Span(u, 10)], 10)
  }

  function Clamp(x: int): (r: int)
    ensures LONG_MIN <= r <= LONG_MAX
    ensures LONG_MIN <= x <= LONG_MAX ==> r == x
  {
    if x < LONG_MIN then LONG_MIN else if x > LONG_MAX then LONG_MAX else x
  }

  /** The number the subject sequence of `s` denotes, before any clamping.
      Text with no digits where the number should start denotes 0. */
  function Value(s: string): (v: int)
    ensures v < 0 ==> var t := SkipSpace(s); t != [] && t[0] == '-'
  {
    var t := SkipSpace(s);
    if t != [] && (t[0] == '+' || t[0] == '-') then
      var m: int := Magnitude(t[1..]);
      if t[0] == '-' then -m else m
    else
      Magnitude(t)
  }

  /** `strtol` sets `errno` to ERANGE: the value does not fit in a `long`. */
  predicate OutOfRange(s: string) {
    Value(s) < LONG_MIN || LONG_MAX < Value(s)
  }

  /** `strtol(s, NULL, 0)`: the value, or the bound of `long` it overflows. */
  function Strtol(s: string): (r: int)
    ensures LONG_MIN <= r <= LONG_MAX
    ensures !OutOfRange(s) ==> r == Value(s)
    ensures Value(s) < LONG_MIN ==> r == LONG_MIN
    ensures Value(s) > LONG_MAX ==> r == LONG_MAX
  {
    Clamp(Value(s))
  }

  /** Digit `d` as `printf` writes it (lower case). */
  function DigitChar(d: nat): (c: char)
    requires d < 16
    ensures DigitValue(c) == d
  {
    if d < 10 then ('0' as int + d) as char else ('a' as int + d - 10) as char
  }

  /** `n` in `base` without leading zeros, as `printf` writes it. */
  function Digits(n: nat, base: nat): (s: string)
    requires 2 <= base <= 16
    ensures |s| >= 1
    decreases n
  {
    if n < base then [DigitChar(n)] else Digits(n / base, base) + [DigitChar(n % base)]
  }

  /** `printf("%ld", n)`. */
  function Dec(n: int): (r: string)
    ensures |r| >= 1
  {
    if n < 0 then "-" + Digits(-n, 10) else Digits(n, 10)
  }

  /** `printf("0x%zx", n)`, as `main` prints the map size. */
  function Hex(n: nat): (r: string)
    ensures |r| >= 3 && r[..2] == "0x"
  {
    "0x" + Digits(n, 16)
  }

  lemma DivMod(n: nat, base: nat)
    requires 2 <= base
    ensures n / base * base + n % base == n
    ensures n >= base ==> n / base < n
  {
    var q, r := n / base, n % base;
    assert n == q * base + r;
    if n >= base {
      assert q >= 1;
      assert q * base == q * 2 + q * (base - 2);
      assert q * (base - 2) >= 0;
    }
  }

  lemma {:induction false} DigitsAreDigits(n: nat, base: nat)
    requires 2 <= base <= 16
    ensures AllDigits(Digits(n, base), base)
    decreases n
  {
    if n >= base {
      DigitsAreDigits(n / base, base);
    }
  }

  lemma {:induction false} DigitsLeading(n: nat, base: nat)
    requires 2 <= base <= 16
    ensures Digits(n, base)[0] == '0' <==> n == 0
    decreases n
  {
    if n >= base {
      DivMod(n, base);
      assert n / base != 0;
      assert Digits(n, base)[0] == Digits(n / base, base)[0];
      DigitsLeading(n / base, base);
    } else {
      assert Digits(n, base)[0] == DigitChar(n);
    }
  }

  /** Reading back what `printf` wrote gives the number. */
  lemma {:induction false} DigitsRoundTrip(n: nat, base: nat)
    requires 2 <= base <= 16
    ensures AllDigits(Digits(n, base), base)
    ensures DigitsValue(Digits(n, base), base) == n
    decreases n
  {
    DigitsAreDigits(n, base);
    var s := Digits(n, base);
    if n >= base {
      var q, d := n / base, n % base;
      DivMod(n, base);
      assert s == Digits(q, base) + [DigitChar(d)];
      assert s[..|s| - 1] == Digits(q, base);
      DigitsRoundTrip(q, base);
      assert DigitsValue(s, base) == DigitsValue(Digits(q, base), base) * base + d;
      assert q * base + d == n;
    } else {
      assert s == [DigitChar(n)];
      assert s[..0] == [];
    }
  }

  /** A complete run of digits is the whole subject sequence. */
  lemma SpanAll(s: string, base: nat)
    requires AllDigits(s, base)
    ensures Span(s, base) == |s|
  {
  }

  /** The unsigned part of "%ld" output converts back to its value. */
  lemma DecMagnitude(m: nat)
    ensures Magnitude(Digits(m, 10)) == m
  {
    var u := Digits(m, 10);
    DigitsRoundTrip(m, 10);
    DigitsLeading(m, 10);
    if m == 0 {
      assert u == "0";
      assert Span(u, 8) == 1;
      assert u[..1] == u && u[..0] == [];
      assert DigitsValue(u, 8) == 0;
    } else {
      assert u[0] != '0';
      SpanAll(u, 10);
      assert u[..|u|] == u;
    }
  }

  /** `strtol` reads back every number that "%ld" wrote that fits in a
      `long`; it sets ERANGE exactly for those outside `long`. */
  lemma DecRoundTrip(n: int)
    ensures Value(Dec(n)) == n
    ensures LONG_MIN <= n <= LONG_MAX ==> Strtol(Dec(n)) == n
    ensures OutOfRange(Dec(n)) <==> n < LONG_MIN || LONG_MAX < n
  {
    var m: nat := if n < 0 then -n else n;
    var u := Digits(m, 10);
    DecMagnitude(m);
    DigitsAreDigits(m, 10);
    var s := Dec(n);
    assert !IsSpace(s[0]) by {
      if n >= 0 {
        assert DigitValue(u[0]) < 10;
      }
    }
    assert SkipSpace(s) == s;
    if n < 0 {
      assert s[1..] == u;
    } else {
      assert DigitValue(s[0]) < 10;
    }
  }

  /** `strtol` reads back every non-negative number that "0x%zx" wrote (the
      map size `main` prints) as long as it fits in a `long`; from 0x8000_0000
      up it sets ERANGE and returns LONG_MAX. */
  lemma HexRoundTrip(n: nat)
    ensures Value(Hex(n)) == n
    ensures n <= LONG_MAX ==> Strtol(Hex(n)) == n
    ensures n > LONG_MAX ==> Strtol(Hex(n)) == LONG_MAX && OutOfRange(Hex(n))
  {
    var u := Digits(n, 16);
    DigitsRoundTrip(n, 16);
    SpanAll(u, 16);
    var h := Hex(n);
    assert h[2..] == u && u[..|u|] == u;
    assert DigitValue(h[2]) < 16;
    assert Magnitude(h) == n;
    assert SkipSpace(h) == h;
  }

  /** "0x1000", the hexadecimal spelling of the page size. */
  lemma HexPageSize()
    ensures Value("0x1000") == 4096
  {
    assert Digits(1, 16) == "1";
    assert Digits(16, 16) == "10" by { assert Digits(16, 16) == Digits(1, 16) + "0"; }
    assert Digits(256, 16) == "100" by { assert Digits(256, 16) == Digits(16, 16) + "0"; }
    assert Digits(4096, 16) == "1000" by { assert Digits(4096, 16) == Digits(256, 16) + "0"; }
    assert Hex(4096) == "0x1000";
    HexRoundTrip(4096);
  }

  /** "4096", the decimal spelling of the page size. */
  lemma DecPageSize()
    ensures Value("4096") == 4096
  {
    assert Digits(4, 10) == "4";
    assert Digits(40, 10) == "40" by { assert Digits(40, 10) == Digits(4, 10) + "0"; }
    assert Digits(409, 10) == "409" by { assert Digits(409, 10) == Digits(40, 10) + "9"; }
    assert Digits(4096, 10) == "4096" by { assert Digits(4096, 10) == Digits(409, 10) + "6"; }
    assert Dec(4096) == "4096";
    DecRoundTrip(4096);
  }

  /** Base 0 accepts both spellings of the page size, with one value. */
  lemma Base0Spellings()
    ensures Strtol("0x1000") == Strtol("4096") == 4096
    ensures !OutOfRange("0x1000") && !OutOfRange("4096")
  {
    HexPageSize();
    DecPageSize();
  }

  /** Text with no digit where the number should start, after the white
      space and an optional sign, converts to 0. */
  lemma NoDigitsIsZero(s: string)
    requires var t := SkipSpace(s);
             var u := if t != [] && (t[0] == '+' || t[0] == '-') then t[1..] else t;
             u == [] || DigitValue(u[0]) >= 10
    ensures Value(s) == 0 && Strtol(s) == 0
  {
  }
}
