/** `read_attr`: read one sysfs attribute into a fixed buffer and force the
    buffer to hold a bounded, single-line C string. */
module Attribute {
  import opened CStr
  import opened Syscall

  /** Size of the attribute buffer `main` passes (`ATTR_LEN`). */
  const ATTR_LEN: nat := 20

  /** `strchrnul(buf, c)` on a buffer known to hold a NUL: the index of the
      first `c` or NUL. */
  method StrChrNul(buf: array<char>, c: char) returns (k: nat)
    requires NUL in buf[..]
    ensures k < buf.Length && (buf[k] == c || buf[k] == NUL)
    ensures forall j :: 0 <= j < k ==> buf[j] != c && buf[j] != NUL
    ensures k == ChrNul(buf[..], c)
  {
    k := 0;
    while buf[k] != c && buf[k] != NUL
      invariant k < buf.Length && NUL in buf[k..]
      invariant forall j :: 0 <= j < k ==> buf[j] != c && buf[j] != NUL
      decreases buf.Length - k
    {
      assert buf[k..] == [buf[k]] + buf[k + 1..];
      k := k + 1;
    }
    ChrNulUnique(buf[..], c, k);
  }

  /** The buffer after `buf[len - 1] = '\0'` and the NUL store at
      `strchrnul(buf, '\n')`: same length, NUL-terminated, and its C string is
      the first line of the buffer without its last byte. */
  function Normalize(s: string): (r: string)
    requires |s| >= 1
    ensures |r| == |s| && r[|s| - 1] == NUL
    ensures CStringOf(r) == Line(s[..|s| - 1])
  {
    var p := s[..|s| - 1];
    var t := s[|s| - 1 := NUL];
    var k := ChrNul(p, '\n');
    ChrNulUnique(t, '\n', k);
    var r := t[k := NUL];
    ChrNulUnique(r, NUL, k);
    assert r[..k] == p[..k];
    r
  }

  /** The attribute value is a bounded C string: shorter than the buffer, and
      free of newlines (and, being a C string, of NULs). */
  lemma ValueBounded(s: string)
    requires |s| >= 1
    ensures |CStringOf(Normalize(s))| <= |s| - 1
    ensures forall i :: 0 <= i < |CStringOf(Normalize(s))| ==>
      CStringOf(Normalize(s))[i] != '\n' && CStringOf(Normalize(s))[i] != NUL
  {
    var v := CStringOf(Normalize(s));
    assert v == Line(s[..|s| - 1]);
    forall i | 0 <= i < |v| ensures v[i] != '\n' && v[i] != NUL {
      assert v[i] in v;
    }
  }

  /** A buffer that holds `line` followed by a newline yields `line`, whatever
      the bytes after the newline (file content or earlier buffer contents). */
  lemma {:induction false} LineValue(line: string, tail: string)
    requires '\n' !in line && NUL !in line
    ensures CStringOf(Normalize(line + "\n" + tail)) == line
  {
    var s := line + "\n" + tail;
    var p := s[..|s| - 1];
    assert p[..|line|] == line;
    if tail == [] {
      assert p == line;
      ChrNulUnique(p, '\n', |line|);
    } else {
      assert p[|line|] == '\n';
      forall j | 0 <= j < |line| ensures p[j] != '\n' && p[j] != NUL {
        assert p[j] == line[j] && line[j] in line;
      }
      ChrNulUnique(p, '\n', |line|);
    }
  }

  /** A buffer that is filled completely with no newline or NUL in it yields
      its first `|s| - 1` bytes: an over-long attribute is cut to the buffer. */
  lemma {:induction false} LongValue(s: string)
    requires |s| >= 1
    requires forall i :: 0 <= i < |s| ==> s[i] != '\n' && s[i] != NUL
    ensures CStringOf(Normalize(s)) == s[..|s| - 1]
  {
    ChrNulUnique(s[..|s| - 1], '\n', |s| - 1);
  }

  /** The two NUL stores of `read_attr`: `buf[len - 1] = '\0'`, then a NUL at
      `strchrnul(buf, '\n')`. */
  method Terminate(buf: array<char>)
    requires buf.Length >= 1
    modifies buf
    ensures buf[..] == Normalize(old(buf[..]))
  {
    ghost var s := buf[..];
    buf[buf.Length - 1] := NUL;
    assert buf[..] == s[buf.Length - 1 := NUL];
    assert NUL in buf[..] by { assert buf[..][buf.Length - 1] == NUL; }
    ChrNulUnique(buf[..], '\n', ChrNul(s[..buf.Length - 1], '\n'));
    var k := StrChrNul(buf, '\n');
    buf[k] := NUL;
  }

  /** The read loop of `read_attr`: read until a call returns 0 or -1, each
      call asking only for the room left in the buffer. On success `cursor`
      bytes were read, all of the file or a full buffer, and they fill
      `buf[..cursor]`; the rest of the buffer is untouched. */
  method Fill(src: Source, buf: array<char>) returns (rc: int, cursor: nat)
    modifies buf
    ensures rc == -1 || rc == 0
    ensures rc == -1 ==> MayFail(src.steps)
    ensures rc == 0 ==> cursor == Min(buf.Length, |src.rest|)
    ensures rc == 0 ==> buf[..] == src.rest[..cursor] + old(buf[..])[cursor..]
  {
    cursor := 0;
    var s := src;
    ghost var used: nat := 0;
    ghost var orig := buf[..];
    while true
      invariant Filled(src, orig, cursor, s, used, buf[..])
      decreases buf.Length - cursor
    {
      ghost var before, was := s, buf[..];
      rc, s := SysRead(s, buf, cursor, buf.Length - cursor);
      used := ReadStep(src, orig, cursor, used, before, was, rc, s, buf[..]);
      if rc <= 0 {
        return;
      }
      cursor := cursor + rc;
    }
  }

  /** `read_attr` after the file was opened: fill the buffer, then normalise
      it. The result is -1 only if some read failed, and otherwise the number
      of bytes read, which is in [0, len]. */
  method ReadAttr(src: Source, buf: array<char>) returns (rc: int)
    requires buf.Length >= 1
    modifies buf
    ensures rc == -1 ==> MayFail(src.steps)
    ensures !MayFail(src.steps) ==> rc != -1
    ensures rc != -1 ==> 0 <= rc <= buf.Length && rc == Min(buf.Length, |src.rest|)
    ensures rc != -1 ==> buf[..] == Normalize(src.rest[..rc] + old(buf[..])[rc..])
  {
    var cursor;
    rc, cursor := Fill(src, buf);
    if rc == -1 {
      return;
    }
    Terminate(buf);
    rc := cursor;
  }

  /** A sysfs file holding one line: `read_attr` returns that line, as for the
      `name` file holding "scratch\n", whatever the buffer held before. */
  lemma ReadsLine(line: string, more: string, junk: string, len: nat)
    requires '\n' !in line && NUL !in line && |line| < len
    requires |junk| == len - Min(len, |line| + 1 + |more|)
    ensures var content := line + "\n" + more;
            var n := Min(len, |content|);
            CStringOf(Normalize(content[..n] + junk)) == line
  {
    var content := line + "\n" + more;
    var n := Min(len, |content|);
    var tail := content[..n][|line| + 1..] + junk;
    assert content[..n] + junk == line + "\n" + tail;
    LineValue(line, tail);
  }

  /** The attribute file `name` of the scratch device. */
  lemma ReadsScratch(junk: string)
    requires |junk| == ATTR_LEN - 8
    ensures CStringOf(Normalize("scratch\n" + junk)) == "scratch"
  {
    assert "scratch\n" + junk == "scratch" + "\n" + junk;
    LineValue("scratch", junk);
  }
}
