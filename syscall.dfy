/** The `read(2)` system call on an open sysfs attribute file, and what a
    sequence of reads into one buffer accumulates. */
module Syscall {

  type Positive = n: nat | n > 0 witness 1

  /** How the kernel answers one `read` call: with at most `limit` bytes, or
      with an error (-1). */
  datatype Step = Chunk(limit: Positive) | Fail

  /** An open attribute file: the bytes not read yet, and the kernel's answers
      to the coming `read` calls. Once `steps` runs out, every read delivers
      as much as was asked for and is left. */
  datatype Source = Source(rest: string, steps: seq<Step>)

  function Min(a: int, b: int): (m: int)
    ensures m <= a && m <= b && (m == a || m == b)
  {
    if a <= b then a else b
  }

  /** Some answer of the schedule is an error. */
  predicate MayFail(steps: seq<Step>) {
    exists i :: 0 <= i < |steps| && steps[i].Fail?
  }

  /** What one `read(fd, buf + at, count)` call does to a buffer holding `b`
      before and `b'` after it: either it returns -1 and changes nothing, or
      it returns a count `rc` in [0, count], 0 only at end of file or for an
      empty request, and has copied the next `rc` bytes of the file to
      `b[at..at + rc]` and nowhere else. `next` is the file after the call. */
  ghost predicate Read(src: Source, b: string, at: nat, count: nat, rc: int, next: Source, b': string)
    ensures Read(src, b, at, count, rc, next, b') ==>
      && |b'| == |b| && |next.rest| <= |src.rest| && next.rest == src.rest[|src.rest| - |next.rest|..]
      && (rc != -1 && at + rc <= |b| ==> rc == |src.rest| - |next.rest| && b'[..at] == b[..at] && b'[at + rc..] == b[at + rc..])
  {
    && (rc == -1 <==> src.steps != [] && src.steps[0].Fail?)
    && (rc == -1 ==> b' == b && next == Source(src.rest, src.steps[1..]))
    && (rc != -1 ==>
         && 0 <= rc <= count && rc <= |src.rest| && at + rc <= |b|
         && (rc == 0 <==> count == 0 || src.rest == [])
         && b' == b[..at] + src.rest[..rc] + b[at + rc..]
         && next == Source(src.rest[rc..], if src.steps == [] then [] else src.steps[1..]))
  }

  /** One `read(fd, buf + at, count)` call. */
  method SysRead(src: Source, buf: array<char>, at: nat, count: nat) returns (rc: int, next: Source)
    requires at + count <= buf.Length
    modifies buf
    ensures Read(src, old(buf[..]), at, count, rc, next, buf[..])
  {
    if src.steps != [] && src.steps[0].Fail? {
      return -1, Source(src.rest, src.steps[1..]);
    }
    var n := Min(count, |src.rest|);
    if src.steps != [] {
      n := Min(n, src.steps[0].limit);
    }
    forall i | at <= i < at + n {
      buf[i] := src.rest[i - at];
    }
    assert buf[..] == old(buf[..])[..at] + src.rest[..n] + old(buf[..])[at + n..];
    rc := n;
    next := Source(src.rest[n..], if src.steps == [] then [] else src.steps[1..]);
  }

  /** The state of the read loop: `cursor` bytes of the file sit at the
      start of the buffer `b`, the rest of which is as it was (`orig`), and
      `s` is the file after them, `used` answers of the schedule later. */
  ghost predicate Filled(src: Source, orig: string, cursor: nat, s: Source, used: nat, b: string) {
    && |b| == |orig| && cursor <= |b| && cursor <= |src.rest|
    && s.rest == src.rest[cursor..]
    && b == src.rest[..cursor] + orig[cursor..]
    && used <= |src.steps| && s.steps == src.steps[used..]
  }

  /** What one `read` call (as SysRead describes it) does to the loop state. */
  lemma ReadStep(src: Source, orig: string, cursor: nat, used: nat, before: Source, was: string,
                 rc: int, after: Source, now: string) returns (used': nat)
    requires Filled(src, orig, cursor, before, used, was)
    requires Read(before, was, cursor, |was| - cursor, rc, after, now)
    ensures rc == -1 ==> MayFail(src.steps)
    ensures rc >= 0 ==> Filled(src, orig, cursor + rc, after, used', now)
    ensures rc == 0 ==> cursor == Min(|was|, |src.rest|)
  {
    used' := used;
    if rc == -1 {
      assert src.steps[used].Fail?;
      return;
    }
    used' := if before.steps == [] then used else used + 1;
    assert was[..cursor] == src.rest[..cursor];
    assert was[cursor + rc..] == orig[cursor + rc..];
    assert src.rest[..cursor] + src.rest[cursor..][..rc] == src.rest[..cursor + rc];
  }
}
