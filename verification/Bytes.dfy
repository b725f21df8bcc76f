/** Machine integers of the AVR target, and the wrap-around clock arithmetic on them. */
module Bytes {

  type byte = x: int | 0 <= x < 0x100
  type nibble = x: int | 0 <= x < 0x10
  type uint16 = x: int | 0 <= x < 0x1_0000
  type uint32 = x: int | 0 <= x < 0x1_0000_0000

  const CLOCK_PERIOD := 0x1_0000_0000

  /** `millis() - since`, computed in 32 bits as the source does. */
  function Elapsed(now: uint32, since: uint32): uint32 {
    (now - since) % CLOCK_PERIOD
  }

  /** The reading of a 32-bit millisecond clock `ms` milliseconds later. */
  function Later(clock: uint32, ms: nat): uint32 {
    (clock + ms) % CLOCK_PERIOD
  }

  /** The 32-bit difference is the true elapsed time, across any number of clock wraps,
      as long as the true time is below one clock period. */
  lemma ElapsedIsExact(start: nat, ms: nat)
    requires ms < CLOCK_PERIOD
    ensures Elapsed((start + ms) % CLOCK_PERIOD, start % CLOCK_PERIOD) == ms
  {
    var q0, q1 := start / CLOCK_PERIOD, (start + ms) / CLOCK_PERIOD;
    assert (start + ms) % CLOCK_PERIOD - start % CLOCK_PERIOD == ms - (q1 - q0) * CLOCK_PERIOD;
    assert q1 == q0 || q1 == q0 + 1;
  }

  /** Waiting `ms` more adds exactly `ms` to the measured time, until the measurement itself wraps. */
  lemma ElapsedAdvances(clock: uint32, since: uint32, ms: nat)
    requires Elapsed(clock, since) + ms < CLOCK_PERIOD
    ensures Elapsed(Later(clock, ms), since) == Elapsed(clock, since) + ms
  {
    var e := Elapsed(clock, since);
    ElapsedReaches(clock, since);
    ElapsedIsExact(since, e + ms);
    if since + e != clock { PeriodIsNothing(clock + ms); }
  }

  lemma ElapsedReaches(clock: uint32, since: uint32)
    ensures since + Elapsed(clock, since) == clock || since + Elapsed(clock, since) == clock + CLOCK_PERIOD
  {
  }

  lemma PeriodIsNothing(t: nat)
    ensures (t + CLOCK_PERIOD) % CLOCK_PERIOD == t % CLOCK_PERIOD
  {
  }

  /** `bytes` written over `s` from position `at` on: what a memcpy into a buffer leaves there. */
  function Patch(s: seq<byte>, at: nat, bytes: seq<byte>): (r: seq<byte>)
    requires at + |bytes| <= |s|
    ensures |r| == |s|
  {
    s[..at] + bytes + s[at + |bytes|..]
  }

  /** Two adjacent writes are one. */
  lemma PatchTwice(s: seq<byte>, at: nat, a: seq<byte>, b: seq<byte>)
    requires at + |a| + |b| <= |s|
    ensures Patch(Patch(s, at, a), at + |a|, b) == Patch(s, at, a + b)
  {
  }

  lemma PatchOne(s: seq<byte>, at: nat, b: byte)
    requires at < |s|
    ensures s[at := b] == Patch(s, at, [b])
  {
  }

  method MemCpy(dst: array<byte>, at: nat, src: array<byte>, from: nat, n: nat)
    requires dst != src && at + n <= dst.Length && from + n <= src.Length
    modifies dst
    ensures dst[..] == Patch(old(dst[..]), at, src[from..from + n])
  {
    forall i | 0 <= i < n { dst[at + i] := src[from + i]; }
  }

  method WriteBytes(dst: array<byte>, at: nat, bytes: seq<byte>)
    requires at + |bytes| <= dst.Length
    modifies dst
    ensures dst[..] == Patch(old(dst[..]), at, bytes)
  {
    forall i | 0 <= i < |bytes| { dst[at + i] := bytes[i]; }
  }
}
