// The arithmetic of the checkpoint store and of the rewind controller
// (CheckpointPlugin.cpp): the checkpoint cursor, the history ring, the input
// mask that ends rewind mode, the hold-to-accelerate factor, the clamped
// playhead offset and the history index it selects.  Floats are exact reals;
// `size_t` arithmetic is written out modulo 2^64.
module Rewind {
  import opened State

  // ---------------------------------------------------------------------
  // Machine arithmetic.

  const SizeTModulus: int := 0x1_0000_0000_0000_0000

  /** Conversion to `size_t` (wraps, as a negative value converted on x64). */
  function SizeT(x: int): (r: int)
    ensures 0 <= r < SizeTModulus
  {
    x % SizeTModulus
  }

  /** x wraps to r when it is r plus a multiple of 2^64. */
  lemma SizeTOf(x: int, q: int, r: int)
    requires x == q * SizeTModulus + r && 0 <= r < SizeTModulus
    ensures SizeT(x) == r
  {
  }

  /** Euclidean remainders are unique. */
  lemma ModOf(x: int, n: int, q: int, r: int)
    requires 0 < n && x == q * n + r && 0 <= r < n
    ensures x % n == r
  {
    var q', r' := x / n, x % n;
    assert (q - q') * n == r' - r;
    if q > q' {
      MulAtLeast(q - q', n);
    } else if q < q' {
      MulAtLeast(q' - q, n);
    }
  }

  lemma DivModOf(x: int, n: int)
    requires 0 < n
    ensures x == (x / n) * n + x % n && 0 <= x % n < n
  {
  }

  lemma MulAtLeast(a: int, n: int)
    requires 1 <= a && 0 < n
    ensures n <= a * n
  {
  }

  /** Wrapping never makes a non-negative value larger. */
  lemma SizeTAtMost(x: int)
    requires 0 <= x
    ensures SizeT(x) <= x
  {
    DivModOf(x, SizeTModulus);
  }

  function Floor(x: real): int { x.Floor }

  function Ceil(x: real): int { -((-x).Floor) }

  function Abs(x: real): real { if x < 0.0 then -x else x }

  function MinReal(a: real, b: real): real { if b < a then b else a }

  function MinInt(a: int, b: int): int { if b < a then b else a }

  /** std::clamp(v, lo, hi). */
  function Clamp(v: real, lo: real, hi: real): real {
    if v < lo then lo else if hi < v then hi else v
  }

  function ClampInt(v: int, lo: int, hi: int): int {
    if v < lo then lo else if hi < v then hi else v
  }

  lemma ClampBounds(v: real, lo: real, hi: real)
    requires lo <= hi
    ensures lo <= Clamp(v, lo, hi) <= hi
    ensures lo <= v <= hi ==> Clamp(v, lo, hi) == v
  {
  }

  // ---------------------------------------------------------------------
  // The checkpoint cursor.

  /** cpt_next_checkpoint: one forward, wrapping to the first. */
  function NextIndex(cur: nat, n: nat): nat {
    if cur + 1 == n then 0 else cur + 1
  }

  /** cpt_prev_checkpoint: one back, wrapping from the first to the last. */
  function PrevIndex(cur: nat, n: nat): nat
    requires 0 < n
  {
    if cur == 0 then n - 1 else cur - 1
  }

  /** Next and previous stay among the checkpoints and undo each other. */
  lemma NextPrevInverse(cur: nat, n: nat)
    requires cur < n
    ensures NextIndex(cur, n) < n && PrevIndex(cur, n) < n
    ensures PrevIndex(NextIndex(cur, n), n) == cur
    ensures NextIndex(PrevIndex(cur, n), n) == cur
  {
  }

  function NextTimes(cur: nat, n: nat, k: nat): nat {
    if k == 0 then cur else NextIndex(NextTimes(cur, n, k - 1), n)
  }

  /** One step round the ring is one more modulo n. */
  lemma ModNext(x: int, n: int)
    requires 0 < n
    ensures (x + 1) % n == if x % n + 1 == n then 0 else x % n + 1
  {
    DivModOf(x, n);
    if x % n + 1 == n {
      ModOf(x + 1, n, x / n + 1, 0);
    } else {
      ModOf(x + 1, n, x / n, x % n + 1);
    }
  }

  /** k presses of next move k places round the ring ... */
  lemma {:induction false} NextTimesIsRotation(cur: nat, n: nat, k: nat)
    requires cur < n
    ensures NextTimes(cur, n, k) == (cur + k) % n
  {
    if k == 0 {
      ModOf(cur, n, 0, cur);
    } else {
      NextTimesIsRotation(cur, n, k - 1);
      ModNext(cur + k - 1, n);
    }
  }

  /** ... so n presses on n checkpoints come back to the start. */
  lemma NextRoundTrip(cur: nat, n: nat)
    requires cur < n
    ensures NextTimes(cur, n, n) == cur
  {
    NextTimesIsRotation(cur, n, n);
    ModOf(cur + n, n, 1, cur);
  }

  /** The cursor after erasing the checkpoint at it: std::min(cur, size - 1),
      where `size - 1` wraps when nothing is left. */
  function CursorAfterDelete(cur: nat, newSize: nat): nat {
    MinInt(cur, SizeT(newSize - 1))
  }

  /** With checkpoints left the cursor moves back only if it was past the end;
      with none left it stays put. */
  lemma CursorAfterDeleteInRange(cur: nat, newSize: nat)
    requires cur <= newSize < SizeTModulus
    ensures newSize > 0 ==> CursorAfterDelete(cur, newSize) == MinInt(cur, newSize - 1) < newSize
    ensures newSize == 0 ==> CursorAfterDelete(cur, newSize) == cur
  {
    if newSize == 0 {
      SizeTOf(-1, -1, SizeTModulus - 1);
    } else {
      SizeTOf(newSize - 1, 0, newSize - 1);
    }
  }

  /** vector::erase(begin() + i): the element at i removed. */
  function Erase(s: seq<GameState>, i: nat): seq<GameState>
    requires i < |s|
  {
    s[..i] + s[i + 1..]
  }

  /** Erasing removes exactly the element at i: the ones before it keep
      their places and the ones after it move down by one. */
  lemma EraseRule(s: seq<GameState>, i: nat)
    requires i < |s|
    ensures |Erase(s, i)| == |s| - 1
    ensures forall k :: 0 <= k < i ==> Erase(s, i)[k] == s[k]
    ensures forall k :: i <= k < |s| - 1 ==> Erase(s, i)[k] == s[k + 1]
  {
  }

  /** After erasing the element at the cursor, the cursor shows the element
      that followed the erased one, or the one before it when the last was
      erased; with nothing left it stays at 0. */
  lemma CursorShowsAfterErase(s: seq<GameState>, i: nat)
    requires i < |s| < SizeTModulus
    ensures var e, c := Erase(s, i), CursorAfterDelete(i, |s| - 1);
            (i < |s| - 1 ==> c == i && e[c] == s[i + 1])
            && (0 < i == |s| - 1 ==> c == i - 1 && e[c] == s[i - 1])
            && (|s| == 1 ==> c == i == 0 && e == [])
  {
    CursorAfterDeleteInRange(i, |s| - 1);
  }

  // ---------------------------------------------------------------------
  // The history buffer.

  /** record(): whether the elapsed time since the last sample is due; a
      negative elapsed time (the clock went back) counts as one interval. */
  function RecordDue(now: real, lastRecordTime: real, interval: real): bool {
    var elapsed := now - lastRecordTime;
    (if elapsed < 0.0 then interval else elapsed) >= interval
  }

  lemma RecordDueRule(now: real, lastRecordTime: real, interval: real)
    ensures now < lastRecordTime ==> RecordDue(now, lastRecordTime, interval)
    ensures lastRecordTime <= now ==> (RecordDue(now, lastRecordTime, interval) <==> now - lastRecordTime >= interval)
  {
  }

  /** record(): the sample is appended, and at capacity the oldest is erased first. */
  function Pushed(history: seq<GameState>, sample: GameState, cap: nat): seq<GameState> {
    if |history| == cap && cap > 0 then history[1..] + [sample] else history + [sample]
  }

  /** The buffer never outgrows its capacity, ends with the new sample, and
      keeps the older samples in order, dropping exactly the oldest at
      capacity. */
  lemma PushedRule(history: seq<GameState>, sample: GameState, cap: nat)
    requires 0 < cap && |history| <= cap
    ensures var h := Pushed(history, sample, cap);
            |h| <= cap && h[|h| - 1] == sample
            && (|history| < cap ==> h == history + [sample])
            && (|history| == cap ==> |h| == cap && h[..cap - 1] == history[1..])
  {
  }

  /** The history-length handler keeps the most recent `cap` samples. */
  function Trimmed(history: seq<GameState>, cap: nat): seq<GameState> {
    if |history| > cap then history[|history| - cap..] else history
  }

  lemma TrimmedRule(history: seq<GameState>, cap: nat)
    ensures var h := Trimmed(history, cap);
            |h| == MinInt(|history|, cap) && h == history[|history| - |h|..]
  {
  }

  // ---------------------------------------------------------------------
  // Leaving rewind mode.

  /** The controller input read on each rewind tick. */
  datatype Input = Input(throttle: real, roll: real, steer: real, handbrake: bool, jump: bool,
                         activateBoost: bool, holdingBoost: bool)

  function Flag(pressed: bool, bit: int): int { if pressed then bit else 0 }

  /** The seven controls that can end rewind mode, lowest bit first; steering
      counts only at a checkpoint or just after a quick checkpoint loaded. */
  function Pressed(i: Input, steerCounts: bool): (p: seq<bool>)
    ensures |p| == 7
  {
    [Abs(i.throttle) > 0.1, Abs(i.roll) > 0.1, i.handbrake, i.jump, i.activateBoost, i.holdingBoost,
     steerCounts && Abs(i.steer) >= 0.05]
  }

  /** The bitwise or of the flags 0x01 ... 0x40 of the pressed controls; the
      flags are distinct powers of two, so the or is their sum. */
  function ButtonMask(i: Input, steerCounts: bool): int {
    var p := Pressed(i, steerCounts);
    Flag(p[0], 0x01) + Flag(p[1], 0x02) + Flag(p[2], 0x04) + Flag(p[3], 0x08)
    + Flag(p[4], 0x10) + Flag(p[5], 0x20) + Flag(p[6], 0x40)
  }

  /** The mask lies in [0, 0x7f] and is zero exactly when nothing is pressed. */
  lemma MaskRange(i: Input, steerCounts: bool)
    ensures 0 <= ButtonMask(i, steerCounts) <= 0x7f
    ensures ButtonMask(i, steerCounts) == 0 <==> forall k :: 0 <= k < 7 ==> !Pressed(i, steerCounts)[k]
  {
    var p := Pressed(i, steerCounts);
    if ButtonMask(i, steerCounts) == 0 {
      forall k | 0 <= k < 7 ensures !p[k] {
      }
    }
  }

  /** Pressing more controls never lowers the mask, and pressing a new one
      raises it. */
  lemma MaskMonotone(a: Input, sa: bool, b: Input, sb: bool)
    requires forall k :: 0 <= k < 7 ==> Pressed(a, sa)[k] ==> Pressed(b, sb)[k]
    ensures ButtonMask(a, sa) <= ButtonMask(b, sb)
    ensures (exists k :: 0 <= k < 7 && Pressed(b, sb)[k] && !Pressed(a, sa)[k]) ==> ButtonMask(a, sa) < ButtonMask(b, sb)
  {
    var pa, pb := Pressed(a, sa), Pressed(b, sb);
    assert pa[0] ==> pb[0];
    assert pa[1] ==> pb[1];
    assert pa[2] ==> pb[2];
    assert pa[3] ==> pb[3];
    assert pa[4] ==> pb[4];
    assert pa[5] ==> pb[5];
    assert pa[6] ==> pb[6];
  }

  /** Rewind mode ends on a tick whose mask is non-zero and above the
      previous tick's, once more than 0.1 s has passed since the last sample. */
  function ShouldExit(mask: int, prevMask: int, now: real, lastRecordTime: real): bool {
    mask != 0 && mask > prevMask && now - lastRecordTime > 0.1
  }

  /** loadGameState stores 0x7f as the previous mask, which no mask exceeds:
      the first tick after a load never ends rewind mode. */
  lemma NoExitAfterLoad(i: Input, steerCounts: bool, now: real, lastRecordTime: real)
    ensures !ShouldExit(ButtonMask(i, steerCounts), 0x7f, now, lastRecordTime)
  {
    MaskRange(i, steerCounts);
  }

  /** The dodge deadline set on leaving rewind mode: a car that has jumped
      and still has its dodge loses it MaxDodgeTime after the jump. */
  function DodgeExpiration(car: CarState, now: real): real {
    if car.hasDodge && car.lastJumped != NotJumped then now + MaxDodgeTime - car.lastJumped else 0.0
  }

  // ---------------------------------------------------------------------
  // Moving the playhead.

  /** The rewind clock step: capped at 0.03 s. */
  function RewindElapsed(now: real, lastRewindTime: real): real {
    MinReal(now - lastRewindTime, 0.03)
  }

  /** `holdingFor` grows (in magnitude) while the stick stays past 0.95 in one
      direction, and resets otherwise. */
  function NextHold(hold: real, steer: real, elapsed: real): real {
    if steer < -0.95 && hold <= 0.0 then hold - elapsed
    else if steer > 0.95 && hold >= 0.0 then hold + elapsed
    else 0.0
  }

  lemma NextHoldRule(hold: real, steer: real, elapsed: real)
    requires 0.0 <= elapsed
    ensures var h := NextHold(hold, steer, elapsed);
            (steer < -0.95 && hold <= 0.0 ==> h <= 0.0 && Abs(h) == Abs(hold) + elapsed)
            && (steer > 0.95 && hold >= 0.0 ==> h >= 0.0 && Abs(h) == Abs(hold) + elapsed)
            && (!(steer < -0.95 && hold <= 0.0) && !(steer > 0.95 && hold >= 0.0) ==> h == 0.0)
  {
  }

  /** Speed-up from holding: twice the hold time, between 1 and 10. */
  function Factor(hold: real): (f: real)
    ensures 1.0 <= f <= 10.0
    ensures 1.0 <= Abs(hold) * 2.0 <= 10.0 ==> f == Abs(hold) * 2.0
  {
    Clamp(Abs(hold) * 2.0, 1.0, 10.0)
  }

  /** The virtual time offset after a step, kept within the recorded history. */
  function NextOffset(offset: real, factor: real, elapsed: real, steer: real, interval: real, size: nat): (o: real)
    requires 0.0 < interval
    ensures -interval * size as real <= o <= 0.0
  {
    Clamp(offset + factor * elapsed * steer, -interval * size as real, 0.0)
  }

  /** The history index played, as written: size + size_t(floor(offset /
      interval)), clamped in size_t to [0, size - 1]. */
  function PlayheadIndex(offset: real, interval: real, size: nat): int
    requires 0.0 < interval
  {
    var hi := SizeT(size - 1);
    var raw := SizeT(size + SizeT(Floor(offset / interval)));
    if raw < 0 then 0 else if hi < raw then hi else raw
  }

  lemma FloorBounds(offset: real, interval: real, size: nat)
    requires 0.0 < interval && -interval * size as real <= offset <= 0.0
    ensures -(size as int) <= Floor(offset / interval) <= 0
  {
    var ho := offset / interval;
    assert ho * interval == offset;
    assert ho <= 0.0;
    assert (ho + size as real) * interval == offset + interval * size as real;
    NonNegQuotient(ho + size as real, interval);
  }

  lemma NonNegQuotient(x: real, d: real)
    requires 0.0 < d && 0.0 <= x * d
    ensures 0.0 <= x
  {
  }

  /** For an offset within the history the played index is
      clamp(size + floor(offset / interval), 0, size - 1), a valid index. */
  lemma PlayheadInRange(offset: real, interval: real, size: nat)
    requires 0.0 < interval && 0 < size < SizeTModulus && -interval * size as real <= offset <= 0.0
    ensures PlayheadIndex(offset, interval, size) == ClampInt(size + Floor(offset / interval), 0, size - 1)
    ensures 0 <= PlayheadIndex(offset, interval, size) < size
  {
    var f := Floor(offset / interval);
    FloorBounds(offset, interval, size);
    SizeTOf(size - 1, 0, size - 1);
    if f < 0 {
      SizeTOf(f, -1, SizeTModulus + f);
      SizeTOf(size + SizeT(f), 1, size + f);
    } else {
      SizeTOf(f, 0, f);
      SizeTOf(size + f, 0, size + f);
    }
  }

  /** On a non-empty history the played index is valid whatever the offset,
      and so is the next one whenever the index is below size - 1 in size_t. */
  lemma PlayheadValid(offset: real, interval: real, size: nat)
    requires 0.0 < interval && 0 < size
    ensures 0 <= PlayheadIndex(offset, interval, size) < size
    ensures PlayheadIndex(offset, interval, size) < SizeT(size - 1) ==> PlayheadIndex(offset, interval, size) + 1 < size
  {
    SizeTAtMost(size - 1);
  }

  /** The weight of the older sample when the playhead falls between two. */
  function AdvancePct(offset: real, interval: real): (p: real)
    requires 0.0 < interval
    ensures 0.0 < p <= 1.0
  {
    var ho := offset / interval;
    1.0 - (ho - Floor(ho) as real)
  }

  // ---------------------------------------------------------------------
  // Deleting the future on leaving rewind mode.

  /** Where the history is cut, as written: size - 1 + size_t(ceil(offset /
      interval)), clamped in size_t to [0, size - 1]. */
  function TruncateIndexAsWritten(offset: real, interval: real, size: nat): int
    requires 0.0 < interval
  {
    var hi := SizeT(size - 1);
    var raw := SizeT(hi + SizeT(Ceil(offset / interval)));
    if raw < 0 then 0 else if hi < raw then hi else raw
  }

  /** The evidently intended cut, computed without wrap-around. */
  function TruncateIndex(offset: real, interval: real, size: nat): int
    requires 0.0 < interval
  {
    ClampInt(size - 1 + Ceil(offset / interval), 0, size - 1)
  }

  /** For a playhead at or before the present the intended cut lies within
      the history, even on an empty one. */
  lemma TruncateInRange(offset: real, interval: real, size: nat)
    requires 0.0 < interval && offset <= 0.0
    ensures 0 <= TruncateIndex(offset, interval, size) <= size
    ensures 0 < size ==> TruncateIndex(offset, interval, size) < size
  {
    var ho := offset / interval;
    assert ho * interval == offset;
    if ho > 0.0 {
      NonNegQuotient(-ho, interval);
    }
  }

  /** At the oldest sample (offset -interval * size) the written index wraps
      past zero and the clamp turns it into size - 1: with three samples the
      cut keeps two of them instead of none. */
  lemma TruncateAtOldestSample()
    ensures TruncateIndexAsWritten(-0.03, 0.01, 3) == 2
    ensures TruncateIndex(-0.03, 0.01, 3) == 0
  {
    assert -0.03 / 0.01 == -3.0;
    assert Ceil(-3.0) == -3;
    SizeTOf(2, 0, 2);
    SizeTOf(-3, -1, SizeTModulus - 3);
    SizeTOf(2 + (SizeTModulus - 3), 0, SizeTModulus - 1);
  }

  /** On a non-empty history the written cut is a valid index. */
  lemma TruncateAsWrittenInRange(offset: real, interval: real, size: nat)
    requires 0.0 < interval && 0 < size < SizeTModulus
    ensures 0 <= TruncateIndexAsWritten(offset, interval, size) < size
  {
    SizeTOf(size - 1, 0, size - 1);
  }

  /** With the playhead at the oldest sample (ceil(offset / interval) ==
      -size) the written sum wraps to SIZE_MAX and the clamp gives size - 1:
      the cut keeps every sample but the newest. */
  lemma TruncateAsWrittenAtOldest(offset: real, interval: real, size: nat)
    requires 0.0 < interval && 0 < size < SizeTModulus && Ceil(offset / interval) == -(size as int)
    ensures TruncateIndexAsWritten(offset, interval, size) == size - 1
  {
    SizeTOf(size - 1, 0, size - 1);
    SizeTOf(-(size as int), -1, SizeTModulus - size);
    SizeTOf(size - 1 + (SizeTModulus - size), 0, SizeTModulus - 1);
  }

  /** On an empty history size - 1 is SIZE_MAX, and the written cut lies past
      the end of the vector: history.begin() + current is out of range. */
  lemma TruncateAsWrittenOnEmpty(offset: real, interval: real)
    requires 0.0 < interval && -SizeTModulus + 1 < Ceil(offset / interval) <= 0
    ensures TruncateIndexAsWritten(offset, interval, 0) == SizeTModulus - 1 + Ceil(offset / interval) > 0
  {
    var c := Ceil(offset / interval);
    SizeTOf(-1, -1, SizeTModulus - 1);
    if c == 0 {
      SizeTOf(0, 0, 0);
      SizeTOf(SizeTModulus - 1, 0, SizeTModulus - 1);
    } else {
      SizeTOf(c, -1, SizeTModulus + c);
      SizeTOf(SizeTModulus - 1 + (SizeTModulus + c), 1, SizeTModulus - 1 + c);
    }
  }

  /** The intended cut is a valid index, and agrees with the written one
      whenever the playhead is not at the oldest sample. */
  lemma TruncateIndexRule(offset: real, interval: real, size: nat)
    requires 0.0 < interval && 0 < size < SizeTModulus && -interval * size as real <= offset <= 0.0
    ensures 0 <= TruncateIndex(offset, interval, size) < size
    ensures Ceil(offset / interval) > -(size as int)
            ==> TruncateIndexAsWritten(offset, interval, size) == TruncateIndex(offset, interval, size)
  {
    var x := offset / interval;
    FloorBounds(offset, interval, size);
    assert -x * interval == -offset;
    NonNegQuotient(-x, interval);
    assert 0 <= (-x).Floor;
    var c := Ceil(x);
    assert c <= 0;
    SizeTOf(size - 1, 0, size - 1);
    if c > -(size as int) && c < 0 {
      SizeTOf(c, -1, SizeTModulus + c);
      SizeTOf(size - 1 + SizeT(c), 1, size - 1 + c);
    } else if c == 0 {
      SizeTOf(0, 0, 0);
      SizeTOf(size - 1, 0, size - 1);
    }
  }

  /** On an empty history the written index is 0 and `0 < size - 1` holds in
      size_t, so the blend branch is taken and its first history.at(0) is out
      of range: at() throws std::out_of_range.  (Had the test failed, the
      history.at(current) of the other branch would throw as well.) */
  lemma PlayheadOnEmptyHistory()
    ensures PlayheadIndex(0.0, 0.01, 0) == 0 && 0 < SizeT(0 - 1)
  {
    assert 0.0 / 0.01 == 0.0;
    SizeTOf(-1, -1, SizeTModulus - 1);
    SizeTOf(0, 0, 0);
  }
}
