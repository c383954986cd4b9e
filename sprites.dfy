/** The frame counter of an animated sprite strip (the sprites package). The image itself is
    opaque: the model keeps only the numbers the counter and the sub-rectangle use. */
module Sprites {

  function Abs(a: int): nat {
    if a < 0 then -a else a
  }

  /** Go's integer `/`, which truncates toward zero (Dafny's `/` is Euclidean). */
  function GoDiv(a: int, b: int): int
    requires b != 0
  {
    var q := Abs(a) / Abs(b);
    if (a < 0) == (b < 0) then q else -q
  }

  /** Go's integer `%`: the remainder that goes with `GoDiv`. */
  function GoRem(a: int, b: int): int
    requires b != 0
  {
    a - b * GoDiv(a, b)
  }

  lemma MulMonotone(b: int, x: int, y: int)
    requires b >= 0 && x <= y
    ensures b * x <= b * y
  {
    assert b * y - b * x == b * (y - x);
  }

  /** Euclidean quotient and remainder are determined by `a == b * q + m, 0 <= m < b`. */
  lemma DivModUnique(a: int, b: int, q: int, m: int)
    requires b > 0 && 0 <= m < b && a == b * q + m
    ensures q == a / b && m == a % b
  {
    var q1, m1 := a / b, a % b;
    assert a == b * q1 + m1;
    if q < q1 {
      MulMonotone(b, q + 1, q1);
    } else if q1 < q {
      MulMonotone(b, q1 + 1, q);
    }
  }

  /** Go's quotient truncates: the remainder is smaller than the divisor in magnitude and is
      either zero or has the sign of the dividend. */
  lemma GoDivTruncates(a: int, b: int)
    requires b != 0
    ensures Abs(GoRem(a, b)) < Abs(b)
    ensures GoRem(a, b) == 0 || (GoRem(a, b) < 0 <==> a < 0)
  {
    var A: int, B: int := Abs(a), Abs(b);
    var q0: int, m: int := A / B, A % B;
    assert A == B * q0 + m && 0 <= m < B;
    if a >= 0 && b > 0 {
      assert GoRem(a, b) == m;
    } else if a < 0 && b < 0 {
      assert b * q0 == -(B * q0);
      assert GoRem(a, b) == -m;
    } else if a >= 0 {
      assert b * -q0 == B * q0;
      assert GoRem(a, b) == m;
    } else {
      assert b * -q0 == -(B * q0);
      assert GoRem(a, b) == -m;
    }
  }

  /** On a non-negative dividend and a positive divisor Go agrees with Dafny. */
  lemma GoAgreesWhenNonNegative(a: int, b: int)
    requires a >= 0 && b > 0
    ensures GoDiv(a, b) == a / b && GoRem(a, b) == a % b
  {
    assert a == b * (a / b) + a % b;
  }

  /** Go's quotient of a non-negative width by a positive frame width is the number of whole
      frames that fit. */
  lemma QuotientBrackets(imageWidth: int, frameWidth: int)
    requires frameWidth != 0
    ensures imageWidth >= 0 && frameWidth > 0 ==>
              var n := GoDiv(imageWidth, frameWidth);
              n >= 0 && n * frameWidth <= imageWidth < (n + 1) * frameWidth
  {
    if imageWidth >= 0 && frameWidth > 0 {
      GoAgreesWhenNonNegative(imageWidth, frameWidth);
      var n := imageWidth / frameWidth;
      assert imageWidth == frameWidth * n + imageWidth % frameWidth;
      assert n >= 0 by {
        if n < 0 {
          MulMonotone(frameWidth, n, -1);
        }
      }
      assert (n + 1) * frameWidth == n * frameWidth + frameWidth;
    }
  }

  /** `loadSprite`: the number of whole frames in a strip `imageWidth` pixels wide. */
  function FrameCount(imageWidth: int, frameWidth: int): (n: int)
    requires frameWidth != 0
    ensures imageWidth >= 0 && frameWidth > 0 ==>
              n >= 0 && n * frameWidth <= imageWidth < (n + 1) * frameWidth
  {
    QuotientBrackets(imageWidth, frameWidth);
    GoDiv(imageWidth, frameWidth)
  }

  /** Go's remainder of `frame + 1` by a positive period wraps to 0 at the period and stays
      in `[0, period)` for a non-negative dividend. */
  lemma RemainderWraps(frame: int, period: int)
    requires period != 0
    ensures 0 <= frame + 1 <= period ==>
              GoRem(frame + 1, period) == (if frame + 1 == period then 0 else frame + 1)
    ensures 0 <= frame + 1 && period > 0 ==> 0 <= GoRem(frame + 1, period) < period
  {
    if 0 <= frame + 1 && period > 0 {
      GoAgreesWhenNonNegative(frame + 1, period);
      if frame + 1 < period {
        DivModUnique(frame + 1, period, 0, frame + 1);
      } else if frame + 1 == period {
        DivModUnique(frame + 1, period, 1, 0);
      }
    }
  }

  /** The counter update of `GetFrame`: one step of a counter modulo `period`. */
  function NextFrame(frame: int, period: int): (f: int)
    requires period != 0
    ensures 0 <= frame + 1 <= period ==> f == (if frame + 1 == period then 0 else frame + 1)
    ensures 0 <= frame + 1 && period > 0 ==> 0 <= f < period
  {
    RemainderWraps(frame, period);
    GoRem(frame + 1, period)
  }

  /** The strip frame shown for counter value `frame`. */
  function FrameIndex(frame: int, frameDuration: int): int
    requires frameDuration != 0
  {
    GoDiv(frame, frameDuration)
  }

  /** The integer rectangle of Go's `image.Rect`, which swaps coordinates as needed so
      that its minimum corner is no greater than its maximum corner. */
  datatype Bounds = Bounds(x0: int, y0: int, x1: int, y1: int)

  function ImageRect(x0: int, y0: int, x1: int, y1: int): (b: Bounds)
    ensures b.x0 <= b.x1 && b.y0 <= b.y1
    ensures {b.x0, b.x1} == {x0, x1} && {b.y0, b.y1} == {y0, y1}
  {
    Bounds(if x0 <= x1 then x0 else x1, if y0 <= y1 then y0 else y1,
           if x0 <= x1 then x1 else x0, if y0 <= y1 then y1 else y0)
  }

  /** The sub-rectangle of the strip that `GetFrame` cuts out for counter value `frame`. */
  function FrameRect(frame: int, frameDuration: int, frameWidth: int, imageHeight: int): (b: Bounds)
    requires frameDuration != 0
    ensures b.x1 - b.x0 == Abs(frameWidth) && b.y1 - b.y0 == Abs(imageHeight)
    ensures b.x0 == frameWidth * FrameIndex(frame, frameDuration) || b.x1 == frameWidth * FrameIndex(frame, frameDuration)
  {
    var offset := frameWidth * FrameIndex(frame, frameDuration);
    ImageRect(offset, 0, offset + frameWidth, imageHeight)
  }

  class Sprite {
    var frame: int
    const frames: int
    const frameDuration: int
    const frameWidth: int
    /** `image.Bounds().Max.Y`, the one number `GetFrame` reads from the image. */
    const imageHeight: int

    /** `loadSprite`, given the decoded image's size; decoding is not modelled. Go's division
        panics when `frameWidth` is 0. */
    constructor LoadSprite(imageWidth: int, imageHeight: int, frameWidth: int, frameDuration: int)
      requires frameWidth != 0
      ensures frame == 0 && frames == FrameCount(imageWidth, frameWidth)
      ensures this.frameWidth == frameWidth && this.frameDuration == frameDuration
      ensures this.imageHeight == imageHeight
    {
      frame := 0;
      frames := FrameCount(imageWidth, frameWidth);
      this.frameDuration := frameDuration;
      this.frameWidth := frameWidth;
      this.imageHeight := imageHeight;
    }

    /** Advances the counter and returns the rectangle handed to `SubImage`. Go's `%` panics
        when `frameDuration * frames` is 0 (for instance a strip narrower than one frame). */
    method GetFrame() returns (r: Bounds)
      requires frameDuration * frames != 0
      modifies this
      ensures frame == NextFrame(old(frame), frameDuration * frames)
      ensures old(frame) >= 0 ==> 0 <= frame < Abs(frameDuration * frames)
      ensures r == FrameRect(frame, frameDuration, frameWidth, imageHeight)
    {
      frame := GoRem(frame + 1, frameDuration * frames);
      var offset := frameWidth * GoDiv(frame, frameDuration);
      r := ImageRect(offset, 0, offset + frameWidth, imageHeight);
    }
  }

  /** The counter after `n` calls of `GetFrame`. */
  function FramesAfter(frame: int, period: int, n: nat): int
    requires period != 0
  {
    if n == 0 then frame else NextFrame(FramesAfter(frame, period, n - 1), period)
  }

  /** `n` calls advance an in-range counter by `n` modulo the period. */
  lemma {:induction false} FramesAfterIsShift(frame: int, period: int, n: nat)
    requires 0 <= frame < period
    ensures FramesAfter(frame, period, n) == (frame + n) % period
  {
    if n == 0 {
      DivModUnique(frame, period, 0, frame);
    } else {
      FramesAfterIsShift(frame, period, n - 1);
      ModStep(frame + n - 1, period);
    }
  }

  /** Adding one to a number adds one to its remainder, wrapping at the divisor. */
  lemma ModStep(x: int, p: int)
    requires p > 0
    ensures (x + 1) % p == if x % p + 1 == p then 0 else x % p + 1
  {
    var k, g := x / p, x % p;
    assert x == p * k + g && 0 <= g < p;
    if g + 1 < p {
      DivModUnique(x + 1, p, k, g + 1);
    } else {
      assert p * (k + 1) == p * k + p;
      DivModUnique(x + 1, p, k + 1, 0);
    }
  }

  /** After one full period of calls the counter is back where it started. */
  lemma CounterCycles(frame: int, period: int)
    requires 0 <= frame < period
    ensures FramesAfter(frame, period, period) == frame
  {
    FramesAfterIsShift(frame, period, period);
    DivModUnique(frame + period, period, 1, frame);
  }

  /** Splits an in-range counter into its block `k < frames` and its place `m` in the block. */
  lemma BlockOf(frame: int, frames: int, frameDuration: int) returns (k: int, m: int)
    requires frames >= 1 && frameDuration >= 1
    requires 0 <= frame < frames * frameDuration
    ensures frame == frameDuration * k + m && 0 <= m < frameDuration && 0 <= k < frames
    ensures FrameIndex(frame, frameDuration) == k && frame % frameDuration == m
  {
    GoAgreesWhenNonNegative(frame, frameDuration);
    k, m := frame / frameDuration, frame % frameDuration;
    assert frame == frameDuration * k + m;
    if k < 0 {
      MulMonotone(frameDuration, k, -1);
    }
    if k >= frames {
      MulMonotone(frameDuration, frames, k);
    }
  }

  /** For a counter in range, the sub-rectangle starts at a multiple of the frame width and
      lies inside the strip of `frames` frames. */
  lemma OffsetInStrip(frame: int, frames: int, frameDuration: int, frameWidth: int, imageHeight: int)
    requires frames >= 1 && frameDuration >= 1 && frameWidth >= 1 && imageHeight >= 0
    requires 0 <= frame < frames * frameDuration
    ensures var b := FrameRect(frame, frameDuration, frameWidth, imageHeight);
            b.x0 % frameWidth == 0 && 0 <= b.x0 && b.x1 == b.x0 + frameWidth &&
            b.x1 <= frames * frameWidth && b.y0 == 0 && b.y1 == imageHeight
  {
    var k, m := BlockOf(frame, frames, frameDuration);
    MulMonotone(frameWidth, 0, k);
    MulMonotone(frameWidth, k + 1, frames);
    DivModUnique(frameWidth * k, frameWidth, k, 0);
    assert frameWidth * (k + 1) == frameWidth * k + frameWidth;
  }

  /** The shown frame changes only on a step that lands on the first counter value of a
      frame's block of `frameDuration` values. */
  lemma IndexChangesOnlyAtBlockStart(frame: int, frames: int, frameDuration: int)
    requires frames >= 1 && frameDuration >= 1
    requires 0 <= frame < frames * frameDuration
    ensures var next := NextFrame(frame, frameDuration * frames);
            FrameIndex(next, frameDuration) != FrameIndex(frame, frameDuration) ==>
              next % frameDuration == 0
  {
    var next := NextFrame(frame, frameDuration * frames);
    var k, m := BlockOf(frame, frames, frameDuration);
    if next != 0 {
      assert next == frame + 1;
      GoAgreesWhenNonNegative(next, frameDuration);
      if m + 1 < frameDuration {
        DivModUnique(next, frameDuration, k, m + 1);
      } else {
        DivModUnique(next, frameDuration, k + 1, 0);
      }
    }
  }

  /** Starting from a block start, the shown frame stays the same for `frameDuration`
      calls: together with the lemma above, the shown frame changes at most once every
      `frameDuration` calls. */
  lemma IndexStableWithinBlock(start: int, frames: int, frameDuration: int, j: nat)
    requires frames >= 1 && frameDuration >= 1
    requires 0 <= start < frames * frameDuration && start % frameDuration == 0
    requires j < frameDuration
    ensures FrameIndex(FramesAfter(start, frameDuration * frames, j), frameDuration)
            == FrameIndex(start, frameDuration)
  {
    var p := frameDuration * frames;
    FramesAfterIsShift(start, p, j);
    var k, m := BlockOf(start, frames, frameDuration);
    MulMonotone(frameDuration, k + 1, frames);
    assert start + j < frameDuration * (k + 1);
    DivModUnique(start + j, p, 0, start + j);
    GoAgreesWhenNonNegative(start + j, frameDuration);
    DivModUnique(start + j, frameDuration, k, j);
  }
}
