/** The player record of the player package: a visual rectangle, a velocity, the jump state
    and a cumulative squash factor that also scales the hitbox margins. */
module Player {
  import opened Rectangle
  import Jump

  /** `math.Ceil`, written through `Floor`: the least integer not below `x`. */
  function Ceil(x: real): (c: int)
    ensures x <= c as real < x + 1.0
  {
    -((-x).Floor)
  }

  function Pow(b: real, n: nat): real {
    if n == 0 then 1.0 else Pow(b, n - 1) * b
  }

  class Player {
    var VX: real
    var VY: real
    var rect: Rect
    var IsOnFloor: bool
    var isJumping: bool
    var jumpStarted: bool
    var scaling: real

    // Tunables: set by New and never written by the package.
    const Friction: real
    const Acceleration: real
    const MaxVX: real
    const TerminalVelocityY: real
    const jumpSpeed: real
    const jumpHoverSpeed: real
    const scalingFactorOnHit: real
    const marginTop: real
    const marginLeft: real
    const marginBottom: real
    const marginRight: real

    constructor New()
      ensures VX == 0.0 && VY == 0.0 && rect == Make(0.0, 0.0, 32.0, 32.0)
      ensures !IsOnFloor && !isJumping && !jumpStarted
      ensures scaling == 1.0 && scalingFactorOnHit == 0.9
      ensures Friction == 0.08 && Acceleration == 0.3 && MaxVX == 5.0 && TerminalVelocityY == 9.0
      ensures jumpSpeed == 12.0 && jumpHoverSpeed == 3.0
      ensures marginTop == 6.0 && marginLeft == 6.0 && marginRight == 6.0 && marginBottom == 0.0
    {
      VX, VY := 0.0, 0.0;
      rect := Make(0.0, 0.0, 32.0, 32.0);
      IsOnFloor, isJumping, jumpStarted := false, false, false;
      Friction, Acceleration, MaxVX, TerminalVelocityY := 0.08, 0.3, 5.0, 9.0;
      jumpSpeed, jumpHoverSpeed := 12.0, 3.0;
      scaling, scalingFactorOnHit := 1.0, 0.9;
      marginTop, marginLeft, marginRight, marginBottom := 6.0, 6.0, 6.0, 0.0;
    }

    /** A margin as the hitbox uses it: scaled by the squash factor and rounded up. */
    function Margin(m: real): real
      reads this`scaling
    {
      Ceil(m * scaling) as real
    }

    /** `rect` shrunk by the four scaled margins. */
    function Hitbox(): (hb: Rect)
      reads this`rect, this`scaling
      ensures hb.Width() == rect.Width() - Margin(marginLeft) - Margin(marginRight)
      ensures hb.Height() == rect.Height() - Margin(marginTop) - Margin(marginBottom)
      ensures scaling >= 0.0 && marginLeft >= 0.0 && marginTop >= 0.0 &&
              marginRight >= 0.0 && marginBottom >= 0.0 ==>
                rect.min.x <= hb.min.x && hb.max.x <= rect.max.x &&
                rect.min.y <= hb.min.y && hb.max.y <= rect.max.y
    {
      Make(rect.min.x + Margin(marginLeft), rect.min.y + Margin(marginTop),
           rect.max.x - Margin(marginRight), rect.max.y - Margin(marginBottom))
    }

    method SetLeft(x: real)
      modifies this`rect
      ensures Hitbox().min.x == x
      ensures rect.Width() == old(rect.Width())
      ensures rect.min.y == old(rect.min.y) && rect.max.y == old(rect.max.y)
    {
      rect := rect.SetLeft(x - Margin(marginLeft));
    }

    method SetRight(x: real)
      modifies this`rect
      ensures Hitbox().max.x == x
      ensures rect.Width() == old(rect.Width())
      ensures rect.min.y == old(rect.min.y) && rect.max.y == old(rect.max.y)
    {
      rect := rect.SetRight(x + Margin(marginRight));
    }

    method SetTop(y: real)
      modifies this`rect
      ensures Hitbox().min.y == y
      ensures rect.Height() == old(rect.Height())
      ensures rect.min.x == old(rect.min.x) && rect.max.x == old(rect.max.x)
    {
      rect := rect.SetTop(y - Margin(marginTop));
    }

    /** Unlike the other three setters this one subtracts the margin, so the hitbox bottom
        lands at `y` only when the scaled bottom margin rounds up to 0. */
    method SetBottom(y: real)
      modifies this`rect
      ensures Hitbox().max.y == y - 2.0 * Margin(marginBottom)
      ensures Hitbox().max.y == y <==> Ceil(marginBottom * scaling) == 0
      ensures rect.Height() == old(rect.Height())
      ensures rect.min.x == old(rect.min.x) && rect.max.x == old(rect.max.x)
    {
      var m := Margin(marginBottom);
      rect := rect.SetBottom(y - m);
      assert Hitbox().max.y == rect.max.y - m;
    }

    method MoveX(dX: real)
      modifies this`rect
      ensures rect.min.x == old(rect.min.x) + dX
      ensures rect.Width() == old(rect.Width()) && rect.Height() == old(rect.Height())
      ensures rect.min.y == old(rect.min.y)
    {
      rect := rect.MoveX(dX);
    }

    method MoveY(dY: real)
      modifies this`rect
      ensures rect.min.y == old(rect.min.y) + dY
      ensures rect.Width() == old(rect.Width()) && rect.Height() == old(rect.Height())
      ensures rect.min.x == old(rect.min.x)
    {
      rect := rect.MoveY(dY);
    }

    /** Runs the jump state machine; `VX`, `rect` and the floor flag are left alone. */
    method HandleJump(jumpKeyDown: bool)
      modifies this`VY, this`isJumping, this`jumpStarted
      ensures Jump.JumpState(VY, isJumping, jumpStarted)
           == Jump.Transition(Jump.JumpState(old(VY), old(isJumping), old(jumpStarted)),
                              IsOnFloor, jumpKeyDown, jumpSpeed, jumpHoverSpeed)
    {
      if VY >= 0.0 {
        isJumping := false;
      }
      if jumpKeyDown {
        if !jumpStarted {
          jumpStarted := true;
          if IsOnFloor {
            VY := -jumpSpeed;
            isJumping := true;
          }
        }
      } else {
        jumpStarted := false;
        if isJumping && VY < -jumpHoverSpeed {
          VY := -jumpHoverSpeed;
        }
        isJumping := false;
      }
    }

    /** One squash: the rectangle shrinks by the on-hit factor and so does `scaling`. */
    method Scale()
      modifies this`rect, this`scaling
      ensures rect == old(rect).Scale(scalingFactorOnHit)
      ensures scaling == old(scaling) * scalingFactorOnHit
    {
      rect := rect.Scale(scalingFactorOnHit);
      scaling := scaling * scalingFactorOnHit;
    }
  }

  /** What `Scale` changes: the rectangle and the cumulative scaling. */
  datatype Squash = Squash(rect: Rect, scaling: real)

  /** The rectangle and scaling after `n` calls of `Scale` with factor `f`. */
  function Squashes(start: Squash, f: real, n: nat): (r: Squash)
    ensures r.rect.max.y == start.rect.max.y
    ensures r.rect.min.x + r.rect.max.x == start.rect.min.x + start.rect.max.x
  {
    if n == 0 then start
    else
      var prev := Squashes(start, f, n - 1);
      Squash(prev.rect.Scale(f), prev.scaling * f)
  }

  /** `n` squashes are one squash by `f` to the power `n`. */
  lemma {:induction false} SquashesCompose(start: Squash, f: real, n: nat)
    ensures Squashes(start, f, n) == Squash(start.rect.Scale(Pow(f, n)), start.scaling * Pow(f, n))
  {
    if n == 0 {
      ScaleOneIsIdentity(start.rect);
    } else {
      SquashesCompose(start, f, n - 1);
      var p, q := Pow(f, n - 1), Pow(f, n);
      PowStep(f, n);
      ScaleCompose(start.rect, p, f);
      assert (start.scaling * p) * f == start.scaling * q;
    }
  }

  lemma PowStep(b: real, n: nat)
    requires n > 0
    ensures Pow(b, n) == Pow(b, n - 1) * b
  {
  }

  lemma {:induction false} PowInUnit(b: real, n: nat)
    requires 0.0 <= b <= 1.0
    ensures 0.0 <= Pow(b, n) <= 1.0
  {
    if n > 0 {
      PowInUnit(b, n - 1);
      assert Pow(b, n - 1) * b <= Pow(b, n - 1) * 1.0;
    }
  }

  /** From the state `New` sets up, `n` squashes leave `scaling == 0.9^n` and the 32x32
      rectangle scaled by `0.9^n`, still well-formed and with its bottom edge at 32. */
  lemma SquashesFromNew(n: nat)
    ensures var Squash(r, s) := Squashes(Squash(Make(0.0, 0.0, 32.0, 32.0), 1.0), 0.9, n);
            s == Pow(0.9, n) && r == Make(0.0, 0.0, 32.0, 32.0).Scale(Pow(0.9, n)) &&
            r.Valid() && r.max.y == 32.0 && r.Width() == 32.0 * Pow(0.9, n)
  {
    var r0 := Make(0.0, 0.0, 32.0, 32.0);
    SquashesCompose(Squash(r0, 1.0), 0.9, n);
    PowInUnit(0.9, n);
    ScaleKeepsValid(r0, Pow(0.9, n));
  }
}
