/** The edge-triggered jump / hover state machine. `Player.HandleJump` in the player package
    and the jump half of `handleInput` in the main package run the same transition, on
    `(VY, isJumping, jumpStarted)` and on `(vY, isJumping, jumpPressed)` respectively. */
module Jump {

  /** The part of the player the transition reads and writes. `latched` remembers that the
      jump key was already down on the previous call (`jumpStarted` / `jumpPressed`). */
  datatype JumpState = JumpState(vY: real, isJumping: bool, latched: bool)

  function Max(a: real, b: real): real {
    if a < b then b else a
  }

  /** One call with the jump key `keyDown`. Screen coordinates grow downwards, so a jump
      gives a negative vertical velocity. */
  function Transition(s: JumpState, onFloor: bool, keyDown: bool,
                      jumpSpeed: real, hoverSpeed: real): (r: JumpState)
    ensures r.latched == keyDown
    ensures jumpSpeed > 0.0 && r.isJumping ==> r.vY < 0.0
    ensures !keyDown ==> !r.isJumping && r.vY >= s.vY
  {
    // a non-negative velocity ends any jump first
    var jumping := s.isJumping && !(s.vY >= 0.0);
    if keyDown then
      if !s.latched && onFloor then JumpState(-jumpSpeed, true, true)
      else JumpState(s.vY, jumping, true)
    else
      var vY := if jumping && s.vY < -hoverSpeed then -hoverSpeed else s.vY;
      JumpState(vY, false, false)
  }

  /** A jump starts only on a released-to-pressed edge of the key while on the floor;
      otherwise pressing the key leaves the vertical velocity alone. */
  lemma JumpOnlyOnEdgeFromFloor(s: JumpState, onFloor: bool, jumpSpeed: real, hoverSpeed: real)
    ensures var r := Transition(s, onFloor, true, jumpSpeed, hoverSpeed);
            if !s.latched && onFloor then r.vY == -jumpSpeed && r.isJumping
            else r.vY == s.vY && r.isJumping == (s.isJumping && s.vY < 0.0)
  {
  }

  /** Holding the key never starts a second jump, whatever the floor says on the next call. */
  lemma HoldingNeverRetriggers(s: JumpState, floor1: bool, floor2: bool,
                               jumpSpeed: real, hoverSpeed: real)
    ensures var r1 := Transition(s, floor1, true, jumpSpeed, hoverSpeed);
            var r2 := Transition(r1, floor2, true, jumpSpeed, hoverSpeed);
            r2.vY == r1.vY && (r2.isJumping ==> r1.isJumping)
  {
  }

  /** Releasing the key during a jump caps the upward speed at the hover speed; otherwise it
      leaves the velocity alone. Either way the jump is over and the latch is released. */
  lemma ReleaseCapsRise(s: JumpState, onFloor: bool, jumpSpeed: real, hoverSpeed: real)
    ensures var r := Transition(s, onFloor, false, jumpSpeed, hoverSpeed);
            !r.isJumping && !r.latched &&
            (s.isJumping && s.vY < 0.0 ==> r.vY == Max(s.vY, -hoverSpeed)) &&
            (!(s.isJumping && s.vY < 0.0) ==> r.vY == s.vY)
  {
  }

  /** A tap: pressing on the floor and releasing at once leaves the player rising at exactly
      the hover speed, when that is slower than the jump speed. */
  lemma TapGivesHoverSpeed(s: JumpState, floor2: bool, jumpSpeed: real, hoverSpeed: real)
    requires !s.latched && 0.0 <= hoverSpeed < jumpSpeed
    ensures var r1 := Transition(s, true, true, jumpSpeed, hoverSpeed);
            Transition(r1, floor2, false, jumpSpeed, hoverSpeed).vY == -hoverSpeed
  {
  }
}
