# Platformer movement and collision, in Dafny

A model of the movement-and-collision core of a small Go platformer:

- `rectangle.dfy` (module `Rectangle`): the generic axis-aligned rectangle value of
  `rectangle/rectangle.go` at the `float64` instance: construction, width and height, the strict
  overlap test, the size-keeping edge setters, the translations and the asymmetric `Scale`.
- `platformer.dfy` (module `Platformer`): the game of `main.go`. The map of `'x'` cells is
  turned into tiles (`Game.LoadTiles`). Each tick (`Game.Update`) runs, in this order: the
  floor test, the input (horizontal velocity and jump), the X move, X collision resolution,
  the Y move, gravity, and Y collision resolution (with the squash). The package's globals
  (`player`, `tiles`, `jumpPressed`, `game.gravity`) are the fields of a `Game` object and
  of the `Player` object it owns. Each method is proved against a pure function of the state
  (`Accelerate`, `Jump.Transition`, `OnFloor`, `XResolve`, `Gravity`, `YScan`, `Tick`). The
  lemmas about a tick are stated about those functions.
- `player.dfy` (module `Player`): the extracted player record of `player/player.go`. Its
  hitbox margins are scaled by the cumulative `scaling` and rounded up (`math.Ceil` is
  `-((-x).Floor)`). It also has the jump state machine and the repeated `Scale` squash.
- `jump.dfy` (module `Jump`): the edge-triggered jump/hover transition. `main.go`'s
  `handleInput` and `player.go`'s `HandleJump` run the same transition, and both are proved
  equal to this one function.
- `sprites.dfy` (module `Sprites`): the frame counter of `platformer/assets/sprites/sprites.go`.
  It covers the wrap-around counter and the strip offset in `GetFrame`, and the frame count
  in `loadSprite`. Go's truncating integer `/` and `%` are written out (`GoDiv`, `GoRem`), and
  so is `image.Rect`'s coordinate ordering (`ImageRect`).

All `float64` quantities are exact `real`s. The floor test compares the hitbox bottom and the
tile top with exact equality, as the source does.

Points of the source worth knowing:

- The squash branch of Y resolution is the `else` of `vY > 0` (main.go:264-270). It also runs
  at `vY == 0`, a player at rest included.
- `Scale` keeps `Max.Y` fixed. `Max.Y` is the bottom edge in screen coordinates, so the
  rectangle shrinks towards its bottom edge.
- `main.go` sets its squash factor `scalingFactor` to 1 (main.go:64), so there the squash
  leaves the rectangle unchanged. The 0.9 factor belongs only to `player.go`'s `New`.

## Model

| member | source | states |
|---|---|---|
| Rectangle.Make | rectangle/rectangle.go:16-29 | `(x0, y0)` becomes `Min` and `(x1, y1)` becomes `Max`, so the width is `x1 - x0` and the height `y1 - y0` |
| Rectangle.Rect.Width | rectangle/rectangle.go:23-25 | `Max.X - Min.X`; every edge setter and `MoveX`/`MoveY` keep it, and `Scale` multiplies it by the factor |
| Rectangle.Rect.Height | rectangle/rectangle.go:27-29 | `Max.Y - Min.Y`; every edge setter and `MoveX`/`MoveY` keep it, and `Scale` multiplies it by the factor |
| Rectangle.Rect.Overlaps | rectangle/rectangle.go:31-34 | strict overlap on both axes; proved symmetric, equal to a shared interior point, and false on edge contact by the three lemmas below |
| Rectangle.OverlapsSymmetric | rectangle/rectangle.go:31-34 | `r.Overlaps(s) == s.Overlaps(r)` |
| Rectangle.OverlapsIffCommonInterior | rectangle/rectangle.go:31-34 | for rectangles of positive area, overlap holds exactly when the open interiors share a point |
| Rectangle.EdgeContactIsNotOverlap | rectangle/rectangle.go:31-34 | rectangles that only share an edge do not overlap, in either order |
| Rectangle.Rect.SetLeft | rectangle/rectangle.go:36-40 | the left edge becomes `x`; the width and both Y coordinates are kept |
| Rectangle.Rect.SetRight | rectangle/rectangle.go:42-46 | the right edge becomes `x`; the width and both Y coordinates are kept |
| Rectangle.Rect.SetBottom | rectangle/rectangle.go:48-52 | `Max.Y` becomes `y`; the height and both X coordinates are kept |
| Rectangle.Rect.SetTop | rectangle/rectangle.go:54-58 | `Min.Y` becomes `y`; the height and both X coordinates are kept |
| Rectangle.Rect.MoveX | rectangle/rectangle.go:60-63 | shifts `Min.X` by `dX`, keeps the width and leaves Y alone |
| Rectangle.Rect.MoveY | rectangle/rectangle.go:65-68 | shifts `Min.Y` by `dY`, keeps the height and leaves X alone |
| Rectangle.MoveXInverse | rectangle/rectangle.go:60-63 | `MoveX(d)` then `MoveX(-d)` gives back the rectangle |
| Rectangle.MoveYInverse | rectangle/rectangle.go:65-68 | `MoveY(d)` then `MoveY(-d)` gives back the rectangle |
| Rectangle.Rect.Scale | rectangle/rectangle.go:70-76 | `Max.Y` is fixed, width and height are multiplied by the factor, and the horizontal centre is kept |
| Rectangle.ScaleOneIsIdentity | rectangle/rectangle.go:70-76 | `Scale(1)` changes nothing |
| Rectangle.ScaleKeepsValid | rectangle/rectangle.go:70-76 | with a factor in [0, 1] a well-formed rectangle stays well-formed, and `Min.Y` stays between the old `Min.Y` and `Max.Y` |
| Rectangle.ScaleCompose | rectangle/rectangle.go:70-76 | scaling by `a` and then by `b` is scaling by `a * b` |
| Platformer.Tile.Box | main.go:157-159 | a tile's rectangle is the `tileWidth` x `tileHeight` box with its origin at the tile |
| Platformer.HitboxOf | main.go:85-92 | the hitbox is `rect` shrunk by the four margins: its width and height lose the margins, and with non-negative margins it lies inside `rect` |
| Platformer.RowTilesSpec | main.go:165-172 | one row gives exactly one tile per `'x'`, at that column's pixel position on the row, left to right |
| Platformer.MapTilesSpec | main.go:163-174 | the first `n` rows give exactly one tile per `'x'` cell, in row-major order, all above row `n` |
| Platformer.TilesSpec | main.go:163-174 | a tile is produced if and only if its cell holds `'x'`, and the tiles come in strictly increasing row-major order |
| Platformer.RowMajorDistinct | main.go:163-174 | tiles in row-major order are pairwise distinct, so no cell gives two tiles |
| Platformer.Game.LoadTiles | main.go:163-174 | the nested loops append exactly `Tiles(tileMap)` to the tile list |
| Platformer.PlaceLeft | main.go:72-74 | the hitbox's left edge lands at `x`; width and Y are kept |
| Platformer.PlaceRight | main.go:75-77 | the hitbox's right edge lands at `x`; width and Y are kept |
| Platformer.PlaceTop | main.go:78-80 | the hitbox's top edge lands at `y`; height and X are kept |
| Platformer.PlaceBottom | main.go:81-83 | the hitbox's bottom edge lands at `y`; height and X are kept |
| Platformer.PlaceLeftTwice | main.go:72-74 | only the last left placement matters |
| Platformer.Player.SetLeft | main.go:72-74 | the method updates `rect` by `PlaceLeft`, so the hitbox's left edge becomes `x` |
| Platformer.Player.SetRight | main.go:75-77 | the method updates `rect` by `PlaceRight`, so the hitbox's right edge becomes `x` |
| Platformer.Player.SetTop | main.go:78-80 | the method updates `rect` by `PlaceTop`, so the hitbox's top edge becomes `y` |
| Platformer.Player.SetBottom | main.go:81-83 | the method updates `rect` by `PlaceBottom`, so the hitbox's bottom edge becomes `y` |
| Platformer.Player.constructor | main.go:48-70 | the initial `player`: the 32x32 rectangle at the origin, at rest, squash factor 1, and the literal tunables and margins |
| Platformer.Game.constructor | main.go:24-26 | gravity 0.8, no tiles, jump key not latched, a fresh initial player |
| Platformer.Accelerate | main.go:184-201 | the horizontal speed after the input is within `[-maxVX, maxVX]` |
| Platformer.FrictionExactlyWhenNotPushingAlong | main.go:191-194 | for a moving player and non-zero friction, friction changes the speed exactly when `dVX * vX <= 0` |
| Platformer.CoastingDecays | main.go:184-201 | with no arrow key and friction in [0, 1], the speed is scaled by `1 - friction`: it shrinks and keeps its sign |
| Platformer.PushingAlongSkipsFriction | main.go:184-201 | accelerating in the direction of motion adds the acceleration without friction, capped at `maxVX` |
| Platformer.ReversingAppliesFriction | main.go:184-201 | pushing against the motion applies friction and the acceleration in the same tick |
| Platformer.RightWinsOverLeft | main.go:185-189 | with both arrow keys held, the right key decides |
| Platformer.Game.Steer | main.go:184-201 | the arrow-key half of the input sets `vX` to `Accelerate` of the old speed |
| Platformer.Game.HandleJumpKey | main.go:203-220 | the jump half of the input, with `jumpPressed` as the latch, is `Jump.Transition` |
| Platformer.Game.HandleInput | main.go:176-221 | the input step sets `vX` by `Accelerate` and `(vY, isJumping, jumpPressed)` by `Jump.Transition` |
| Platformer.Game.CheckIsOnFloor | main.go:223-235 | `isOnFloor` is set exactly when some tile meets the hitbox horizontally (touching counts) with the hitbox bottom exactly on the tile top |
| Platformer.Supports | main.go:226-234 | one tile holds the hitbox up: they meet horizontally, touching included, and the hitbox bottom equals the tile top |
| Platformer.OnFloor | main.go:223-235 | some tile of the list `Supports` the hitbox; `LandingStaysOnFloor` shows the Y loop leaves it true after a landing that no later tile disturbs |
| Platformer.Gravity | main.go:276-284 | on the floor `vY` is unchanged; otherwise it becomes `min(vY + gravity, terminalVelocityY)` |
| Platformer.Game.ApplyGravity | main.go:276-284 | the method sets `vY` to `Gravity` of the old value |
| Platformer.ScreenClamp | main.go:252-258 | past the right screen edge the rectangle is put at the edge and `vX` negated; else past the left edge likewise; otherwise nothing changes |
| Platformer.XTile | main.go:238-250 | one tile of the X loop: whatever the tile, the width and both Y coordinates are kept |
| Platformer.XScan | main.go:238-250 | the X loop over a list of tiles keeps the width and both Y coordinates; `XScanAppend` splits it over concatenation |
| Platformer.XResolve | main.go:237-259 | the tile loop then the screen clamp; the width and both Y coordinates are kept |
| Platformer.XScanIdle | main.go:238-250 | tiles the pre-loop hitbox does not overlap change nothing, and once `vX` is 0 no tile changes anything |
| Platformer.RightSnapAtMostOnce | main.go:238-250 | moving right, only the first overlapping tile acts: the hitbox's right edge is put on its left side and `vX` becomes 0 |
| Platformer.LeftSnapLastWins | main.go:238-250 | moving left, every overlap sets `vX` to -0.01, and the last overlapping tile decides where the hitbox's left edge ends |
| Platformer.XScanVelocity | main.go:238-250 | after the tile loop `vX` is the old value, 0 or -0.01 |
| Platformer.Game.HandleXCollisions | main.go:237-259 | the tile loop and the screen clamp together compute `XResolve` |
| Platformer.YScanStops | main.go:261-274 | either no tile overlapped and nothing changed, or `vY` ends at 0 |
| Platformer.YTile | main.go:262-272 | one tile of the Y loop: either nothing changes or `vY` becomes 0 |
| Platformer.YScan | main.go:261-274 | the Y loop over a list of tiles, left fold of `YTile`; characterised by `YScanAppend`, `YScanStops`, `YScanUntouched` and the two first-overlap lemmas |
| Platformer.YScanUntouched | main.go:261-274 | tiles the hitbox never overlaps change nothing |
| Platformer.YScanKeepsRest | main.go:261-274 | a player with `vY == 0` still has `vY == 0` after the loop |
| Platformer.OverlapStopsVertical | main.go:261-274 | if the hitbox overlaps any tile when the loop reaches it, `vY` is 0 afterwards |
| Platformer.FallLandsOnFirstOverlap | main.go:261-274 | falling, the first overlapping tile puts the hitbox bottom exactly on its top and stops the fall |
| Platformer.CeilingSquashesOnFirstOverlap | main.go:261-274 | rising or at rest, the first overlapping tile puts the hitbox top on its bottom, squashes by the factor, multiplies `scaling` by it and stops the motion; with factor 1 the hitbox top stays exactly on the tile bottom |
| Platformer.LandingIsOnFloor | main.go:223-235 | right after the landing tile's own step, the hitbox bottom is on that tile's top, so `Supports` holds for it |
| Platformer.LandingStaysOnFloor | main.go:261-274 | falling, if no later tile overlaps the landed hitbox, the whole Y loop ends with `vY == 0` and the exact-equality floor test of the next tick succeeds |
| Platformer.Game.HandleYCollisions | main.go:261-274 | the loop computes `YScan`, re-deriving the hitbox for every tile |
| Platformer.Game.Update | main.go:286-295 | one tick equals `Tick` applied to the old state, in the fixed order of steps |
| Platformer.Tick | main.go:286-295 | a tick latches the jump key, sets `isOnFloor` by the floor test on the old hitbox, and (with positive jump speed) leaves the player jumping only while the key is held |
| Platformer.TickBoundsHorizontalSpeed | main.go:286-295 | whatever the keys and tiles, a tick leaves `-maxVX <= vX <= maxVX` when `maxVX >= 0.01` |
| Platformer.TickJumpNeedsFloor | main.go:203-220 | a tick starts a new jump only on a fresh press of the jump key while the tick's floor test held |
| Jump.Transition | main.go:203-220 | the same transition as `HandleJump` in player/player.go:127-146: the latch follows the key; while jumping (with positive jump speed) the player rises; releasing ends the jump and never speeds up the rise |
| Jump.JumpOnlyOnEdgeFromFloor | main.go:206-213 | pressing sets `vY = -jumpSpeed` only on a released-to-pressed edge while on the floor; otherwise `vY` is kept |
| Jump.HoldingNeverRetriggers | main.go:206-213 | a second call with the key still down never starts a jump |
| Jump.ReleaseCapsRise | main.go:214-220 | releasing clears the latch and the jump, and caps a jump's rise at `-jumpHoverSpeed` |
| Jump.TapGivesHoverSpeed | main.go:203-220 | a press on the floor released at once leaves the player rising at exactly the hover speed |
| Player.Ceil | player/player.go:62-93 | the ceiling is the least integer not below its argument |
| Player.Player.New | player/player.go:36-60 | `New`: 32x32 at the origin, `scaling` 1, factor 0.9, jump flags clear, the literal tunables |
| Player.Player.SetLeft | player/player.go:62-64 | the hitbox left edge (margin `ceil(marginLeft * scaling)`) becomes `x`; width and Y kept |
| Player.Player.SetRight | player/player.go:66-68 | the hitbox right edge becomes `x`; width and Y kept |
| Player.Player.SetTop | player/player.go:70-72 | the hitbox top edge becomes `y`; height and X kept |
| Player.Player.SetBottom | player/player.go:74-76 | the margin is subtracted, so the hitbox bottom is `y - 2 * ceil(marginBottom * scaling)`, which is `y` exactly when that ceiling is 0 |
| Player.Player.MoveX | player/player.go:78-80 | shifts the rectangle by `dX`, keeping its size |
| Player.Player.MoveY | player/player.go:82-84 | shifts the rectangle by `dY`, keeping its size |
| Player.Player.Hitbox | player/player.go:86-93 | the rectangle shrunk by the rounded-up scaled margins: width and height lose those margins, and with non-negative margins and `scaling` it lies inside the rectangle |
| Player.Player.HandleJump | player/player.go:127-146 | updates `(VY, isJumping, jumpStarted)` by `Jump.Transition`, leaving `VX` and `rect` untouched |
| Player.Player.Scale | player/player.go:148-151 | the rectangle is scaled by `scalingFactorOnHit` and `scaling` is multiplied by it |
| Player.Squashes | player/player.go:148-151 | `n` repeated `Scale` calls keep the bottom edge and the horizontal centre |
| Player.SquashesCompose | player/player.go:148-151 | `n` squashes by `f` are one squash by `f^n`, on both the rectangle and `scaling` |
| Player.PowInUnit | player/player.go:148-151 | powers of a factor in [0, 1] stay in [0, 1] |
| Player.SquashesFromNew | player/player.go:148-151 | from `New`, `n` squashes give `scaling == 0.9^n` and a well-formed rectangle of width `32 * 0.9^n` with its bottom still at 32 |
| Sprites.GoDivTruncates | platformer/assets/sprites/sprites.go:21-22 | Go's remainder is smaller than the divisor in magnitude and is 0 or has the dividend's sign |
| Sprites.GoAgreesWhenNonNegative | platformer/assets/sprites/sprites.go:21-22 | on a non-negative dividend and positive divisor Go's `/` and `%` agree with Euclidean ones |
| Sprites.GoDiv | platformer/assets/sprites/sprites.go:21-22 | Go's quotient, rounded toward zero; `GoDivTruncates` and `GoAgreesWhenNonNegative` pin it down |
| Sprites.GoRem | platformer/assets/sprites/sprites.go:21-22 | Go's remainder `a - b * (a / b)`; same partner lemmas as `GoDiv` |
| Sprites.QuotientBrackets | platformer/assets/sprites/sprites.go:34 | for a non-negative width and positive frame width, the quotient `q` satisfies `q * fw <= w < (q + 1) * fw` |
| Sprites.RemainderWraps | platformer/assets/sprites/sprites.go:21 | for an in-range counter, `(frame + 1) % period` is `frame + 1` below the period and 0 at it |
| Sprites.FrameCount | platformer/assets/sprites/sprites.go:34 | `frames` is the number of whole frames that fit in the image width |
| Sprites.NextFrame | platformer/assets/sprites/sprites.go:21 | the counter goes up by one and wraps to 0 at the period, staying in `[0, period)` |
| Sprites.ImageRect | platformer/assets/sprites/sprites.go:23 | the rectangle's corners are ordered and come from the given coordinates |
| Sprites.FrameIndex | platformer/assets/sprites/sprites.go:22 | the frame shown for a counter, Go's `frame / frameDuration`; `BlockOf` and the two index lemmas describe it |
| Sprites.FrameRect | platformer/assets/sprites/sprites.go:22-23 | the sub-rectangle is `abs(frameWidth)` wide and `abs(imageHeight)` high, with one vertical edge at `frameWidth * index` |
| Sprites.Sprite.LoadSprite | platformer/assets/sprites/sprites.go:27-39 | `loadSprite`: counter 0, `frames` by integer division, the given frame width and duration |
| Sprites.Sprite.GetFrame | platformer/assets/sprites/sprites.go:20-25 | advances the counter by `NextFrame`, keeps it in `[0, frames * frameDuration)`, and returns the sub-rectangle for it |
| Sprites.FramesAfterIsShift | platformer/assets/sprites/sprites.go:21 | `n` calls advance an in-range counter by `n` modulo the period |
| Sprites.CounterCycles | platformer/assets/sprites/sprites.go:21 | after `frames * frameDuration` calls the counter is back where it started |
| Sprites.BlockOf | platformer/assets/sprites/sprites.go:21-22 | an in-range counter splits into a frame `k < frames` and a place within that frame's block |
| Sprites.OffsetInStrip | platformer/assets/sprites/sprites.go:22-23 | the offset is a multiple of `frameWidth` and the sub-rectangle lies inside the strip |
| Sprites.IndexChangesOnlyAtBlockStart | platformer/assets/sprites/sprites.go:21-22 | the shown frame changes only on a step onto the start of a block |
| Sprites.IndexStableWithinBlock | platformer/assets/sprites/sprites.go:21-22 | from a block start the shown frame stays fixed for `frameDuration` calls |

## Left out

- Rendering and debug output are not modelled: `draw`, `drawHitbox`, `Game.Draw`, `Layout`, `Player.Draw`, `Player.DrawHitbox`, `DebugString`. They are drawing and formatting calls only.
- Keyboard polling (`ebiten.IsKeyPressed`), the debug-key toggle and the `os.Exit` on Escape in `handleInput` are not modelled. The left, right and jump keys are boolean inputs.
- `main` and the window setup are not modelled. They are I/O plumbing around `loadTiles` and the game loop.
- In the sprites package, decoding, `NewImageFromImage`, `SubImage` and the embedded files are not modelled. The image is reduced to its width and height, and `GetFrame` returns the rectangle it would cut.
- platformer/src/main.rs is not part of this model. It is a separate Bevy program: a timer advances the atlas index as `(index + 1) % 11` through 11 frames, and the Up and Down keys move the player by a fixed 6-unit step. None of it feeds the Go game.
- Sprites.Sprite.LoadSprite and Sprites.Sprite.GetFrame: Go's integer division by zero panics. The model requires `frameWidth != 0` for `loadSprite` and `frameDuration * frames != 0` for `GetFrame` instead of modelling the panic.
- Go's `int` is 64 bits wide and wraps around; Dafny's `int` is unbounded. Overflow in `frame + 1`, `frameDuration * frames` and `frameWidth * index` in sprites.go is not modelled.
- Arithmetic is exact. IEEE-754 rounding of `float64` is not modelled, and every result is the exact-arithmetic idealisation. The conversion `C(...)` in `Scale` is the identity for `float64` and is left out.
- Go's `range` over a string yields byte offsets. The model indexes characters, which is the same for the ASCII tile maps the game uses.
- The concrete nine-row `tileMap` literal is not evaluated; the tile lemmas hold for every map.
- `Game.HandleInput` is verified as two halves, `Game.Steer` and `Game.HandleJumpKey`, which touch disjoint fields. The two halves run in the order of the source.
- Sprites.NextFrame: the contract says nothing about a negative period or a negative counter. Go's remainder is still modelled for those cases, but their result is not characterised.
- Rectangle.OverlapsIffCommonInterior: stated only for rectangles of positive area. A degenerate or inverted rectangle can pass the strict test without any interior point.
- Platformer.TickBoundsHorizontalSpeed: needs `maxVX >= 0.01`, because a leftward snap sets `vX` to -0.01 whatever `maxVX` is.
