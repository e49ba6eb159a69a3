# Flappy Macro: gameplay core in Dafny

Flappy Macro is a small Flappy Bird clone written in Rust on the macroquad
engine. The player is a circle that gravity pulls down the screen. Pressing
Space gives an upward "flap" impulse. A single obstacle with a gap is
generated from the score, and a four-mode state machine (Menu, Playing,
Paused, End) decides what each frame does. In this version only Menu and
Playing do anything. Paused and End are empty placeholders, and no code yet
moves the obstacle, changes the score or checks for collisions.

The model has three modules that follow the structs of `src/main.rs`:

- `Obstacles` (obstacle.dfy): Rust's `i32` as a newtype, the `Obstacle`
  value and `Obstacle::new` as the function `NewObstacle`. The random gap
  position is passed in as a parameter.
- `Players` (player.dfy): the player as a value `Body`, and spec functions
  for `Player::new`, `flap` and the physics half of `render`. The class
  `Player` has the same fields as the Rust struct, and its methods update
  them in place statement by statement. Each method is proved equal to its
  spec function.
- `Game` (game.dfy): `GameMode`, the state as a value `GameState`,
  `State::new` as `InitialState`, one pass of the loop body of `main` as
  `Step`, and the loop over a finite sequence of frames as `Run`. The class
  `State` holds a `Player` object. Its `Tick` and `RunFrames` methods update
  the state in place and are proved equal to `Step` and `Run`.

Things worth knowing when reading the model:

- Screen coordinates grow downwards, so `y = 0` is the top edge of the
  window. The clamp at `y < 0` (src/main.rs:79-82) keeps the player from
  leaving through the top, and the model names it `Ceiling`. The velocity
  clamp at `-5` (src/main.rs:74-76) limits how fast the player rises. Nothing
  limits falling.
- `max(2, 20 - score)` gives more than 20 for a negative score. The size is
  20 only at score 0 (`NewObstacle` states this as an if-and-only-if). It is
  `20 - score` up to score 18, and 2 from then on.
- `main` calls `rand::srand` after `State::new` (src/main.rs:90-91). So the
  first obstacle's gap is drawn before the generator is seeded. In the model
  every draw is a parameter, so this ordering is not visible in the model.
- The obstacle is built once and never replaced, and the score is never
  changed. `RunKeepsBookkeeping` and `RunReachable` prove this for any
  sequence of frames.

## Model

| member | source | states |
|---|---|---|
| `Obstacles.NewObstacle` | src/main.rs:49-55 | keeps `x` and the drawn `gapY`; size is at least 2, equals `20 - score` for scores up to 18 and 2 from 18 on, and is 20 exactly when the score is 0 |
| `Obstacles.SizeNonIncreasing` | src/main.rs:53 | a higher score never gives a larger gap size, whatever the two draws |
| `Obstacles.DrawOnlyMovesGap` | src/main.rs:50-54 | two obstacles built from the same position and score differ only in `gapY` |
| `Players.NewBody` | src/main.rs:59-65 | `Player::new` starts at the given position with velocity 0, which satisfies the kinematic bounds when `y >= 0` |
| `Players.Flapped` | src/main.rs:67-69 | a flap lowers the velocity by exactly `FLAP_POWER` = 8 and does not move the player |
| `Players.Rendered` | src/main.rs:71-83 | after the physics step `x` is unchanged, `y >= 0` and velocity `>= -5`; on reaching past `y = 0` the player is at exactly 0 with velocity 1; otherwise velocity is `max(v + 10*dt, -5)` and `y` moves by that clamped velocity |
| `Players.RiseBounded` | src/main.rs:72-82 | because the clamp comes before the move, one step raises the player by at most 5, also when it meets the top edge |
| `Players.BounceIffHitsCeiling` | src/main.rs:78-82 | from `y >= 0`, the step ends at `(x, 0)` with velocity 1 if and only if its target lies above the top edge |
| `Players.RenderedMonotone` | src/main.rs:72-82 | from the same position, a smaller velocity never ends the step lower on the screen |
| `Players.FlapNeverLowers` | src/main.rs:67-82 | a flap before the physics step never leaves the player lower than no flap |
| `Players.Player.constructor` | src/main.rs:59-65 | the new object's fields hold `NewBody(x, y)` |
| `Players.Player.Flap` | src/main.rs:67-69 | updating the velocity in place gives `Flapped` of the old fields and keeps `x` and `y` |
| `Players.Player.Render` | src/main.rs:71-83 | the in-place statement sequence gives `Rendered` of the old fields, keeps `x` and establishes the bounds |
| `Game.TransitionsDeterministic` | src/main.rs:96-130 | the mode transition table gives one successor per mode and key state |
| `Game.InitialState` | src/main.rs:37-45 | mode Menu, score 0, `frame_time` 0, player at (65, 100) at rest, obstacle at x = 80 (`SCREEN_WIDTH`) with size 20 and the drawn gap |
| `Game.Step` | src/main.rs:94-130 | the mode change follows the transition table; score, obstacle and `frame_time` are unchanged; in Playing the player becomes `Rendered(Flapped(p))` with Space and `Rendered(p)` without, so the flap comes first; Menu without Space, Paused and End change nothing |
| `Game.RunAppend` | src/main.rs:93-132 | running two sequences of frames one after the other equals running their concatenation |
| `Game.RunKeepsBookkeeping` | src/main.rs:93-132 | no sequence of frames changes the score, the obstacle or `frame_time` |
| `Game.RunStaysPlaying` | src/main.rs:115-123 | once Playing, the game stays Playing for every sequence of frames |
| `Game.RunFixedPoint` | src/main.rs:124-129 | from Paused or End, no sequence of frames changes the state |
| `Game.RunIdleMenu` | src/main.rs:97-114 | in Menu, frames without Space leave the whole state, player included, unchanged |
| `Game.InitialReachable` | src/main.rs:37-45 | the initial state satisfies the reachability invariant |
| `Game.StepReachable` | src/main.rs:94-130 | one frame preserves the reachability invariant |
| `Game.RunReachable` | src/main.rs:90-132 | from any state meeting the invariant, every sequence of frames keeps it: only Menu and Playing occur, the player stays in bounds at x = 65, the score stays 0 and the obstacle stays as built |
| `Game.State.constructor` | src/main.rs:37-45 | the new object and its fresh player hold `InitialState(gapY)` |
| `Game.State.Tick` | src/main.rs:94-130 | updating mode and player in place gives `Step` of the old state and keeps the same player object |
| `Game.State.RunFrames` | src/main.rs:93-132 | the loop over the given frames gives `Run` of the old state |

## Left out

- Drawing: `clear_background`, `draw_circle`, `measure_text`, `draw_text` and the text-centring arithmetic (src/main.rs:84, 98-109, 116). They have no effect on the state.
- Input and timing: `is_key_pressed(KeyCode::Space)` and `get_frame_time()` become the two fields of `Frame`, which the model takes as inputs.
- Randomness: `rand::srand` and the internals of `rand::gen_range` are library code and are not part of this model. Each draw is a parameter constrained to the half-open range `[10, 40)` that `gen_range(10, 40)` returns for integers.
- Frame scheduling: `next_frame().await` and the engine's window lifecycle. The infinite `loop` is modelled as `Run` over any finite sequence of frames.
- Floating point: `f32` values are `real`, so NaN, infinities, rounding and overflow are not covered.
- NewObstacle: requires that `20 - score` fits in `i32`, that is a score of at least -2147483627. Below that a debug build panics and a release build wraps, giving size 2. The only call uses score 0.
- Collision, scoring, obstacle replacement, pause/resume and game over are not in this source file. Paused and End are empty placeholders, modelled as fixed points.
