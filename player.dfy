/**
 * The player of Flappy Macro: a circle that gravity pulls towards larger `y`
 * and a flap pushes towards smaller `y`. Coordinates follow the screen: `y`
 * grows downwards and `y = 0` is the top edge. The source's `f32` values are
 * modelled as `real`.
 */
module Players {

  const Gravity: real := 10.0
  const FlapPower: real := 8.0
  /** Lower bound of the velocity: the fastest the player can move upwards. */
  const TerminalVelocity: real := -5.0
  /** Lower bound of `y`, and the velocity the player gets on reaching it. */
  const Ceiling: real := 0.0
  const BounceVelocity: real := 1.0

  /** The state of a player as a value. */
  datatype Body = Body(x: real, y: real, velocity: real)

  function Max(a: real, b: real): real {
    if a < b then b else a
  }

  /** The kinematic invariant that every physics step establishes. */
  predicate InBounds(b: Body) {
    b.y >= Ceiling && b.velocity >= TerminalVelocity
  }

  /** `Player::new(x, y)`: the player starts at rest. */
  function NewBody(x: real, y: real): (b: Body)
    ensures b.x == x && b.y == y && b.velocity == 0.0
    ensures y >= Ceiling ==> InBounds(b)
  {
    Body(x, y, 0.0)
  }

  /** `Player::flap`: an upward impulse of `FlapPower`; the position does not move. */
  function Flapped(b: Body): (r: Body)
    ensures r.x == b.x && r.y == b.y
    ensures b.velocity - r.velocity == FlapPower
  {
    b.(velocity := b.velocity - FlapPower)
  }

  /** The unclamped position the physics step aims for: old `y` plus the clamped velocity. */
  function Target(b: Body, dt: real): real {
    b.y + Max(b.velocity + Gravity * dt, TerminalVelocity)
  }

  /** The step reaches past the top edge, so it ends on the edge with the bounce velocity. */
  predicate HitsCeiling(b: Body, dt: real) {
    Target(b, dt) < Ceiling
  }

  /**
   * The physics half of `Player::render`: gravity is integrated, the velocity is
   * clamped from below, `y` moves by the clamped velocity, and a `y` past the top
   * edge is put back on it with velocity `BounceVelocity`; `x` never changes.
   */
  function Rendered(b: Body, dt: real): (r: Body)
    ensures r.x == b.x
    ensures InBounds(r)
    ensures HitsCeiling(b, dt) ==> r.y == Ceiling && r.velocity == BounceVelocity
    ensures !HitsCeiling(b, dt) ==>
              r.velocity == Max(b.velocity + Gravity * dt, TerminalVelocity) && r.y - b.y == r.velocity
  {
    var v := Max(b.velocity + Gravity * dt, TerminalVelocity);
    if b.y + v < Ceiling then Body(b.x, Ceiling, BounceVelocity) else Body(b.x, b.y + v, v)
  }

  /**
   * The velocity clamp comes before the move, so in one step the player rises
   * by at most `-TerminalVelocity`, also when it meets the top edge.
   */
  lemma RiseBounded(b: Body, dt: real)
    ensures Rendered(b, dt).y >= b.y + TerminalVelocity
  {
    if HitsCeiling(b, dt) {
      assert b.y < -TerminalVelocity;
    }
  }

  /**
   * From a position on or below the top edge, the step bounces exactly when the
   * target lies above that edge.
   */
  lemma BounceIffHitsCeiling(b: Body, dt: real)
    requires b.y >= Ceiling
    ensures HitsCeiling(b, dt) <==> Rendered(b, dt) == Body(b.x, Ceiling, BounceVelocity)
  {
  }

  /** With the same position, a smaller velocity never ends the step lower on the screen. */
  lemma RenderedMonotone(b1: Body, b2: Body, dt: real)
    requires b1.y == b2.y && b1.velocity <= b2.velocity
    ensures Rendered(b1, dt).y <= Rendered(b2, dt).y
  {
  }

  /** So a flap before the step never leaves the player lower than no flap would. */
  lemma FlapNeverLowers(b: Body, dt: real)
    ensures Rendered(Flapped(b), dt).y <= Rendered(b, dt).y
  {
    RenderedMonotone(Flapped(b), b, dt);
  }

  /** `Player`: the fields that `flap` and `render` update in place through `&mut self`. */
  class Player {
    var x: real
    var y: real
    var velocity: real

    function Value(): Body
      reads this
    {
      Body(x, y, velocity)
    }

    /** `Player::new`. */
    constructor (x0: real, y0: real)
      ensures Value() == NewBody(x0, y0)
    {
      x, y, velocity := x0, y0, 0.0;
    }

    /** `Player::flap`. */
    method Flap()
      modifies this
      ensures Value() == Flapped(old(Value()))
      ensures x == old(x) && y == old(y) && velocity == old(velocity) - FlapPower
    {
      velocity := velocity - FlapPower;
    }

    /** The physics of `Player::render`, statement by statement; drawing is left out. */
    method Render(deltaTime: real)
      modifies this
      ensures Value() == Rendered(old(Value()), deltaTime)
      ensures x == old(x) && InBounds(Value())
    {
      velocity := velocity + Gravity * deltaTime;
      if velocity < TerminalVelocity {
        velocity := TerminalVelocity;
      }
      y := y + velocity;
      if y < Ceiling {
        y := Ceiling;
        velocity := BounceVelocity;
      }
    }
  }
}
