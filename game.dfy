/**
 * The game state of Flappy Macro and the per-frame step that `main` runs in
 * its loop: the screen mode decides what a frame does, and only Menu and
 * Playing do anything yet.
 */
module Game {
  import opened Obstacles
  import opened Players

  const ScreenWidth: i32 := 80
  const StartX: real := 65.0
  const StartY: real := 100.0

  datatype GameMode = Menu | Playing | Paused | End

  /** The state of the game as a value. */
  datatype GameState = GameState(
    mode: GameMode,
    player: Body,
    frameTime: real,
    score: i32,
    obstacle: Obstacle)

  /** What one frame reads from the engine: `get_frame_time()` and `is_key_pressed(Space)`. */
  datatype Frame = Frame(deltaTime: real, spacePressed: bool)

  /**
   * The mode transition table of the loop body, one row per mode and key state:
   * Space leaves the menu; every other mode keeps itself.
   */
  const Transitions: set<(GameMode, bool, GameMode)> := {
    (Menu, true, Playing), (Menu, false, Menu),
    (Playing, true, Playing), (Playing, false, Playing),
    (Paused, true, Paused), (Paused, false, Paused),
    (End, true, End), (End, false, End)
  }

  /** The table gives exactly one successor for each mode and key state. */
  lemma TransitionsDeterministic(m: GameMode, space: bool, m1: GameMode, m2: GameMode)
    requires (m, space, m1) in Transitions && (m, space, m2) in Transitions
    ensures m1 == m2
  {
  }

  /** `State::new`, with the draw of the first obstacle's gap passed in as `gapY`. */
  function InitialState(gapY: i32): (s: GameState)
    requires InDrawRange(gapY)
    ensures s.mode == Menu && s.score == 0 && s.frameTime == 0.0
    ensures s.player == Body(StartX, StartY, 0.0)
    ensures s.obstacle == Obstacle(ScreenWidth, gapY, BaseSize)
  {
    GameState(Menu, NewBody(StartX, StartY), 0.0, 0, NewObstacle(ScreenWidth, 0, gapY))
  }

  /**
   * One pass of the loop body of `main`: in Menu, Space starts the game; in
   * Playing, a pressed Space flaps before the physics step; Paused and End do
   * nothing. No frame touches the score, the obstacle or `frame_time`.
   */
  function Step(s: GameState, f: Frame): (r: GameState)
    ensures (s.mode, f.spacePressed, r.mode) in Transitions
    ensures r.score == s.score && r.obstacle == s.obstacle && r.frameTime == s.frameTime
    ensures s.mode != Playing ==> r.player == s.player
    ensures s.mode == Playing && f.spacePressed ==> r.player == Rendered(Flapped(s.player), f.deltaTime)
    ensures s.mode == Playing && !f.spacePressed ==> r.player == Rendered(s.player, f.deltaTime)
    ensures s.mode == Playing ==> InBounds(r.player)
    ensures s.mode == Menu && !f.spacePressed ==> r == s
    ensures s.mode == Paused || s.mode == End ==> r == s
  {
    match s.mode
    case Menu => if f.spacePressed then s.(mode := Playing) else s
    case Playing =>
      var p := if f.spacePressed then Flapped(s.player) else s.player;
      s.(player := Rendered(p, f.deltaTime))
    case Paused => s
    case End => s
  }

  /** The loop of `main` over a finite run of frames, first frame first. */
  function Run(s: GameState, frames: seq<Frame>): GameState
    decreases |frames|
  {
    if frames == [] then s else Run(Step(s, frames[0]), frames[1..])
  }

  /** Running two runs of frames one after the other is running their concatenation. */
  lemma {:induction false} RunAppend(s: GameState, a: seq<Frame>, b: seq<Frame>)
    ensures Run(s, a + b) == Run(Run(s, a), b)
    decreases |a|
  {
    if a != [] {
      assert (a + b)[1..] == a[1..] + b;
      RunAppend(Step(s, a[0]), a[1..], b);
    } else {
      assert a + b == b;
    }
  }

  /** However many frames pass, score, obstacle and `frame_time` stay as they were. */
  lemma {:induction false} RunKeepsBookkeeping(s: GameState, frames: seq<Frame>)
    ensures Run(s, frames).score == s.score
    ensures Run(s, frames).obstacle == s.obstacle
    ensures Run(s, frames).frameTime == s.frameTime
    decreases |frames|
  {
    if frames != [] {
      RunKeepsBookkeeping(Step(s, frames[0]), frames[1..]);
    }
  }

  /** Once Playing, the game stays Playing. */
  lemma {:induction false} RunStaysPlaying(s: GameState, frames: seq<Frame>)
    requires s.mode == Playing
    ensures Run(s, frames).mode == Playing
    decreases |frames|
  {
    if frames != [] {
      RunStaysPlaying(Step(s, frames[0]), frames[1..]);
    }
  }

  /** Paused and End are placeholders: no run of frames changes anything. */
  lemma {:induction false} RunFixedPoint(s: GameState, frames: seq<Frame>)
    requires s.mode == Paused || s.mode == End
    ensures Run(s, frames) == s
    decreases |frames|
  {
    if frames != [] {
      RunFixedPoint(Step(s, frames[0]), frames[1..]);
    }
  }

  /** In the menu, frames without Space change nothing. */
  lemma {:induction false} RunIdleMenu(s: GameState, frames: seq<Frame>)
    requires s.mode == Menu
    requires forall i :: 0 <= i < |frames| ==> !frames[i].spacePressed
    ensures Run(s, frames) == s
    decreases |frames|
  {
    if frames != [] {
      RunIdleMenu(Step(s, frames[0]), frames[1..]);
    }
  }

  /**
   * What holds of every state the loop reaches from `State::new`: only Menu and
   * Playing occur, the player stays in bounds and in its column, and nothing
   * else has moved from its initial value.
   */
  predicate Reachable(s: GameState) {
    (s.mode == Menu || s.mode == Playing)
    && InBounds(s.player) && s.player.x == StartX
    && s.score == 0 && s.frameTime == 0.0
    && s.obstacle.x == ScreenWidth && s.obstacle.size == BaseSize && InDrawRange(s.obstacle.gapY)
    && (s.mode == Menu ==> s.player == Body(StartX, StartY, 0.0))
  }

  lemma InitialReachable(gapY: i32)
    requires InDrawRange(gapY)
    ensures Reachable(InitialState(gapY))
  {
  }

  lemma StepReachable(s: GameState, f: Frame)
    requires Reachable(s)
    ensures Reachable(Step(s, f))
  {
  }

  /** Every run of frames from the initial state stays within `Reachable`; Paused and End never occur. */
  lemma {:induction false} RunReachable(s: GameState, frames: seq<Frame>)
    requires Reachable(s)
    ensures Reachable(Run(s, frames))
    ensures Run(s, frames).mode != Paused && Run(s, frames).mode != End
    decreases |frames|
  {
    if frames != [] {
      StepReachable(s, frames[0]);
      RunReachable(Step(s, frames[0]), frames[1..]);
    }
  }

  /** `State`: the fields that the loop of `main` updates in place. */
  class State {
    var mode: GameMode
    var player: Player
    var frameTime: real
    var score: i32
    var obstacle: Obstacle

    function Value(): GameState
      reads this, player
    {
      GameState(mode, player.Value(), frameTime, score, obstacle)
    }

    /** `State::new`. */
    constructor (gapY: i32)
      requires InDrawRange(gapY)
      ensures Value() == InitialState(gapY)
      ensures fresh(player)
    {
      mode := Menu;
      player := new Player(StartX, StartY);
      frameTime := 0.0;
      score := 0;
      obstacle := NewObstacle(ScreenWidth, 0, gapY);
    }

    /** One pass of the loop body of `main`; drawing is left out. */
    method Tick(f: Frame)
      modifies this, player
      ensures player == old(player)
      ensures Value() == Step(old(Value()), f)
    {
      match mode
      case Menu =>
        if f.spacePressed {
          mode := Playing;
        }
      case Playing =>
        if f.spacePressed {
          player.Flap();
        }
        player.Render(f.deltaTime);
      case Paused =>
      case End =>
    }

    /** The loop of `main`, run for the given frames. */
    method RunFrames(frames: seq<Frame>)
      modifies this, player
      ensures player == old(player)
      ensures Value() == Run(old(Value()), frames)
    {
      var i := 0;
      while i < |frames|
        invariant 0 <= i <= |frames|
        invariant player == old(player)
        invariant Run(Value(), frames[i..]) == Run(old(Value()), frames)
      {
        Tick(frames[i]);
        i := i + 1;
      }
    }
  }
}
