/** The game: obstacle set-up, and one step of the input loop that maps a
    key to a move and redraws the player. */
module Game {
  import opened Int32
  import opened Obstacles
  import opened Collision
  import opened Movement

  datatype Option<T> = None | Some(value: T)

  /** The key map of the input loop: w up, s down, d right, a left. */
  function KeyDirection(c: char): Option<Direction> {
    match c
    case 'w' => Some(Up)
    case 's' => Some(Down)
    case 'd' => Some(Right)
    case 'a' => Some(Left)
    case _ => None
  }

  /** One pass of the input loop on key `c`: the new player state and
      whether the player is redrawn. A handled key moves, then Display
      records the position; any other key does nothing. */
  function Step(a: Arena, st: PlayerState, c: char): (PlayerState, bool) {
    match KeyDirection(c)
    case None => (st, false)
    case Some(d) => (Record(Move(a, st, d)), true)
  }

  /** `Pacman.Run` over the keys pressed so far. The `player.Display()`
      before its loop changes no state: the constructor has already
      recorded the position, and `Record` is idempotent (`RecordEffect`). */
  function Run(a: Arena, st: PlayerState, keys: seq<char>): PlayerState
    decreases |keys|
  {
    if keys == [] then st else Run(a, Step(a, st, keys[0]).0, keys[1..])
  }

  lemma StepDispatch(a: Arena, st: PlayerState, c: char)
    ensures c == 'w' ==> Step(a, st, c) == (Record(Move(a, st, Up)), true)
    ensures c == 's' ==> Step(a, st, c) == (Record(Move(a, st, Down)), true)
    ensures c == 'd' ==> Step(a, st, c) == (Record(Move(a, st, Right)), true)
    ensures c == 'a' ==> Step(a, st, c) == (Record(Move(a, st, Left)), true)
    ensures c !in {'w', 's', 'd', 'a'} ==> Step(a, st, c) == (st, false)
  {
  }

  /** After a redraw the previous position is the current one; a step
      never changes the speed. */
  lemma StepRecords(a: Arena, st: PlayerState, c: char)
    ensures var (r, rePrint) := Step(a, st, c);
      r.speed == st.speed && (rePrint ==> r.prevX == r.x && r.prevY == r.y)
  {
  }

  lemma StepKeepsBounds(a: Arena, st: PlayerState, c: char)
    requires InBounds(a, st) && SpeedFits(a, st.speed)
    ensures InBounds(a, Step(a, st, c).0)
  {
  }

  /** Whatever keys are pressed, the player stays in the grid and keeps
      its speed. */
  lemma {:induction false} RunKeepsBounds(a: Arena, st: PlayerState, keys: seq<char>)
    requires InBounds(a, st) && SpeedFits(a, st.speed)
    ensures InBounds(a, Run(a, st, keys)) && Run(a, st, keys).speed == st.speed
    decreases |keys|
  {
    if keys != [] {
      StepKeepsBounds(a, st, keys[0]);
      StepRecords(a, st, keys[0]);
      RunKeepsBounds(a, Step(a, st, keys[0]).0, keys[1..]);
    }
  }

  /** The game as set up: sensitivity 2, speed 3, player at the origin,
      with any obstacles. On a console of 1 to int.MaxValue - 2 cells per
      side the player stays in the grid over any finite sequence of keys. */
  lemma {:induction false} GameStaysOnScreen(obs: seq<Obstacle>, width: int32, height: int32, keys: seq<char>)
    requires 1 <= width <= MAX_VALUE - 2 && 1 <= height <= MAX_VALUE - 2
    ensures InBounds(Arena(obs, 2, width, height), Run(Arena(obs, 2, width, height), INITIAL.(speed := 3), keys))
  {
    RunKeepsBounds(Arena(obs, 2, width, height), INITIAL.(speed := 3), keys);
  }

  class Pacman {
    const obstacleGenerator: ObstacleGenerator
    const collisionDetector: CollisionDetector
    const player: Player

    ghost predicate Valid()
      reads this, player
    {
      player.detector == collisionDetector
    }

    ghost function ArenaOf(): Arena
      reads this, player, collisionDetector, collisionDetector.obstacles
    {
      Arena(collisionDetector.obstacles[..], collisionDetector.sensitivity, player.bufferWidth, player.bufferHeight)
    }

    /** Sets up a game on a console buffer of the given size. */
    constructor (bufferWidth: int32, bufferHeight: int32)
      requires bufferWidth >= 0 && bufferHeight >= 0
      ensures Valid()
      ensures fresh(player) && fresh(collisionDetector) && fresh(collisionDetector.obstacles)
      ensures player.bufferWidth == bufferWidth && player.bufferHeight == bufferHeight
      ensures collisionDetector.obstacles.Length == 20 && collisionDetector.sensitivity == 2
      ensures forall i :: 0 <= i < collisionDetector.obstacles.Length ==>
                Drawable(collisionDetector.obstacles[i].x, bufferWidth) &&
                Drawable(collisionDetector.obstacles[i].y, bufferHeight)
      ensures player.State() == INITIAL.(speed := 3)
    {
      var generator := new ObstacleGenerator(bufferHeight, bufferWidth);
      var obstacles := generator.GenerateObstacles(20);
      var detector := new CollisionDetector(obstacles);
      detector.SetSensitivity(2);
      var p := new Player(detector, bufferWidth, bufferHeight);
      p.SetMovementSpeed(3);
      p.Display();
      obstacleGenerator := generator;
      collisionDetector := detector;
      player := p;
    }

    /** One pass of the input loop on the key read. */
    method UserInputEventLoop(key: char) returns (rePrint: bool)
      requires Valid()
      modifies player
      ensures Valid()
      ensures (player.State(), rePrint) == Step(ArenaOf(), old(player.State()), key)
    {
      rePrint := true;
      match key {
        case 'w' => player.MoveUp();
        case 's' => player.MoveDown();
        case 'd' => player.MoveRight();
        case 'a' => player.MoveLeft();
        case _ => rePrint := false;
      }
      if rePrint {
        player.Display();
      }
    }
  }
}
