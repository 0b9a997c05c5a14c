/** The player: a position on the console grid, the position drawn last,
    and a speed, changed by four guarded moves. */
module Movement {
  import opened Int32
  import opened Obstacles
  import opened Collision

  datatype Direction = Left | Right | Up | Down

  /** Everything a move consults besides the player: the detector's
      obstacles and sensitivity, and the console buffer's size. */
  datatype Arena = Arena(obstacles: seq<Obstacle>, sensitivity: int32, width: int32, height: int32)

  /** The player's fields POS_X, POS_Y, PREVIOUS_POS_X, PREVIOUS_POS_Y
      and MOVEMENT_SPEED. */
  datatype PlayerState = PlayerState(x: int32, y: int32, prevX: int32, prevY: int32, speed: int32)

  /** A freshly constructed player: at the origin, speed 5. */
  const INITIAL: PlayerState := PlayerState(0, 0, 0, 0, 5)

  predicate InBounds(a: Arena, st: PlayerState) {
    0 <= st.x < a.width && 0 <= st.y < a.height
  }

  /** The speed cannot carry a position in the grid past the int range. */
  predicate SpeedFits(a: Arena, speed: int32) {
    0 <= speed && speed as int + a.width as int <= TWO_31 && speed as int + a.height as int <= TWO_31
  }

  /** The cell a move tries to reach: one speed-step along one axis. */
  function Candidate(st: PlayerState, d: Direction): (int32, int32) {
    match d
    case Left => (Sub(st.x, st.speed), st.y)
    case Right => (Add(st.x, st.speed), st.y)
    case Up => (st.x, Sub(st.y, st.speed))
    case Down => (st.x, Add(st.y, st.speed))
  }

  /** Each move tests one side of the buffer only: the side it moves
      towards. */
  predicate InsideBuffer(a: Arena, d: Direction, cx: int32, cy: int32) {
    match d
    case Left => cx >= 0
    case Right => cx < a.width
    case Up => cy >= 0
    case Down => cy < a.height
  }

  /** A move commits when its candidate lies inside the buffer and does
      not collide. */
  predicate Accepts(a: Arena, st: PlayerState, d: Direction) {
    var (cx, cy) := Candidate(st, d);
    InsideBuffer(a, d, cx, cy) && !Collides(a.obstacles, a.sensitivity, cx, cy)
  }

  function Move(a: Arena, st: PlayerState, d: Direction): PlayerState {
    var (cx, cy) := Candidate(st, d);
    if Accepts(a, st, d) then st.(x := cx, y := cy) else st
  }

  /** RecordCurrentPosition: the current position becomes the previous one. */
  function Record(st: PlayerState): PlayerState {
    st.(prevX := st.x, prevY := st.y)
  }

  /** A move changes only the coordinate of its own axis, by exactly the
      speed when that does not wrap, and only when its guard holds; a
      rejected move leaves every field as it was. */
  lemma MoveEffect(a: Arena, st: PlayerState, d: Direction)
    ensures var r := Move(a, st, d);
      && r.prevX == st.prevX && r.prevY == st.prevY && r.speed == st.speed
      && (d in {Left, Right} ==> r.y == st.y)
      && (d in {Up, Down} ==> r.x == st.x)
      && (!Accepts(a, st, d) ==> r == st)
      && (Accepts(a, st, d) ==> (r.x, r.y) == Candidate(st, d))
      && (Accepts(a, st, d) && d == Left && Fits(st.x as int - st.speed as int) ==> r.x as int == st.x as int - st.speed as int)
      && (Accepts(a, st, d) && d == Right && Fits(st.x as int + st.speed as int) ==> r.x as int == st.x as int + st.speed as int)
      && (Accepts(a, st, d) && d == Up && Fits(st.y as int - st.speed as int) ==> r.y as int == st.y as int - st.speed as int)
      && (Accepts(a, st, d) && d == Down && Fits(st.y as int + st.speed as int) ==> r.y as int == st.y as int + st.speed as int)
  {
  }

  /** A move is rejected exactly when its candidate is outside the buffer
      on the side it moves towards, or collides. */
  lemma RejectedIff(a: Arena, st: PlayerState, d: Direction)
    ensures var (cx, cy) := Candidate(st, d);
      !Accepts(a, st, d) <==>
        (!InsideBuffer(a, d, cx, cy) || exists i :: 0 <= i < |a.obstacles| && HitBy(a.obstacles[i], a.sensitivity, cx, cy))
  {
  }

  /** With a non-negative speed that cannot wrap, every move keeps the
      position inside `[0, width) x [0, height)`. */
  lemma MoveKeepsBounds(a: Arena, st: PlayerState, d: Direction)
    requires InBounds(a, st) && SpeedFits(a, st.speed)
    ensures InBounds(a, Move(a, st, d))
  {
  }

  lemma RecordEffect(st: PlayerState)
    ensures Record(st).prevX == st.x && Record(st).prevY == st.y
    ensures Record(st).x == st.x && Record(st).y == st.y && Record(st).speed == st.speed
    ensures Record(Record(st)) == Record(st)
  {
  }

  lemma InitialInBounds(a: Arena)
    requires a.width >= 1 && a.height >= 1
    ensures InBounds(a, INITIAL)
  {
  }

  /** Obstacle at (10,10), sensitivity 2, speed 5: from (6,10) the move
      right is rejected (11 is in the zone), from (7,10) it commits to
      (12,10), hopping over the obstacle, since only the landing cell is
      tested. */
  lemma MoveRightNearObstacle(width: int32, height: int32)
    requires width > 12 && height > 10
    ensures Move(Arena([Obstacle(10, 10)], 2, width, height), PlayerState(6, 10, 0, 0, 5), Right)
            == PlayerState(6, 10, 0, 0, 5)
    ensures Move(Arena([Obstacle(10, 10)], 2, width, height), PlayerState(7, 10, 0, 0, 5), Right)
            == PlayerState(12, 10, 0, 0, 5)
  {
  }

  /** The bound in MoveKeepsBounds is needed: a negative speed lets a move
      left pass the right edge, since it only tests `>= 0` ... */
  lemma NegativeSpeedLeavesGrid()
    ensures var a := Arena([], 2, 3, 3);
      InBounds(a, PlayerState(0, 0, 0, 0, -5)) && !InBounds(a, Move(a, PlayerState(0, 0, 0, 0, -5), Left))
  {
  }

  /** ... and a speed so large that `x + speed` wraps lets a move right
      land on a negative x, which passes its `< width` test. */
  lemma WrappingSpeedLeavesGrid()
    ensures var a := Arena([], 2, 80, 25);
      InBounds(a, PlayerState(1, 0, 0, 0, MAX_VALUE)) && Move(a, PlayerState(1, 0, 0, 0, MAX_VALUE), Right).x == MIN_VALUE
  {
  }

  /** The start position is not checked against the obstacles. */
  lemma StartMayCollide()
    ensures Collides([Obstacle(0, 0)], 2, INITIAL.x, INITIAL.y)
  {
  }

  class Player {
    const detector: CollisionDetector
    /** Console.BufferWidth and Console.BufferHeight, fixed for the run. */
    const bufferWidth: int32
    const bufferHeight: int32

    var movementSpeed: int32
    var posX: int32
    var posY: int32
    var previousPosX: int32
    var previousPosY: int32

    function State(): PlayerState
      reads this
    {
      PlayerState(posX, posY, previousPosX, previousPosY, movementSpeed)
    }

    ghost function ArenaOf(): Arena
      reads this, detector, detector.obstacles
    {
      Arena(detector.obstacles[..], detector.sensitivity, bufferWidth, bufferHeight)
    }

    constructor (detector: CollisionDetector, bufferWidth: int32, bufferHeight: int32)
      ensures this.detector == detector
      ensures this.bufferWidth == bufferWidth && this.bufferHeight == bufferHeight
      ensures State() == INITIAL
    {
      this.detector := detector;
      this.bufferWidth := bufferWidth;
      this.bufferHeight := bufferHeight;
      movementSpeed := 5;
      posX, posY := 0, 0;
      previousPosX, previousPosY := 0, 0;
    }

    method SetMovementSpeed(speed: int32)
      modifies this`movementSpeed
      ensures movementSpeed == speed
    {
      movementSpeed := speed;
    }

    method MoveLeft()
      modifies this`posX
      ensures var newPos := Sub(old(posX), movementSpeed);
        posX == if newPos >= 0 && !detector.DoesCollide(newPos, posY) then newPos else old(posX)
      ensures State() == Move(ArenaOf(), old(State()), Left)
    {
      var newPos := Sub(posX, movementSpeed);
      if newPos >= 0 && !detector.DoesCollide(newPos, posY) {
        posX := newPos;
      }
    }

    method MoveRight()
      modifies this`posX
      ensures var newPos := Add(old(posX), movementSpeed);
        posX == if newPos < bufferWidth && !detector.DoesCollide(newPos, posY) then newPos else old(posX)
      ensures State() == Move(ArenaOf(), old(State()), Right)
    {
      var newPos := Add(posX, movementSpeed);
      if newPos < bufferWidth && !detector.DoesCollide(newPos, posY) {
        posX := newPos;
      }
    }

    method MoveUp()
      modifies this`posY
      ensures var newPos := Sub(old(posY), movementSpeed);
        posY == if newPos >= 0 && !detector.DoesCollide(posX, newPos) then newPos else old(posY)
      ensures State() == Move(ArenaOf(), old(State()), Up)
    {
      var newPos := Sub(posY, movementSpeed);
      if newPos >= 0 && !detector.DoesCollide(posX, newPos) {
        posY := newPos;
      }
    }

    method MoveDown()
      modifies this`posY
      ensures var newPos := Add(old(posY), movementSpeed);
        posY == if newPos < bufferHeight && !detector.DoesCollide(posX, newPos) then newPos else old(posY)
      ensures State() == Move(ArenaOf(), old(State()), Down)
    {
      var newPos := Add(posY, movementSpeed);
      if newPos < bufferHeight && !detector.DoesCollide(posX, newPos) {
        posY := newPos;
      }
    }

    method RecordCurrentPosition()
      modifies this`previousPosX, this`previousPosY
      ensures previousPosX == posX && previousPosY == posY
      ensures State() == Record(old(State()))
    {
      previousPosX := posX;
      previousPosY := posY;
    }

    /** Erases the glyph at the previous position and draws it at the
        current one (console output, not modelled), then records the
        current position. */
    method Display()
      modifies this`previousPosX, this`previousPosY
      ensures previousPosX == posX && previousPosY == posY
      ensures State() == Record(old(State()))
    {
      RecordCurrentPosition();
    }
  }
}
