# ConsolePacman: movement and collision rules

A model of the one-file console game ConsolePacman. A player moves on a grid of
console cells with the keys w, a, s and d. The grid holds randomly placed static
obstacles. The model covers the rules that decide whether a move happens:

- the per-axis collision window around each obstacle;
- the four guarded moves of the player and the recording of the drawn
  position;
- the generation of the obstacle array;
- one step of the key dispatch loop.

Modules, one per component of `Pacman/Program.cs`, plus shared arithmetic:

- `Int32` (`int32.dfy`): shared arithmetic. C# `int` is modelled as the 32-bit newtype
  `int32`, and
  `Add`/`Sub` wrap around as unchecked C# arithmetic does.
- `Obstacles` (`obstacles.dfy`): the `Obstacle` record, `Random.Next` as a
  nondeterministic choice, and the `ObstacleGenerator` class.
- `Collision` (`collision.dfy`): the zone test and the "any obstacle" scan as
  functions, their lemmas, and the `CollisionDetector` class.
- `Movement` (`player.dfy`): a value model of the player (`PlayerState`,
  `Move`, `Record`), its lemmas, and the `Player` class. Each move method and
  each recording method is proved to compute `Move` or `Record` of its old
  state.
- `Game` (`game.dfy`): the key map, one loop step (`Step`), a run over any
  key sequence (`Run`), and the `Pacman` class.

The console buffer's width and height are constructor parameters fixed for
the whole run. The obstacle array is never written after it is generated
(`Player` methods modify only the player's own fields), so the detector's
functions read it as the sequence `obstacles[..]`.

What the code does at the edges:

- The zone test at `Pacman/Program.cs:61-63` is an open window (`InZone`).
  For `s >= 1`, and when `anchor + s` and `anchor - s` do not wrap, a probe is
  in the zone iff `|probe - anchor| < s`, so neither `anchor + s` nor
  `anchor - s` is in the zone. For `s <= 0`, again when `anchor ± s` do not
  wrap, only the anchor itself is in the zone (the third ensures of
  `InZone`). Next to the int maximum, `anchor + s` wraps and the upper
  half of the window is empty (`ZoneEmptiesAtIntMax`).
- Every committed move lands outside all obstacle zones (`Accepts`), so only
  the start cell, which is never tested, can lie in a zone
  (`StartMayCollide`). Only the landing cell of a move is tested, so the
  player can hop over an obstacle (`MoveRightNearObstacle`).
- Take a detector holding only the obstacle `o`, with `s >= 1`. Then
  `Collides`/`DoesCollide` is false at `(o.x + s, o.y)` and at
  `(o.x - s, o.y)` (`SingleObstacleEdgesFree`). Another obstacle may still
  cover those cells.
- Staying inside the grid needs a speed that is non-negative and small enough
  not to wrap (`SpeedFits`). Without that bound a move can commit an
  off-grid coordinate (`NegativeSpeedLeavesGrid`, `WrappingSpeedLeavesGrid`).
  In C# the cursor assignment that follows the commit then throws, and the
  program ends; the model drops that exception (see "Left out").

## Model

| member | source | states |
|---|---|---|
| `Int32.Add` | Pacman/Program.cs:110 | C# `+` on int: equal to the sum modulo 2^32, exact when the sum fits in 32 bits, and otherwise wrapped past the other operand |
| `Int32.Sub` | Pacman/Program.cs:99 | C# `-` on int: equal to the difference modulo 2^32, exact when the difference fits in 32 bits, and otherwise wrapped |
| `Obstacles.RandomNext` | Pacman/Program.cs:28 | `Random.Next(min, max)` draws some value in `[min, max)`, or returns `min` when the range is empty |
| `Obstacles.ObstacleGenerator.constructor` | Pacman/Program.cs:16-20 | the generator keeps the height and width it is given |
| `Obstacles.ObstacleGenerator.GenerateObstacles` | Pacman/Program.cs:22-31 | a fresh array of exactly `nObstacles` obstacles (one by default), each X drawable from `[0, width)` and each Y from `[0, height)` (0 on an empty axis) |
| `Collision.InZone` | Pacman/Program.cs:59-64 | the anchor is always in its own zone; without wrap-around, for `s >= 1` the probe is in the zone iff `-s < probe - anchor < s` (both ends excluded), and for `s <= 0` iff it equals the anchor |
| `Collision.Collides` | Pacman/Program.cs:66-69 | the scan reports a collision iff some obstacle has the cell in its zone on X and on Y |
| `Collision.ExactHit` | Pacman/Program.cs:59-69 | every obstacle's own cell collides, for any sensitivity, including zero and negative ones |
| `Collision.NoObstaclesNoCollision` | Pacman/Program.cs:66-69 | with no obstacles nothing collides |
| `Collision.SingleObstacleEdgesFree` | Pacman/Program.cs:59-69 | with one obstacle and `s >= 1`, the cells `o.x + s` and `o.x - s` are free, even where the 32-bit sums wrap |
| `Collision.SingleObstacleJustInside` | Pacman/Program.cs:59-69 | with one obstacle, `s > 1` and no wrap-around, the cells `o.x + s - 1` and `o.x - s + 1` collide |
| `Collision.ZoneEmptiesAtIntMax` | Pacman/Program.cs:62 | next to the int maximum `anchor + s` wraps, so the cell just above the anchor is outside its zone |
| `Collision.CollisionDetector.constructor` | Pacman/Program.cs:48-52 | the detector holds the given obstacles, with sensitivity 2 |
| `Collision.CollisionDetector.SetSensitivity` | Pacman/Program.cs:54-57 | the sensitivity becomes the given value, and nothing else changes |
| `Collision.CollisionDetector.DoesCollide` | Pacman/Program.cs:66-69 | true iff some obstacle in the array has the cell in its zone on both axes |
| `Movement.MoveEffect` | Pacman/Program.cs:97-138 | a move changes only its own axis's coordinate. When the guard holds it moves to the candidate cell, which is exactly one speed-step away when that does not wrap. A rejected move changes nothing. |
| `Movement.RejectedIff` | Pacman/Program.cs:97-138 | a move is rejected iff its candidate fails that move's one-sided buffer test, or some obstacle's zone covers the candidate |
| `Movement.MoveKeepsBounds` | Pacman/Program.cs:97-138 | with a non-negative speed that cannot wrap, a position in `[0, width) x [0, height)` stays there after any move |
| `Movement.RecordEffect` | Pacman/Program.cs:147-151 | recording makes the previous position equal the current one, changes nothing else, and is idempotent |
| `Movement.InitialInBounds` | Pacman/Program.cs:76-82 | the start position (0,0) is inside any buffer of at least one cell |
| `Movement.MoveRightNearObstacle` | Pacman/Program.cs:108-117 | obstacle (10,10), sensitivity 2, speed 5: right from (6,10) is rejected, and right from (7,10) lands on (12,10) |
| `Movement.NegativeSpeedLeavesGrid` | Pacman/Program.cs:97-106 | with speed -5, MoveLeft from (0,0) on a 3x3 buffer leaves the grid, because it tests only `>= 0` |
| `Movement.WrappingSpeedLeavesGrid` | Pacman/Program.cs:108-117 | with speed int.MaxValue, MoveRight from x = 1 wraps to int.MinValue and is accepted |
| `Movement.StartMayCollide` | Pacman/Program.cs:78-79 | an obstacle at (0,0) covers the unchecked start position |
| `Movement.Player.constructor` | Pacman/Program.cs:76-90 | a new player is at (0,0), with previous position (0,0) and speed 5, and is tied to the given detector and buffer size |
| `Movement.Player.SetMovementSpeed` | Pacman/Program.cs:92-95 | the speed becomes the given value, and nothing else changes |
| `Movement.Player.MoveLeft` | Pacman/Program.cs:97-106 | X becomes `X - speed` iff that is `>= 0` and does not collide; only X may change; the new state is `Move(.., Left)` |
| `Movement.Player.MoveRight` | Pacman/Program.cs:108-117 | X becomes `X + speed` iff that is `< width` and does not collide; only X may change; the new state is `Move(.., Right)` |
| `Movement.Player.MoveUp` | Pacman/Program.cs:119-127 | Y becomes `Y - speed` iff that is `>= 0` and does not collide; only Y may change; the new state is `Move(.., Up)` |
| `Movement.Player.MoveDown` | Pacman/Program.cs:129-138 | Y becomes `Y + speed` iff that is `< height` and does not collide; only Y may change; the new state is `Move(.., Down)` |
| `Movement.Player.RecordCurrentPosition` | Pacman/Program.cs:147-151 | the previous position becomes the current one; only the two previous fields change |
| `Movement.Player.Display` | Pacman/Program.cs:153-159 | the state effect of a redraw: the previous position becomes the current one |
| `Game.StepDispatch` | Pacman/Program.cs:199-220 | `w`, `s`, `d`, `a` run MoveUp, MoveDown, MoveRight, MoveLeft and then a redraw. Every other key leaves the state unchanged with `rePrint` false. |
| `Game.StepRecords` | Pacman/Program.cs:197-226 | a step never changes the speed, and after a redraw the previous position equals the current one |
| `Game.StepKeepsBounds` | Pacman/Program.cs:193-226 | one loop step keeps an in-grid player in the grid when the speed fits |
| `Game.RunKeepsBounds` | Pacman/Program.cs:229-237 | from an in-grid start, when the speed fits (`SpeedFits`), the player stays in the grid and keeps its speed over any finite sequence of keys |
| `Game.GameStaysOnScreen` | Pacman/Program.cs:175-191 | the game as set up (speed 3, start (0,0)) stays on any console of 1 to int.MaxValue − 2 cells per side, whatever keys are pressed |
| `Game.Pacman.constructor` | Pacman/Program.cs:170-191 | 20 obstacles drawn inside the buffer, sensitivity 2, a player at (0,0) with speed 3, previous position recorded |
| `Game.Pacman.UserInputEventLoop` | Pacman/Program.cs:193-226 | one pass on the key read: the new player state and `rePrint` are exactly `Step` of the old state |

## Left out

- Console output: the cursor moves and writes in the moves, `ErasePreviousPosition`, the drawing in `Display`, `RefreshPosition`, `PlaceObstacles` and `Console.OutputEncoding`. They do not change the game state. They can throw, though: see the next line.
- Movement.NegativeSpeedLeavesGrid and Movement.WrappingSpeedLeavesGrid: in C#, each move assigns the field and then sets `Console.CursorLeft`/`CursorTop` (lines 104, 115, 125, 136). That assignment throws `ArgumentOutOfRangeException` for a coordinate below 0 or at least the buffer size. Nothing catches the exception, so the program ends. The model drops the exception, so `Step` and `Run` go on from the off-grid state. Under `SpeedFits` no move commits an off-grid coordinate (`MoveKeepsBounds`), so the cursor assignment cannot throw there.
- `Console.BufferWidth`/`BufferHeight` as live reads: fixed constructor parameters stand in for them.
- `System.Random` as a generator with its own state: each draw is an arbitrary value in range.
- `Console.ReadKey` and the unbounded `while (true)` in `Run`: the model takes one step on a given character, and `Run` takes a finite sequence of keys.
- The glyph strings (`CHARACTER`, the `avatar` parameter, `Obstacle.Value`): they do not affect behaviour.
- Obstacles.ObstacleGenerator.GenerateObstacles: a negative buffer dimension makes `Random.Next` throw `ArgumentOutOfRangeException`. The model excludes it by a precondition, because console dimensions are never negative.
- Game.Pacman.constructor: requires non-negative buffer dimensions, for the same reason. It also accepts an empty axis (width or height 0). In C#, that axis makes `PlaceObstacles` (line 180, via `SetCursorPosition` at line 37) and `RefreshPosition` (line 188) throw `ArgumentOutOfRangeException`, so no game is built. The model drops that throw and builds the game anyway, with the obstacle coordinates on that axis all 0.
- `Obstacle`'s public setters: nothing sets them after the object initializer at line 28, so obstacles are immutable values.
