/** Obstacles and their random placement on the console grid. */
module Obstacles {
  import opened Int32

  /** The `nObstacles` parameter of GenerateObstacles is a C# `ushort`. */
  newtype uint16 = x: int | 0 <= x < 0x1_0000

  /** An obstacle sits at one grid cell; its glyph plays no part in the
      behaviour and is not modelled. */
  datatype Obstacle = Obstacle(x: int32, y: int32)

  /** `Random.Next(minValue, maxValue)`: some value in the half-open range
      `[minValue, maxValue)`, or `minValue` itself when the range is empty.
      Which value is drawn is left open. A `maxValue` below `minValue`
      raises an exception in .NET; callers never pass one. */
  method RandomNext(minValue: int32, maxValue: int32) returns (v: int32)
    requires minValue <= maxValue
    ensures minValue < maxValue ==> minValue <= v < maxValue
    ensures minValue == maxValue ==> v == minValue
  {
    if minValue == maxValue {
      v := minValue;
    } else {
      v :| minValue <= v < maxValue;
    }
  }

  /** Whether a coordinate drawn by `RandomNext(0, bound)` may take the
      value `v`. */
  predicate Drawable(v: int32, bound: int32) {
    if bound == 0 then v == 0 else 0 <= v < bound
  }

  class ObstacleGenerator {
    const availableHeight: int32
    const availableWidth: int32

    constructor (height: int32, width: int32)
      ensures availableHeight == height && availableWidth == width
    {
      availableHeight := height;
      availableWidth := width;
    }

    /** A fresh array of exactly `nObstacles` obstacles, each at a cell
        drawn from `[0, availableWidth) x [0, availableHeight)`; obstacles
        may coincide. A negative dimension makes the first draw throw. */
    method GenerateObstacles(nObstacles: uint16 := 1) returns (obstacles: array<Obstacle>)
      requires nObstacles > 0 ==> availableWidth >= 0 && availableHeight >= 0
      ensures fresh(obstacles)
      ensures obstacles.Length == nObstacles as int
      ensures forall i :: 0 <= i < obstacles.Length ==>
                Drawable(obstacles[i].x, availableWidth) && Drawable(obstacles[i].y, availableHeight)
    {
      obstacles := new Obstacle[nObstacles];
      for i := 0 to obstacles.Length
        invariant forall k :: 0 <= k < i ==>
                    Drawable(obstacles[k].x, availableWidth) && Drawable(obstacles[k].y, availableHeight)
      {
        var x := RandomNext(0, availableWidth);
        var y := RandomNext(0, availableHeight);
        obstacles[i] := Obstacle(x, y);
      }
    }
  }
}
