/** The collision detector: a per-axis window test around every obstacle. */
module Collision {
  import opened Int32
  import opened Obstacles

  /** Neither `anchor + s` nor `anchor - s` wraps around. */
  predicate NoWrap(anchor: int32, s: int32) {
    Fits(anchor as int + s as int) && Fits(anchor as int - s as int)
  }

  /** `doesFallInZone(anchor, probe)`: the probe is the anchor itself, or
      lies strictly between the anchor and `anchor + s`, or strictly
      between `anchor - s` and the anchor (both bounds in 32-bit
      arithmetic). Away from the ends of the int range this is a
      symmetric open window: `|probe - anchor| < s`, and for `s <= 0`
      only the anchor itself. */
  function InZone(anchor: int32, probe: int32, s: int32): (r: bool)
    ensures probe == anchor ==> r
    ensures NoWrap(anchor, s) && s >= 1 ==>
              (r <==> -(s as int) < probe as int - anchor as int < s as int)
    ensures NoWrap(anchor, s) && s <= 0 ==> (r <==> probe == anchor)
  {
    || probe == anchor
    || (probe > anchor && probe < Add(anchor, s))
    || (probe < anchor && probe > Sub(anchor, s))
  }

  /** The lambda of DoesCollide: the cell is in the obstacle's zone on
      both axes. */
  predicate HitBy(o: Obstacle, s: int32, x: int32, y: int32) {
    InZone(o.x, x, s) && InZone(o.y, y, s)
  }

  /** `obstacles.Any(...)`, scanning the obstacles in order. */
  function Collides(obs: seq<Obstacle>, s: int32, x: int32, y: int32): (r: bool)
    ensures r <==> exists i :: 0 <= i < |obs| && HitBy(obs[i], s, x, y)
  {
    if obs == [] then false
    else if HitBy(obs[0], s, x, y) then true
    else
      var rest := Collides(obs[1..], s, x, y);
      assert forall i :: 1 <= i < |obs| ==> obs[i] == obs[1..][i - 1];
      rest
  }

  /** Exact hit: the cell of any obstacle collides, whatever the
      sensitivity, even zero or negative. */
  lemma ExactHit(obs: seq<Obstacle>, s: int32, i: nat)
    requires i < |obs|
    ensures Collides(obs, s, obs[i].x, obs[i].y)
  {
  }

  /** A detector without obstacles never reports a collision. */
  lemma NoObstaclesNoCollision(s: int32, x: int32, y: int32)
    ensures !Collides([], s, x, y)
  {
  }

  /** For a single obstacle with sensitivity `s >= 1`, neither
      `o.x + s` nor `o.x - s` (in 32-bit arithmetic) is in the zone on X,
      even where those sums wrap. */
  lemma SingleObstacleEdgesFree(o: Obstacle, s: int32)
    requires s >= 1
    ensures !Collides([o], s, Add(o.x, s), o.y)
    ensures !Collides([o], s, Sub(o.x, s), o.y)
  {
  }

  /** Without wrap-around, the zone of a single obstacle on X reaches
      `o.x + s - 1` and `o.x - s + 1` when `s > 1`. */
  lemma SingleObstacleJustInside(o: Obstacle, s: int32)
    requires s >= 1 && NoWrap(o.x, s)
    ensures s > 1 ==> Collides([o], s, Add(o.x, s - 1), o.y)
    ensures s > 1 ==> Collides([o], s, Sub(o.x, s - 1), o.y)
  {
  }

  /** Near the top of the int range `anchor + s` wraps to a negative
      number, so the upper half of the window is empty there: a probe one
      above the anchor is outside a zone of sensitivity 2. */
  lemma ZoneEmptiesAtIntMax()
    ensures !InZone(MAX_VALUE - 1, MAX_VALUE, 2)
  {
  }

  class CollisionDetector {
    /** The obstacles are fixed at construction and never written. */
    const obstacles: array<Obstacle>
    var sensitivity: int32

    constructor (obstacles: array<Obstacle>)
      ensures this.obstacles == obstacles && sensitivity == 2
    {
      this.obstacles := obstacles;
      sensitivity := 2;
    }

    method SetSensitivity(sensitivity: int32)
      modifies this`sensitivity
      ensures this.sensitivity == sensitivity
    {
      this.sensitivity := sensitivity;
    }

    /** Some obstacle has the cell in its zone on X and on Y. */
    function DoesCollide(x: int32, y: int32): (r: bool)
      reads this, obstacles
      ensures r <==> exists i :: 0 <= i < obstacles.Length && HitBy(obstacles[i], sensitivity, x, y)
    {
      Collides(obstacles[..], sensitivity, x, y)
    }
  }
}
