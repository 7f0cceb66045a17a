/**
 Kinematics of the fighting game: gravity, snapping to the floor, clamping to
 the arena, the axis-aligned overlap test and the symmetric push-apart of two
 overlapping bodies. Every operation is a pure function from the old body (or
 pair of bodies) to the new one.
 */
module Physics {

  /** A 2D vector, used for positions and velocities. */
  datatype Vec = Vec(x: real, y: real)

  /** Componentwise sum; the game integrates a position by adding the velocity to it. */
  function Add(a: Vec, b: Vec): Vec
  {
    Vec(a.x + b.x, a.y + b.y)
  }

  const Zero: Vec := Vec(0.0, 0.0)

  /** Vectors under `Add` form a commutative group: the order of the moves does not matter. */
  lemma AddLaws(a: Vec, b: Vec, c: Vec)
    ensures Add(a, b) == Add(b, a)
    ensures Add(Add(a, b), c) == Add(a, Add(b, c))
    ensures Add(a, Zero) == a
    ensures Add(a, Vec(-a.x, -a.y)) == Zero
  {
  }

  /** The physical part of an entity: top-left corner, velocity, box size and ground contact. */
  datatype Body = Body(position: Vec, velocity: Vec, width: real, height: real, isGrounded: bool)

  /** An axis-aligned rectangle given by its top-left corner and size (y grows downwards). */
  datatype Rect = Rect(x: real, y: real, width: real, height: real)

  /** Velocity added to `velocity.y` on every step. */
  const Gravity: real := 0.8
  /** The y coordinate of the floor; bodies stand with their bottom edge on it. */
  const GroundY: real := 620.0

  function Abs(x: real): (r: real)
    ensures r >= 0.0 && (r == x || r == -x)
  {
    if x < 0.0 then -x else x
  }

  function Clamp(x: real, lo: real, hi: real): (r: real)
    requires lo <= hi
    ensures lo <= r <= hi
    ensures lo <= x <= hi ==> r == x
  {
    if x < lo then lo else if x > hi then hi else x
  }

  /** The collision rectangle of a body. */
  function BoxOf(b: Body): Rect
  {
    Rect(b.position.x, b.position.y, b.width, b.height)
  }

  /** Horizontal centre of a body. */
  function CentreX(b: Body): real
  {
    b.position.x + b.width / 2.0
  }

  // ---------------------------------------------------------------------------
  // Gravity

  /** Adds `Gravity` to the vertical velocity; there is no cap on the fall speed. */
  function ApplyGravity(b: Body): (r: Body)
    ensures r.velocity.y - b.velocity.y == Gravity
    ensures r.position == b.position && r.velocity.x == b.velocity.x
    ensures r.width == b.width && r.height == b.height && r.isGrounded == b.isGrounded
  {
    b.(velocity := b.velocity.(y := b.velocity.y + Gravity))
  }

  function GravitySteps(b: Body, n: nat): Body
  {
    if n == 0 then b else ApplyGravity(GravitySteps(b, n - 1))
  }

  /** Gravity alone accelerates without bound: n applications add exactly n times `Gravity`. */
  lemma {:induction false} GravityAccumulates(b: Body, n: nat)
    ensures GravitySteps(b, n).velocity.y == b.velocity.y + (n as real) * Gravity
    ensures GravitySteps(b, n).position == b.position
  {
    if n > 0 {
      GravityAccumulates(b, n - 1);
    }
  }

  // ---------------------------------------------------------------------------
  // Ground contact

  /** True when the bottom edge of the body is at or below the floor. */
  predicate TouchesGround(b: Body)
  {
    b.position.y + b.height >= GroundY
  }

  /**
   Snaps a body whose bottom edge reached the floor back onto it, stopping its
   vertical motion; otherwise only records that it is airborne. The grounded
   flag is recomputed from scratch on every call.
   */
  function CheckGroundCollisions(b: Body): (r: Body)
    ensures r.isGrounded <==> TouchesGround(b)
    ensures r.position.y + r.height <= GroundY
    ensures r.isGrounded ==> r.position.y + r.height == GroundY && r.velocity.y == 0.0
    ensures !r.isGrounded ==> r.position == b.position && r.velocity == b.velocity
    ensures r.position.x == b.position.x && r.velocity.x == b.velocity.x
    ensures r.width == b.width && r.height == b.height
  {
    if b.position.y + b.height >= GroundY then
      b.(position := b.position.(y := GroundY - b.height),
         velocity := b.velocity.(y := 0.0),
         isGrounded := true)
    else
      b.(isGrounded := false)
  }

  /** A second ground check right after the first changes nothing. */
  lemma GroundCheckIdempotent(b: Body)
    ensures CheckGroundCollisions(CheckGroundCollisions(b)) == CheckGroundCollisions(b)
  {
  }

  // ---------------------------------------------------------------------------
  // Arena bounds

  predicate InArena(b: Body, arenaWidth: real)
  {
    0.0 <= b.position.x && b.position.x + b.width <= arenaWidth
  }

  /**
   Clamps the body horizontally into [0, arenaWidth]. Each of the two walls is
   tested in turn and a clamp zeroes the horizontal velocity. When the body is
   wider than the arena the right-hand clamp is applied last and wins.
   */
  function CheckBounds(b: Body, arenaWidth: real): (r: Body)
    ensures b.width <= arenaWidth ==> InArena(r, arenaWidth)
    ensures b.width <= arenaWidth ==> r.position.x == Clamp(b.position.x, 0.0, arenaWidth - b.width)
    ensures InArena(b, arenaWidth) ==> r == b
    ensures !InArena(b, arenaWidth) ==> r.velocity.x == 0.0
    ensures r.position.y == b.position.y && r.velocity.y == b.velocity.y
    ensures r.width == b.width && r.height == b.height && r.isGrounded == b.isGrounded
  {
    var l := if b.position.x < 0.0
             then b.(position := b.position.(x := 0.0), velocity := b.velocity.(x := 0.0))
             else b;
    if l.position.x + l.width > arenaWidth
    then l.(position := l.position.(x := arenaWidth - l.width), velocity := l.velocity.(x := 0.0))
    else l
  }

  // ---------------------------------------------------------------------------
  // Overlap

  /** Strict axis-aligned overlap: rectangles that only share an edge do not overlap. */
  predicate Overlaps(r1: Rect, r2: Rect)
  {
    && r1.x < r2.x + r2.width
    && r1.x + r1.width > r2.x
    && r1.y < r2.y + r2.height
    && r1.y + r1.height > r2.y
  }

  /** The collision test between two bodies, on their collision rectangles. */
  predicate CheckCollision(a: Body, b: Body)
  {
    Overlaps(BoxOf(a), BoxOf(b))
  }

  /** A point strictly inside a rectangle. */
  predicate Inside(p: Vec, r: Rect)
  {
    r.x < p.x < r.x + r.width && r.y < p.y < r.y + r.height
  }

  /** The reference meaning of overlap: the two rectangles share an interior point. */
  ghost predicate ShareInteriorPoint(r1: Rect, r2: Rect)
  {
    exists p: Vec :: Inside(p, r1) && Inside(p, r2)
  }

  /**
   For rectangles of positive size the four-comparison test is exactly "some
   point lies strictly inside both", so it is symmetric and rectangles that
   merely touch along an edge do not overlap.
   */
  lemma OverlapsMeansSharedPoint(r1: Rect, r2: Rect)
    requires r1.width > 0.0 && r1.height > 0.0 && r2.width > 0.0 && r2.height > 0.0
    ensures Overlaps(r1, r2) <==> ShareInteriorPoint(r1, r2)
    ensures Overlaps(r1, r2) <==> Overlaps(r2, r1)
    ensures r1.x + r1.width == r2.x || r2.x + r2.width == r1.x ==> !Overlaps(r1, r2)
    ensures r1.y + r1.height == r2.y || r2.y + r2.height == r1.y ==> !Overlaps(r1, r2)
  {
    if Overlaps(r1, r2) {
      var loX := if r1.x < r2.x then r2.x else r1.x;
      var hiX := if r1.x + r1.width < r2.x + r2.width then r1.x + r1.width else r2.x + r2.width;
      var loY := if r1.y < r2.y then r2.y else r1.y;
      var hiY := if r1.y + r1.height < r2.y + r2.height then r1.y + r1.height else r2.y + r2.height;
      var p := Vec((loX + hiX) / 2.0, (loY + hiY) / 2.0);
      assert Inside(p, r1) && Inside(p, r2);
    }
    if ShareInteriorPoint(r1, r2) {
      var p: Vec :| Inside(p, r1) && Inside(p, r2);
      assert Overlaps(r1, r2);
    }
  }

  // ---------------------------------------------------------------------------
  // Collision resolution

  datatype BodyPair = BodyPair(first: Body, second: Body)

  /** `r` differs from `b` at most in `position.x`. */
  predicate OnlyXMoved(b: Body, r: Body)
  {
    && r.position.y == b.position.y
    && r.velocity == b.velocity
    && r.width == b.width && r.height == b.height && r.isGrounded == b.isGrounded
  }

  /**
   Pushes two bodies whose centres are closer than the sum of their half-widths
   apart along x, each by half the overlap; the first goes right when the
   centres coincide. Velocities are not touched. Afterwards the two bodies no
   longer overlap, whatever their sizes.
   */
  function ResolveCollision(a: Body, b: Body): (r: BodyPair)
    ensures OnlyXMoved(a, r.first) && OnlyXMoved(b, r.second)
    ensures r.first.position.x - a.position.x == -(r.second.position.x - b.position.x)
    ensures Abs(CentreX(a) - CentreX(b)) < (a.width + b.width) / 2.0 ==>
              Abs(CentreX(r.first) - CentreX(r.second)) == (a.width + b.width) / 2.0
    ensures Abs(CentreX(a) - CentreX(b)) >= (a.width + b.width) / 2.0 ==> r == BodyPair(a, b)
    ensures CentreX(a) == CentreX(b) && a.width + b.width > 0.0 ==>
              r.first.position.x > a.position.x && r.second.position.x < b.position.x
    ensures CentreX(a) < CentreX(b) ==> r.first.position.x <= a.position.x
    ensures !CheckCollision(r.first, r.second)
  {
    var c1 := CentreX(a);
    var c2 := CentreX(b);
    var minDist := (a.width + b.width) / 2.0;
    var dist := Abs(c1 - c2);
    if dist < minDist then
      var push := (minDist - dist) / 2.0;
      if c1 < c2 then
        BodyPair(a.(position := a.position.(x := a.position.x - push)),
                 b.(position := b.position.(x := b.position.x + push)))
      else
        BodyPair(a.(position := a.position.(x := a.position.x + push)),
                 b.(position := b.position.(x := b.position.x - push)))
    else
      BodyPair(a, b)
  }
}
