/**
 One fighter: its body, health, attack and dodge state machine, and the
 cosmetic hit-flash and health-bar-shake timers. Timers are in milliseconds;
 positions and velocities are in pixels and pixels per step.
 */
module Player {
  import opened Optional
  import opened Physics
  import opened Durations

  /** The eight keys the two input sets use. */
  datatype Key = KeyA | KeyD | KeyW | KeyE | KeyJ | KeyL | KeyI | KeyO

  /** Which key means which action for a fighter on this step. */
  datatype Controls = Controls(left: Key, right: Key, jump: Key, attack: Key)

  const Width: real := 115.0
  const Height: real := 150.0
  const StartHealth: int := 15

  const MoveSpeed: real := 4.9
  const Acceleration: real := 1.5
  const GroundFriction: real := 0.8
  const AirDrag: real := 0.95
  /** Below this horizontal speed, ground friction stops the fighter dead. */
  const StopSpeed: real := 0.1
  const JumpPower: real := 24.0
  const DodgeSpeed: real := 12.0
  const DodgeTime: real := 300.0

  const AttackCooldown: real := 300.0
  const AttackActive: real := 150.0
  const HitboxWidth: real := 120.0
  const HitboxHeight: real := 150.0
  /** Horizontal gap between the fighter's body and its attack hitbox. */
  const HitboxGap: real := 10.0
  /** How far below the fighter's top edge the attack hitbox starts. */
  const HitboxDrop: real := 50.0

  const KnockbackX: real := 8.0
  const KnockbackUp: real := 5.0
  const HitFlashTime: real := 100.0
  const HealthBarShakeTime: real := 200.0

  datatype Fighter = Fighter(
    body: Body,
    health: int,
    maxHealth: int,
    isAttacking: bool,
    attackCooldown: real,
    attackDuration: real,
    attackHitbox: Option<Rect>,
    hasHitThisAttack: bool,
    hitFlashTimer: real,
    healthBarShake: real,
    facingRight: bool,
    isDodging: bool,
    dodgeDuration: real)

  /**
   The invariant every reachable fighter keeps: health within [0, maxHealth];
   a hitbox exactly while attacking; an attack in progress has active time
   left and a cooldown that outlasts it by the fixed margin; a landed hit
   belongs to the current swing; a dodge in progress has time left; and the
   body keeps its fixed size.
   */
  ghost predicate Valid(f: Fighter)
  {
    && 0 <= f.health <= f.maxHealth
    && (f.isAttacking <==> f.attackHitbox.Some?)
    && (f.isAttacking ==> f.attackDuration > 0.0)
    && (f.isAttacking ==> f.attackCooldown == f.attackDuration + (AttackCooldown - AttackActive))
    && (f.hasHitThisAttack ==> f.isAttacking)
    && (f.isDodging ==> f.dodgeDuration > 0.0)
    && f.body.width == Width && f.body.height == Height
  }

  /** The attack part of a fighter's state. */
  predicate SameAttackState(f: Fighter, g: Fighter)
  {
    && g.isAttacking == f.isAttacking
    && g.attackCooldown == f.attackCooldown
    && g.attackDuration == f.attackDuration
    && g.attackHitbox == f.attackHitbox
    && g.hasHitThisAttack == f.hasHitThisAttack
  }

  /** A new fighter standing at (x, y), at full health, facing right and idle. */
  function Spawn(x: real, y: real): (f: Fighter)
    ensures Valid(f)
    ensures f.health == f.maxHealth == StartHealth
    ensures !f.isAttacking && !f.isDodging && !f.hasHitThisAttack && f.facingRight
    ensures f.body.position == Vec(x, y) && f.body.velocity == Vec(0.0, 0.0) && !f.body.isGrounded
  {
    Fighter(Body(Vec(x, y), Vec(0.0, 0.0), Width, Height, false),
            StartHealth, StartHealth, false, 0.0, 0.0, None, false, 0.0, 0.0, true, false, 0.0)
  }

  // ---------------------------------------------------------------------------
  // Per-step update

  /** A timer that counts down only while it is positive. */
  function Countdown(t: real, dt: real): (r: real)
    ensures dt >= 0.0 ==> r <= t
    ensures t <= 0.0 ==> r == t
    ensures t > 0.0 ==> t - r == dt
  {
    if t > 0.0 then t - dt else t
  }

  /**
   The integration step: decrement the running timers, end an attack or a
   dodge whose time is up, then fall, move by the velocity and check the
   floor. The grounded flag afterwards is exactly the result of the floor
   check on the moved body.
   */
  function Update(f: Fighter, dt: real): (r: Fighter)
    ensures r.body.isGrounded <==>
              f.body.position.y + f.body.velocity.y + Gravity + f.body.height >= GroundY
    ensures r.body.position.y + r.body.height <= GroundY
    ensures r.body.position.x == f.body.position.x + f.body.velocity.x
    ensures r.body.velocity.x == f.body.velocity.x
    ensures !r.body.isGrounded ==> r.body.velocity.y == f.body.velocity.y + Gravity
    ensures r.isAttacking <==> f.isAttacking && r.attackDuration > 0.0
    ensures r.hasHitThisAttack <==> f.hasHitThisAttack && r.attackDuration > 0.0
    ensures r.isDodging <==> f.isDodging && r.dodgeDuration > 0.0
    ensures r.body.isGrounded ==>
              r.body.position.y == GroundY - r.body.height && r.body.velocity.y == 0.0
    ensures !r.body.isGrounded ==>
              r.body.position.y == f.body.position.y + f.body.velocity.y + Gravity
    ensures r.attackCooldown == Countdown(f.attackCooldown, dt)
    ensures r.attackDuration == Countdown(f.attackDuration, dt)
    ensures r.dodgeDuration == Countdown(f.dodgeDuration, dt)
    ensures r.hitFlashTimer == Countdown(f.hitFlashTimer, dt)
    ensures r.healthBarShake == Countdown(f.healthBarShake, dt)
    ensures r.attackHitbox == if r.attackDuration <= 0.0 then None else f.attackHitbox
    ensures r.body.width == f.body.width && r.body.height == f.body.height
    ensures dt >= 0.0 ==> r.attackCooldown <= f.attackCooldown && r.attackDuration <= f.attackDuration
    ensures dt >= 0.0 ==> r.hitFlashTimer <= f.hitFlashTimer && r.healthBarShake <= f.healthBarShake
    ensures r.health == f.health && r.maxHealth == f.maxHealth && r.facingRight == f.facingRight
    ensures Valid(f) ==> Valid(r)
  {
    var cooldown := Countdown(f.attackCooldown, dt);
    var active := Countdown(f.attackDuration, dt);
    var dodge := Countdown(f.dodgeDuration, dt);
    var ended := active <= 0.0;
    var timed := f.(
      attackCooldown := cooldown,
      attackDuration := active,
      hitFlashTimer := Countdown(f.hitFlashTimer, dt),
      healthBarShake := Countdown(f.healthBarShake, dt),
      dodgeDuration := dodge,
      isAttacking := if ended then false else f.isAttacking,
      attackHitbox := if ended then None else f.attackHitbox,
      hasHitThisAttack := if ended then false else f.hasHitThisAttack,
      isDodging := if dodge <= 0.0 then false else f.isDodging);
    var falling := ApplyGravity(f.body.(isGrounded := false));
    var moved := falling.(position := Add(falling.position, falling.velocity));
    timed.(body := CheckGroundCollisions(moved))
  }

  // ---------------------------------------------------------------------------
  // Attack

  /** An attack can start only with the cooldown over and no swing in progress. */
  predicate CanAttack(f: Fighter)
  {
    !(f.attackCooldown > 0.0 || f.isAttacking)
  }

  /**
   The attack hitbox: 120 by 150, starting 50 below the fighter's top, placed
   10 beyond the leading edge. It never overlaps the attacker's own body.
   */
  function HitboxFor(b: Body, facingRight: bool): (h: Rect)
    ensures h.width == HitboxWidth && h.height == HitboxHeight
    ensures h.y == b.position.y + HitboxDrop
    ensures facingRight ==> h.x - (b.position.x + b.width) == HitboxGap
    ensures !facingRight ==> b.position.x - (h.x + h.width) == HitboxGap
    ensures !Overlaps(h, BoxOf(b))
  {
    var x := if facingRight then b.position.x + b.width + HitboxGap
             else b.position.x - HitboxWidth - HitboxGap;
    Rect(x, b.position.y + HitboxDrop, HitboxWidth, HitboxHeight)
  }

  /**
   Starts a swing unless one is running or the cooldown has not run out:
   attacking, a fresh cooldown that outlasts the active window, no hit landed
   yet, and a hitbox in front of the fighter.
   */
  function Attack(f: Fighter): (r: Fighter)
    ensures !CanAttack(f) ==> r == f
    ensures CanAttack(f) ==>
              && r.isAttacking && !r.hasHitThisAttack
              && r.attackCooldown == AttackCooldown && r.attackDuration == AttackActive
              && r.attackHitbox == Some(HitboxFor(f.body, f.facingRight))
    ensures r.body == f.body && r.health == f.health && r.facingRight == f.facingRight
    ensures r.isDodging == f.isDodging && r.dodgeDuration == f.dodgeDuration
    ensures !CanAttack(r)
    ensures Valid(f) ==> Valid(r)
  {
    if f.attackCooldown > 0.0 || f.isAttacking then f
    else
      f.(isAttacking := true,
         attackCooldown := AttackCooldown,
         attackDuration := AttackActive,
         hasHitThisAttack := false,
         attackHitbox := Some(HitboxFor(f.body, f.facingRight)))
  }

  function UpdateAll(f: Fighter, dts: seq<real>): Fighter
    decreases |dts|
  {
    if |dts| == 0 then f else UpdateAll(Update(f, dts[0]), dts[1..])
  }

  /**
   Left alone, a fighter keeps its horizontal speed from frame to frame, so
   after n updates it has moved n times that speed along x.
   */
  lemma {:induction false} HorizontalDrift(f: Fighter, dts: seq<real>)
    ensures UpdateAll(f, dts).body.velocity.x == f.body.velocity.x
    ensures UpdateAll(f, dts).body.position.x == f.body.position.x + (|dts| as real) * f.body.velocity.x
    decreases |dts|
  {
    if |dts| > 0 {
      HorizontalDrift(Update(f, dts[0]), dts[1..]);
    }
  }

  /**
   While less time has passed than the cooldown left, the cooldown is still
   running, so a second attack in that time is refused.
   */
  lemma {:induction false} NoAttackDuringCooldown(f: Fighter, dts: seq<real>)
    requires AllNonNegative(dts)
    requires Sum(dts) < f.attackCooldown
    ensures UpdateAll(f, dts).attackCooldown == f.attackCooldown - Sum(dts)
    ensures !CanAttack(UpdateAll(f, dts))
    decreases |dts|
  {
    if |dts| > 0 {
      SumNonNegative(dts[1..]);
      var g := Update(f, dts[0]);
      assert g.attackCooldown == f.attackCooldown - dts[0];
      NoAttackDuringCooldown(g, dts[1..]);
    }
  }

  /** A swing that has just started blocks every further attack for 300 ms. */
  lemma AttackThenWait(f: Fighter, dts: seq<real>)
    requires CanAttack(f)
    requires AllNonNegative(dts)
    requires Sum(dts) < AttackCooldown
    ensures !CanAttack(UpdateAll(Attack(f), dts))
    ensures Attack(UpdateAll(Attack(f), dts)) == UpdateAll(Attack(f), dts)
  {
    NoAttackDuringCooldown(Attack(f), dts);
  }

  // ---------------------------------------------------------------------------
  // Input

  datatype InputOutcome = InputOutcome(fighter: Fighter, attackStarted: bool)

  /** Ground friction, with slow speeds snapped to a stop. */
  function GroundSlowdown(vx: real): (r: real)
    ensures Abs(r) <= Abs(vx) && r * vx >= 0.0
    ensures r == 0.0 || Abs(r) >= StopSpeed
    ensures Abs(r) <= GroundFriction * Abs(vx)
    ensures Abs(vx) * GroundFriction < StopSpeed ==> r == 0.0
    ensures Abs(vx) * GroundFriction >= StopSpeed ==> r == GroundFriction * vx
  {
    var v := vx * GroundFriction;
    if Abs(v) < StopSpeed then 0.0 else v
  }

  /** The horizontal velocity after input: accelerate, or slow down, then cap at the move speed. */
  function SteerX(vx: real, left: bool, right: bool, grounded: bool): (r: real)
    ensures -MoveSpeed <= r <= MoveSpeed
    ensures left ==> r == Clamp(vx - Acceleration, -MoveSpeed, MoveSpeed)
    ensures !left && right ==> r == Clamp(vx + Acceleration, -MoveSpeed, MoveSpeed)
    ensures !left && !right ==> Abs(r) <= Abs(vx) && r * vx >= 0.0
    ensures !left && !right && grounded ==> r == 0.0 || Abs(r) >= StopSpeed
    ensures !left && !right && grounded ==> r == Clamp(GroundSlowdown(vx), -MoveSpeed, MoveSpeed)
    ensures !left && !right && !grounded ==> r == Clamp(AirDrag * vx, -MoveSpeed, MoveSpeed)
    ensures !left && !right && !grounded ==> Abs(r) <= AirDrag * Abs(vx)
  {
    var v := if left then vx - Acceleration
             else if right then vx + Acceleration
             else if grounded then GroundSlowdown(vx)
             else vx * AirDrag;
    var capped := if v > MoveSpeed then MoveSpeed else v;
    if capped < -MoveSpeed then -MoveSpeed else capped
  }

  /** The fighter stays the same apart from its velocity, facing and grounded flag. */
  predicate OnlyMotionChanged(f: Fighter, r: Fighter)
  {
    && SameAttackState(f, r)
    && r.health == f.health && r.maxHealth == f.maxHealth
    && r.isDodging == f.isDodging && r.dodgeDuration == f.dodgeDuration
    && r.body.position == f.body.position
    && r.body.width == f.body.width && r.body.height == f.body.height
  }

  /** Horizontal steering: the new speed from `SteerX`, and the facing set by the key pressed. */
  function Walk(f: Fighter, left: bool, right: bool): (r: Fighter)
    ensures r.body.velocity.x == SteerX(f.body.velocity.x, left, right, f.body.isGrounded)
    ensures r.facingRight == if left then false else if right then true else f.facingRight
    ensures r.body.velocity.y == f.body.velocity.y && r.body.isGrounded == f.body.isGrounded
    ensures OnlyMotionChanged(f, r)
    ensures Valid(f) ==> Valid(r)
  {
    var vx := SteerX(f.body.velocity.x, left, right, f.body.isGrounded);
    var facing := if left then false else if right then true else f.facingRight;
    f.(body := f.body.(velocity := f.body.velocity.(x := vx)), facingRight := facing)
  }

  /** A jump leaves the ground at speed 24 upwards; it is possible only from the ground. */
  function Jump(f: Fighter, pressed: bool): (r: Fighter)
    ensures pressed && f.body.isGrounded ==> r.body.velocity.y == -JumpPower && !r.body.isGrounded
    ensures !(pressed && f.body.isGrounded) ==> r == f
    ensures r.body.velocity.x == f.body.velocity.x && r.facingRight == f.facingRight
    ensures OnlyMotionChanged(f, r)
    ensures Valid(f) ==> Valid(r)
  {
    if pressed && f.body.isGrounded
    then f.(body := f.body.(velocity := f.body.velocity.(y := -JumpPower), isGrounded := false))
    else f
  }

  /**
   Reads the held keys through the given controls. Nothing happens during a
   dodge. Left wins over right and sets the facing; with neither held the
   fighter slows down (hard on the ground, gently in the air). Jump works only
   from the ground; attack tries to start a swing.
   */
  function HandleInput(f: Fighter, held: set<Key>, controls: Controls): (r: InputOutcome)
    ensures f.isDodging ==> r.fighter == f && !r.attackStarted
    ensures !f.isDodging ==> -MoveSpeed <= r.fighter.body.velocity.x <= MoveSpeed
    ensures !f.isDodging ==>
              r.fighter.body.velocity.x ==
                SteerX(f.body.velocity.x, controls.left in held, controls.right in held, f.body.isGrounded)
    ensures !f.isDodging && controls.left in held ==> !r.fighter.facingRight
    ensures !f.isDodging && controls.left !in held && controls.right in held ==> r.fighter.facingRight
    ensures controls.left !in held && controls.right !in held ==> r.fighter.facingRight == f.facingRight
    ensures !f.isDodging && controls.left !in held && controls.right !in held ==>
              Abs(r.fighter.body.velocity.x) <= Abs(f.body.velocity.x)
    ensures !f.isDodging && controls.jump in held && f.body.isGrounded ==>
              r.fighter.body.velocity.y == -JumpPower && !r.fighter.body.isGrounded
    ensures !(controls.jump in held && f.body.isGrounded) ==>
              r.fighter.body.velocity.y == f.body.velocity.y && r.fighter.body.isGrounded == f.body.isGrounded
    ensures r.attackStarted <==> !f.isDodging && controls.attack in held && CanAttack(f)
    ensures r.attackStarted ==> r.fighter.isAttacking && !r.fighter.hasHitThisAttack
    ensures r.attackStarted ==> r.fighter.attackCooldown == AttackCooldown && r.fighter.attackDuration == AttackActive
    ensures r.attackStarted ==> r.fighter.attackHitbox == Some(HitboxFor(f.body, r.fighter.facingRight))
    ensures r.fighter.isDodging == f.isDodging && r.fighter.dodgeDuration == f.dodgeDuration
    ensures r.fighter.maxHealth == f.maxHealth
    ensures r.fighter.hitFlashTimer == f.hitFlashTimer && r.fighter.healthBarShake == f.healthBarShake
    ensures !r.attackStarted ==> SameAttackState(f, r.fighter)
    ensures r.fighter.body.position == f.body.position && r.fighter.health == f.health
    ensures Valid(f) ==> Valid(r.fighter)
  {
    if f.isDodging then InputOutcome(f, false)
    else
      var walked := Walk(f, controls.left in held, controls.right in held);
      var jumped := Jump(walked, controls.jump in held);
      if controls.attack in held then InputOutcome(Attack(jumped), CanAttack(jumped))
      else InputOutcome(jumped, false)
  }

  // ---------------------------------------------------------------------------
  // Dodge

  /**
   Starts a 300 ms dodge backwards (away from the facing direction) at dodge
   speed, unless a dodge is still running.
   */
  function Dodge(f: Fighter): (r: Fighter)
    ensures f.dodgeDuration > 0.0 ==> r == f
    ensures f.dodgeDuration <= 0.0 ==> r.isDodging && r.dodgeDuration == DodgeTime
    ensures f.dodgeDuration <= 0.0 ==> Abs(r.body.velocity.x) == DodgeSpeed
    ensures f.dodgeDuration <= 0.0 ==> (r.body.velocity.x < 0.0 <==> f.facingRight)
    ensures SameAttackState(f, r) && r.health == f.health && r.body.position == f.body.position
    ensures Valid(f) ==> Valid(r)
  {
    if f.dodgeDuration > 0.0 then f
    else
      var direction := if f.facingRight then -1.0 else 1.0;
      f.(isDodging := true,
         dodgeDuration := DodgeTime,
         body := f.body.(velocity := f.body.velocity.(x := direction * DodgeSpeed)))
  }

  /** A dodge is a commitment: input is ignored until the dodge has run out. */
  lemma DodgeIgnoresInput(f: Fighter, held: set<Key>, controls: Controls)
    requires f.dodgeDuration <= 0.0
    ensures HandleInput(Dodge(f), held, controls).fighter == Dodge(f)
  {
  }

  // ---------------------------------------------------------------------------
  // Combat

  datatype HitOutcome = HitOutcome(hit: bool, attacker: Fighter)

  /**
   Tests this fighter's swing against the target. Only a grounded target can
   be hit, only by a swing in progress that has not hit yet, and only if the
   hitbox overlaps the target's body. A hit is recorded on the swing.
   */
  function CheckAttackHit(f: Fighter, target: Fighter): (r: HitOutcome)
    ensures !target.body.isGrounded || !f.isAttacking || f.attackHitbox.None? || f.hasHitThisAttack ==>
              !r.hit
    ensures target.body.isGrounded && f.isAttacking && f.attackHitbox.Some? && !f.hasHitThisAttack ==>
              (r.hit <==> Overlaps(f.attackHitbox.value, BoxOf(target.body)))
    ensures r.hit ==> r.attacker == f.(hasHitThisAttack := true)
    ensures !r.hit ==> r.attacker == f
    ensures Valid(f) ==> Valid(r.attacker)
  {
    if !target.body.isGrounded then HitOutcome(false, f)
    else if !f.isAttacking || f.attackHitbox.None? || f.hasHitThisAttack then HitOutcome(false, f)
    else if Overlaps(f.attackHitbox.value, BoxOf(target.body)) then
      HitOutcome(true, f.(hasHitThisAttack := true))
    else HitOutcome(false, f)
  }

  /** A swing that has landed cannot land again, on the same target or any other. */
  lemma OneHitPerSwing(f: Fighter, target: Fighter, next: Fighter)
    requires CheckAttackHit(f, target).hit
    ensures !CheckAttackHit(CheckAttackHit(f, target).attacker, next).hit
  {
  }

  /**
   Takes `damage` off the health, never below zero; flashes and shakes the
   health bar; and knocks the fighter sideways in `direction` with a small
   upward pop, whatever its velocity was.
   */
  function TakeDamage(f: Fighter, damage: int, direction: real): (r: Fighter)
    ensures r.health == if f.health - damage < 0 then 0 else f.health - damage
    ensures damage >= 0 && 0 <= f.health <= f.maxHealth ==> 0 <= r.health <= r.maxHealth
    ensures damage > 0 && f.health > 0 ==> r.health < f.health
    ensures r.body.velocity == Vec(direction * KnockbackX, -KnockbackUp)
    ensures direction > 0.0 ==> r.body.velocity.x > 0.0
    ensures direction < 0.0 ==> r.body.velocity.x < 0.0
    ensures r.hitFlashTimer == HitFlashTime && r.healthBarShake == HealthBarShakeTime
    ensures SameAttackState(f, r) && r.maxHealth == f.maxHealth && r.facingRight == f.facingRight
    ensures r.body.position == f.body.position && r.body.isGrounded == f.body.isGrounded
    ensures r.isDodging == f.isDodging && r.dodgeDuration == f.dodgeDuration
    ensures damage >= 0 && Valid(f) ==> Valid(r)
  {
    var h := f.health - damage;
    f.(health := if h < 0 then 0 else h,
       hitFlashTimer := HitFlashTime,
       healthBarShake := HealthBarShakeTime,
       body := f.body.(velocity := Vec(direction * KnockbackX, -KnockbackUp)))
  }

  /** Dead means out of health; for a valid fighter that is exactly zero health left. */
  function IsDead(f: Fighter): (dead: bool)
    ensures Valid(f) ==> (dead <==> f.health == 0)
    ensures Valid(f) && !dead ==> 1 <= f.health <= f.maxHealth
  {
    f.health <= 0
  }

  function UnitHits(f: Fighter, k: nat, direction: real): Fighter
  {
    if k == 0 then f else TakeDamage(UnitHits(f, k - 1, direction), 1, direction)
  }

  /**
   After k hits of one damage a fighter has max(0, health - k) left, so a
   fighter at 15 dies on exactly the fifteenth hit.
   */
  lemma {:induction false} UnitHitsCountDown(f: Fighter, k: nat, direction: real)
    requires f.health >= 0
    ensures UnitHits(f, k, direction).health == if f.health - k < 0 then 0 else f.health - k
    ensures IsDead(UnitHits(f, k, direction)) <==> k >= f.health
  {
    if k > 0 {
      UnitHitsCountDown(f, k - 1, direction);
    }
  }
}
