/**
 One match: two fighters, the switch timer, which human drives which fighter,
 and the game-over state. `Update` is one simulation step in the game's fixed
 order: timer and control remap, input, integration, arena bounds, collision,
 the two hit checks, damage, and the win decision.
 */
module Game {
  import opened Optional
  import opened Physics
  import Player
  import SwitchTimer

  /** Width of the arena, the renderer's canvas width. */
  const ArenaWidth: real := 1280.0
  /** Every landed hit deals this much damage. */
  const HitDamage: int := 1

  /** The two humans at the keyboard, named as on the win screen. */
  datatype Controller = Player1 | Player2

  /** The two fighters on screen. */
  datatype Slot = Fighter1 | Fighter2

  /** The keys of the human who starts on fighter 1. */
  const InputSetA: Player.Controls := Player.Controls(Player.KeyA, Player.KeyD, Player.KeyW, Player.KeyE)
  /** The keys of the human who starts on fighter 2. */
  const InputSetB: Player.Controls := Player.Controls(Player.KeyJ, Player.KeyL, Player.KeyI, Player.KeyO)

  datatype Match = Match(
    player1: Player.Fighter,
    player2: Player.Fighter,
    switchTimer: SwitchTimer.Timer,
    controllingPlayer1: bool,
    gameOver: bool,
    winner: Option<Controller>)

  /** What happened during one step; these are the moments the audio listens for. */
  datatype Events = Events(
    switched: bool,
    attackStarted1: bool,
    attackStarted2: bool,
    landed1: bool,
    landed2: bool)

  const NoEvents: Events := Events(false, false, false, false, false)

  datatype StepResult = StepResult(game: Match, events: Events)

  /**
   The match invariant: both fighters valid with the fixed maximum health, the
   timer valid, a winner exactly when the game is over, and the game over only
   when a fighter is dead (while it runs, both are alive).
   */
  ghost predicate Valid(m: Match)
  {
    && Player.Valid(m.player1) && Player.Valid(m.player2)
    && m.player1.maxHealth == Player.StartHealth && m.player2.maxHealth == Player.StartHealth
    && SwitchTimer.Valid(m.switchTimer)
    && (m.gameOver <==> m.winner.Some?)
    && (m.gameOver <==> Player.IsDead(m.player1) || Player.IsDead(m.player2))
  }

  /** The match as the game builds it: fighters at (200, 300) and (1000, 300), human 1 on fighter 1. */
  function NewMatch(): (m: Match)
    ensures Valid(m)
    ensures m.player1.health == m.player2.health == Player.StartHealth
    ensures m.controllingPlayer1 && !m.gameOver
    ensures m.switchTimer.currentInterval == SwitchTimer.StartInterval
  {
    Match(Player.Spawn(200.0, 300.0), Player.Spawn(1000.0, 300.0), SwitchTimer.New(), true, false, None)
  }

  // ---------------------------------------------------------------------------
  // Who controls what

  /** The human currently driving a fighter. */
  function ControllerOf(controllingPlayer1: bool, s: Slot): Controller
  {
    if (s == Fighter1) == controllingPlayer1 then Player1 else Player2
  }

  /** Each human owns one input set for the whole match. */
  function KeysOf(c: Controller): Player.Controls
  {
    if c == Player1 then InputSetA else InputSetB
  }

  /** The input set a fighter receives under the current mapping. */
  function ControlsFor(controllingPlayer1: bool, s: Slot): (c: Player.Controls)
    ensures c == InputSetA || c == InputSetB
    ensures c == KeysOf(ControllerOf(controllingPlayer1, s))
  {
    if controllingPlayer1 then (if s == Fighter1 then InputSetA else InputSetB)
    else (if s == Fighter1 then InputSetB else InputSetA)
  }

  /** The two fighters never share an input set, and no key belongs to both sets. */
  lemma ControlsAreDisjoint(controllingPlayer1: bool)
    ensures ControlsFor(controllingPlayer1, Fighter1) != ControlsFor(controllingPlayer1, Fighter2)
    ensures ControllerOf(controllingPlayer1, Fighter1) != ControllerOf(controllingPlayer1, Fighter2)
    ensures KeySet(ControlsFor(controllingPlayer1, Fighter1)) !! KeySet(ControlsFor(controllingPlayer1, Fighter2))
  {
  }

  function KeySet(c: Player.Controls): set<Player.Key>
  {
    {c.left, c.right, c.jump, c.attack}
  }

  /**
   The winner when a fighter has died: the human driving the other fighter
   under the given mapping. When both died, fighter 1's death decides.
   */
  function WinnerOf(controllingPlayer1: bool, player1Dead: bool): (w: Controller)
    ensures w == ControllerOf(controllingPlayer1, if player1Dead then Fighter2 else Fighter1)
    ensures w != ControllerOf(controllingPlayer1, if player1Dead then Fighter1 else Fighter2)
  {
    if player1Dead then (if controllingPlayer1 then Player2 else Player1)
    else (if controllingPlayer1 then Player1 else Player2)
  }

  // ---------------------------------------------------------------------------
  // The phases of a step

  /** 1 while a swing is running that has not landed yet, else 0. */
  function Credit(f: Player.Fighter): nat
  {
    if f.isAttacking && !f.hasHitThisAttack then 1 else 0
  }

  datatype Steered = Steered(fighter: Player.Fighter, started: bool)

  /** Input, integration and arena bounds for one fighter. */
  function Steer(f: Player.Fighter, c: Player.Controls, held: set<Player.Key>, dt: real): (r: Steered)
    ensures r.started <==> !f.isDodging && c.attack in held && Player.CanAttack(f)
    ensures Credit(r.fighter) <= Credit(f) + (if r.started then 1 else 0)
    ensures r.fighter.health == f.health && r.fighter.maxHealth == f.maxHealth
    ensures Player.Valid(f) ==> InArena(r.fighter.body, ArenaWidth)
    ensures dt >= 0.0 && Player.Valid(f) ==> Player.Valid(r.fighter)
  {
    var input := Player.HandleInput(f, held, c);
    var updated := Player.Update(input.fighter, dt);
    Steered(updated.(body := CheckBounds(updated.body, ArenaWidth)), input.attackStarted)
  }

  datatype MoveOutcome = MoveOutcome(first: Player.Fighter, second: Player.Fighter, started1: bool, started2: bool)

  /**
   Both fighters steered, then pushed apart if their bodies overlap. Health
   is untouched; a swing can only be gained by starting one; afterwards the
   bodies do not overlap.
   */
  function Move(f1: Player.Fighter, f2: Player.Fighter, c1: Player.Controls, c2: Player.Controls,
                held: set<Player.Key>, dt: real): (r: MoveOutcome)
    ensures r.started1 <==> !f1.isDodging && c1.attack in held && Player.CanAttack(f1)
    ensures r.started2 <==> !f2.isDodging && c2.attack in held && Player.CanAttack(f2)
    ensures Credit(r.first) <= Credit(f1) + (if r.started1 then 1 else 0)
    ensures Credit(r.second) <= Credit(f2) + (if r.started2 then 1 else 0)
    ensures r.first.health == f1.health && r.second.health == f2.health
    ensures r.first.maxHealth == f1.maxHealth && r.second.maxHealth == f2.maxHealth
    ensures !CheckCollision(r.first.body, r.second.body)
    ensures dt >= 0.0 && Player.Valid(f1) ==> Player.Valid(r.first)
    ensures dt >= 0.0 && Player.Valid(f2) ==> Player.Valid(r.second)
  {
    var s1 := Steer(f1, c1, held, dt);
    var s2 := Steer(f2, c2, held, dt);
    var b1 := s1.fighter.body;
    var b2 := s2.fighter.body;
    var pair := if CheckCollision(b1, b2) then ResolveCollision(b1, b2) else BodyPair(b1, b2);
    MoveOutcome(s1.fighter.(body := pair.first), s2.fighter.(body := pair.second), s1.started, s2.started)
  }

  /** Knockback goes the way the attacker faces. */
  function KnockbackDirection(attacker: Player.Fighter): (d: real)
    ensures d == 1.0 || d == -1.0
    ensures d > 0.0 <==> attacker.facingRight
  {
    if attacker.facingRight then 1.0 else -1.0
  }

  function DamageAfter(health: int, landed: bool): int
  {
    if !landed then health else if health - HitDamage < 0 then 0 else health - HitDamage
  }

  datatype CombatOutcome = CombatOutcome(first: Player.Fighter, second: Player.Fighter, landed1: bool, landed2: bool)

  /**
   Fighter 1's swing is tested against fighter 2 and then fighter 2's against
   fighter 1, both every step. A landed hit costs one health point and knocks
   the target back the way the attacker faces. The second test is unaffected
   by the outcome of the first.
   */
  function Combat(f1: Player.Fighter, f2: Player.Fighter): (r: CombatOutcome)
    ensures r.landed1 == Player.CheckAttackHit(f1, f2).hit
    ensures r.landed2 == Player.CheckAttackHit(f2, f1).hit
    ensures r.first.health == DamageAfter(f1.health, r.landed2)
    ensures r.second.health == DamageAfter(f2.health, r.landed1)
    ensures r.landed1 ==> r.second.body.velocity.x == KnockbackDirection(f1) * Player.KnockbackX
    ensures r.landed2 ==> r.first.body.velocity.x == KnockbackDirection(f2) * Player.KnockbackX
    ensures r.first.body.position == f1.body.position && r.second.body.position == f2.body.position
    ensures Credit(r.first) + (if r.landed1 then 1 else 0) <= Credit(f1)
    ensures Credit(r.second) + (if r.landed2 then 1 else 0) <= Credit(f2)
    ensures r.first.maxHealth == f1.maxHealth && r.second.maxHealth == f2.maxHealth
    ensures Player.Valid(f1) ==> Player.Valid(r.first)
    ensures Player.Valid(f2) ==> Player.Valid(r.second)
  {
    var h1 := Player.CheckAttackHit(f1, f2);
    var hurt2 := if h1.hit then Player.TakeDamage(f2, HitDamage, KnockbackDirection(h1.attacker)) else f2;
    var h2 := Player.CheckAttackHit(hurt2, h1.attacker);
    var hurt1 := if h2.hit then Player.TakeDamage(h1.attacker, HitDamage, KnockbackDirection(h2.attacker)) else h1.attacker;
    CombatOutcome(hurt1, h2.attacker, h1.hit, h2.hit)
  }

  // ---------------------------------------------------------------------------
  // One step

  /**
   One simulation step. The control mapping flips exactly when the timer
   signals; the fighters then get their input sets under the new mapping;
   movement and combat follow; if a fighter is dead afterwards the game is
   over and the winner is the human driving the other fighter under the new
   mapping.
   */
  function Update(m: Match, dt: real, held: set<Player.Key>): (r: StepResult)
    ensures r.events.switched == SwitchTimer.Update(m.switchTimer, dt).switched
    ensures r.game.switchTimer == SwitchTimer.Update(m.switchTimer, dt).timer
    ensures r.game.controllingPlayer1 == (m.controllingPlayer1 != r.events.switched)
    ensures r.events.attackStarted1 ==>
              ControlsFor(r.game.controllingPlayer1, Fighter1).attack in held && Player.CanAttack(m.player1)
    ensures r.events.attackStarted2 ==>
              ControlsFor(r.game.controllingPlayer1, Fighter2).attack in held && Player.CanAttack(m.player2)
    ensures r.game.player1.health == DamageAfter(m.player1.health, r.events.landed2)
    ensures r.game.player2.health == DamageAfter(m.player2.health, r.events.landed1)
    ensures r.game.gameOver <==> m.gameOver || Player.IsDead(r.game.player1) || Player.IsDead(r.game.player2)
    ensures Player.IsDead(r.game.player1) || Player.IsDead(r.game.player2) ==>
              r.game.winner == Some(ControllerOf(r.game.controllingPlayer1,
                                                 if Player.IsDead(r.game.player1) then Fighter2 else Fighter1))
    ensures !Player.IsDead(r.game.player1) && !Player.IsDead(r.game.player2) ==> r.game.winner == m.winner
    ensures Credit(r.game.player1) + (if r.events.landed1 then 1 else 0)
              <= Credit(m.player1) + (if r.events.attackStarted1 then 1 else 0)
    ensures Credit(r.game.player2) + (if r.events.landed2 then 1 else 0)
              <= Credit(m.player2) + (if r.events.attackStarted2 then 1 else 0)
  {
    var timed := SwitchTimer.Update(m.switchTimer, dt);
    var controllingPlayer1 := if timed.switched then !m.controllingPlayer1 else m.controllingPlayer1;
    var moved := Move(m.player1, m.player2,
                      ControlsFor(controllingPlayer1, Fighter1), ControlsFor(controllingPlayer1, Fighter2),
                      held, dt);
    var fought := Combat(moved.first, moved.second);
    var dead1 := Player.IsDead(fought.first);
    var dead2 := Player.IsDead(fought.second);
    var over := dead1 || dead2;
    StepResult(
      Match(fought.first, fought.second, timed.timer, controllingPlayer1,
            if over then true else m.gameOver,
            if over then Some(WinnerOf(controllingPlayer1, dead1)) else m.winner),
      Events(timed.switched, moved.started1, moved.started2, fought.landed1, fought.landed2))
  }

  /** A step of a running match keeps the match invariant, so health stays within [0, 15]. */
  lemma StepKeepsValid(m: Match, dt: real, held: set<Player.Key>)
    requires Valid(m) && !m.gameOver && dt >= 0.0
    ensures Valid(Update(m, dt, held).game)
  {
  }

  /** The frame loop's gate: once the game is over nothing is simulated any more. */
  function Frame(m: Match, dt: real, held: set<Player.Key>): (r: StepResult)
    ensures m.gameOver ==> r.game == m && r.events == NoEvents
    ensures !m.gameOver ==> r == Update(m, dt, held)
  {
    if m.gameOver then StepResult(m, NoEvents) else Update(m, dt, held)
  }
}
