# Two-fighter arena game: the simulation step in Dafny

This project models the deterministic per-frame simulation of a two-fighter
browser game. In each frame a switch timer may swap which human's keys drive
which fighter. Then both fighters read their keys, fall, move and land. They
are clamped to the arena and pushed apart if they overlap. Each fighter's punch
is tested against the other, hits cost health, and the match ends when a
fighter is dead.

Modules follow the game's source files:

- `Physics` (`physics.dfy`) covers `Vector2.add`, gravity, the ground snap, the arena clamp, the strict box-overlap test and the symmetric push-apart. A JavaScript "entity" is modelled as a `Body` record.
- `Player` (`player.dfy`) holds the `Fighter` record and its state machine: per-step update, input, dodge, attack and hitbox, hit check, damage and death.
- `SwitchTimer` (`switch_timer.dfy`) is the control-swap countdown with its shrinking interval and its alert flag.
- `Game` (`game.dfy`) covers one match step in the game's fixed order: the control remap, the two input sets, combat, win attribution, and the `gameOver` gate of the frame loop.
- `GameRuns` (`game_runs.dfy`) states properties of the frame loop over any sequence of frames. The loop is written once for any step function, each run property is proved from a one-frame property of the step, and the game's loop is the instance whose step is `Game.Frame`.
- `Optional` and `Durations` (`common.dfy`) are small helpers: an option type, and the sum of a sequence of frame times.

All state is immutable records. Every operation is a pure function from the old
state to the new one.

Positions, velocities and timers are `real`. Health is an `int`. The switch
interval and its floor are also `int`, because they start at 10 and 5 and only
ever change by one second at a time.

The keyboard is replaced by a `set<Key>` of held keys. The frame clock is
replaced by a `dt` parameter in milliseconds. The arena width is the renderer's
1280 pixels (Game/src/engine/Renderer.js:5).

The game's `attack` plays a sound. Here that is an `attackStarted` event in the
step's `Events`, next to the switch and hit-landed events.

## Model

| member | source | states |
|---|---|---|
| Physics.AddLaws | Game/src/engine/Physics.js:7-11 | adding vectors is commutative and associative, the zero vector changes nothing, and every vector has an opposite |
| Physics.ApplyGravity | Game/src/engine/Physics.js:23-26 | vertical velocity grows by exactly 0.8; position, horizontal velocity, size and grounded flag are unchanged |
| Physics.GravityAccumulates | Game/src/engine/Physics.js:19-26 | gravity has no terminal speed: n applications add exactly n times 0.8 and leave the position alone |
| Physics.CheckGroundCollisions | Game/src/engine/Physics.js:28-40 | grounded afterwards exactly when the bottom edge was at or below 620; a landed body stands exactly on the floor with no vertical speed, an airborne one is unchanged; in both cases the bottom edge is at or above the floor |
| Physics.GroundCheckIdempotent | Game/src/engine/Physics.js:28-40 | running the ground check twice gives the same body as running it once |
| Physics.CheckBounds | Game/src/engine/Physics.js:46-55 | for a body no wider than the arena, x ends up as x clamped to [0, arenaWidth - width]; a body already inside is untouched; a clamp zeroes the horizontal velocity; y, vertical velocity and the grounded flag are never touched |
| Physics.OverlapsMeansSharedPoint | Game/src/engine/Physics.js:57-64 | for boxes of positive size the four strict comparisons hold exactly when some point lies strictly inside both; the test is symmetric, and boxes that only touch along an edge do not overlap |
| Physics.ResolveCollision | Game/src/engine/Physics.js:66-84 | only x positions change; the two displacements are exact opposites; centres closer than the half-width sum end exactly that far apart, otherwise nothing changes; with equal centres the first body moves right and the second left; afterwards the two bodies never overlap |
| Player.Spawn | Game/src/entities/Player.js:4-46 | a new fighter is valid, at 15 of 15 health, idle, facing right, at rest at the given point |
| Player.Update | Game/src/entities/Player.js:48-77 | each of the five timers drops by exactly `dt` while positive and stays put otherwise; an attack or dodge ends exactly when its time is up; a running swing keeps the hitbox where the attack placed it (it does not follow the fighter), and an ended one drops the hitbox and the landed-hit flag; the fighter falls, moves by its velocity in x, and is grounded afterwards exactly when the moved body reached the floor; a grounded fighter then stands on the floor with no vertical speed, while an airborne one sits at its old y plus the new vertical speed; size, health and facing are kept; the fighter invariant is preserved |
| Player.HorizontalDrift | Game/src/entities/Player.js:48-77 | with no input between updates a fighter keeps its horizontal speed, so after n updates it has moved exactly n times that speed along x, one vector addition per frame |
| Player.HitboxFor | Game/src/entities/Player.js:152-168 | the hitbox is 120 by 150 at y + 50, 10 beyond the leading edge, and never overlaps the attacker's own body |
| Player.Attack | Game/src/entities/Player.js:140-169 | no change while the cooldown runs or a swing is in progress; otherwise a swing starts with cooldown 300, active time 150, no hit yet and the hitbox in front; no second attack can start right away; the fighter invariant is preserved |
| Player.NoAttackDuringCooldown | Game/src/entities/Player.js:48-63 | while less time passes than the cooldown left, the cooldown drops by exactly the elapsed time and attacking stays impossible |
| Player.AttackThenWait | Game/src/entities/Player.js:140-145 | after a swing starts, any frames totalling under 300 ms leave a further attack a no-op |
| Player.GroundSlowdown | Game/src/entities/Player.js:101-107 | ground friction removes at least a fifth of the speed and never reverses it; the result is the speed times 0.8 unless that falls below 0.1, in which case the fighter stops |
| Player.SteerX | Game/src/entities/Player.js:89-117 | the new horizontal speed is capped at 4.9 both ways; left accelerates left, right accelerates right, each capped; with neither key held the speed is the ground slowdown on the ground and 0.95 of it in the air, capped, so it never grows or reverses |
| Player.HandleInput | Game/src/entities/Player.js:79-130 | a dodging fighter ignores input; otherwise the new horizontal speed is exactly the steered one for the held keys (acceleration, friction with its stop below 0.1, cap); left wins over right and sets the facing; jump gives vertical speed -24 only when grounded; a swing starts exactly when the attack key is held and an attack is allowed, and then has cooldown 300, active time 150 and its hitbox aimed with the facing set by the same call; position, health, maximum health, dodge state and the cosmetic timers are untouched; the invariant is preserved |
| Player.Walk | Game/src/entities/Player.js:85-116 | left wins over right: the held direction sets the facing, no direction keeps it; the new horizontal speed is the steered one; nothing but the motion changes and the invariant is kept |
| Player.Jump | Game/src/entities/Player.js:118-124 | a held jump key gives vertical speed -24 and leaves the ground only when the fighter stands on it; otherwise nothing changes |
| Player.Dodge | Game/src/entities/Player.js:132-138 | no change while a dodge runs; otherwise a 300 ms dodge at speed 12 away from the facing direction, with attack state, health and position untouched |
| Player.DodgeIgnoresInput | Game/src/entities/Player.js:80 | right after a dodge starts, any input leaves the fighter unchanged |
| Player.CheckAttackHit | Game/src/entities/Player.js:171-187 | no hit on an airborne target or without a running, unspent swing with a hitbox; otherwise a hit exactly when the hitbox strictly overlaps the target's body; a hit marks the swing spent and nothing else changes |
| Player.OneHitPerSwing | Game/src/entities/Player.js:182-185 | a swing that has landed cannot land again on any target |
| Player.TakeDamage | Game/src/entities/Player.js:189-196 | health becomes max(0, health - damage), so it stays within [0, max] for non-negative damage and strictly drops while positive; velocity becomes (8 * direction, -5), so knockback follows the direction's sign; the flash and shake timers restart at 100 and 200; attack state, position and grounded flag are kept |
| Player.UnitHitsCountDown | Game/src/entities/Player.js:189-200 | after k one-point hits the health is max(0, health - k), and the fighter is dead exactly when k reaches its starting health |
| Player.IsDead | Game/src/entities/Player.js:198-200 | a fighter is dead when out of health; for a valid fighter that is exactly zero health, and a living one has between 1 and its maximum |
| SwitchTimer.New | Game/src/systems/SwitchTimer.js:2-10 | the timer starts valid: interval 10 with floor 5, 10 s to the first switch, 30 s to the first reduction, no alert |
| SwitchTimer.Update | Game/src/systems/SwitchTimer.js:12-41 | a switch is signalled exactly when the countdown minus dt/1000 is at or below zero, and then the countdown restarts from the interval as already reduced in the same call and the 1000 ms alert is raised; a due reduction restarts the 30 s period and lowers the interval by 1 only above the floor; the interval never rises or drops below the floor; the alert clears only on a call that starts with its time used up; for dt >= 0 both countdowns are positive afterwards |
| SwitchTimer.GetTimeLeft | Game/src/systems/SwitchTimer.js:43-45 | the displayed time is the countdown when that is non-negative and zero when it is negative, so it is never negative, and it is positive for a valid timer |
| SwitchTimer.GetCurrentInterval | Game/src/systems/SwitchTimer.js:47-49 | for a valid timer the interval lies between 5 and 10 seconds |
| SwitchTimer.AlertClearedOneStepLate | Game/src/systems/SwitchTimer.js:18-22 | the call that uses up the alert time leaves the flag up, and the next call without a switch clears it |
| SwitchTimer.AlertShownAfterSwitch | Game/src/systems/SwitchTimer.js:18-53 | right after a switch the alert is reported as showing, and it is still showing after the next call whatever that call's frame time |
| SwitchTimer.RunKeepsFloor | Game/src/systems/SwitchTimer.js:25-30 | over any frames with non-negative times the timer stays valid and the interval never grows or drops below 5 |
| SwitchTimer.IntervalAfterReductions | Game/src/systems/SwitchTimer.js:25-30 | after a run the interval is the old one less one per reduce event, floored at the minimum |
| SwitchTimer.NoSwitchBeforeDeadline | Game/src/systems/SwitchTimer.js:14-38 | while the elapsed time stays under the time left, no switch is signalled and the countdown drops by exactly the elapsed seconds |
| SwitchTimer.SwitchAtDeadline | Game/src/systems/SwitchTimer.js:33-37 | the frame whose elapsed time reaches the deadline signals the switch, and the countdown restarts from the current interval |
| Game.NewMatch | Game/src/main.js:15-29 | the match starts valid with both fighters at 15 health, human 1 on fighter 1, not over, interval 10 |
| Game.ControlsFor | Game/src/main.js:76-90 | a fighter receives set A or set B: exactly the keys of the human currently driving it |
| Game.ControlsAreDisjoint | Game/src/main.js:61-90 | the two fighters never receive the same input set or the same human, and the two sets share no key |
| Game.WinnerOf | Game/src/main.js:121-128 | the winner is the human driving the fighter that did not die, and never the human driving the dead one; if both died, fighter 1's death decides |
| Game.Steer | Game/src/main.js:93-102 | input, integration and bounds for one fighter: a swing starts exactly when the attack key is held and allowed; health is untouched; a valid fighter ends inside the arena and stays valid |
| Game.Move | Game/src/main.js:93-107 | after input, integration, bounds and push-apart the two bodies do not overlap; health is untouched; a fighter can gain an unspent swing only by starting one |
| Game.KnockbackDirection | Game/src/main.js:110-118 | knockback is +1 or -1, positive exactly when the attacker faces right |
| Game.Combat | Game/src/main.js:110-118 | both hit checks run every step, the second unaffected by the first; each landed hit costs exactly one health point, clamped at zero, and knocks the target back the way the attacker faces; a landed hit spends that attacker's swing |
| Game.Update | Game/src/main.js:53-129 | the match stores the advanced switch timer; the mapping flips exactly when the timer signals; swings start only on the attack key of the input set given under the new mapping; each fighter loses a point exactly for a hit landed on it; the game is over exactly when a fighter is dead, with the winner taken from the post-flip mapping; otherwise the winner is unchanged; hits landed plus unspent swings never exceed swings started plus unspent swings before |
| Game.StepKeepsValid | Game/src/main.js:53-129 | a step of a running match keeps both fighters valid with health in [0, 15], the timer valid, and "over" tied to a death and a winner |
| Game.Frame | Game/src/main.js:44-46 | once the game is over a frame changes nothing and reports no events; before that it is one step |
| GameRuns.RunKeepsValid | Game/src/main.js:44-46 | over any sequence of frames with non-negative times, both fighters keep 0 <= health <= 15 and the switch interval stays at or above 5 |
| GameRuns.GameOverFreezes | Game/src/main.js:44-46 | after game over every further frame leaves the match unchanged and reports nothing |
| GameRuns.HitsBoundedBySwings1 | Game/src/entities/Player.js:171-187 | over any run, the hits fighter 1 lands are at most the swings it starts, plus one if a swing was running and unspent at the start |
| GameRuns.HitsBoundedBySwings2 | Game/src/entities/Player.js:171-187 | the same bound for fighter 2 |
| GameRuns.HitsAtMostSwingsFromStart | Game/src/main.js:110-118 | from a new match, no fighter lands more hits than swings it starts |
| GameRuns.HealthCountsHits1 | Game/src/main.js:110-118 | fighter 1's health after any run is its starting health less the hits fighter 2 landed, floored at zero |
| GameRuns.HealthCountsHits2 | Game/src/main.js:110-118 | fighter 2's health after any run is its starting health less the hits fighter 1 landed, floored at zero |
| GameRuns.MappingFollowsSwitches | Game/src/main.js:55-58 | the control mapping after a run is the starting one flipped once per switch signal |
| GameRuns.FlippedParity | Game/src/main.js:55-58 | a mapping flipped an even number of times is back where it started, and one flipped an odd number of times is swapped |

## Left out

- Rendering (Game/src/engine/Renderer.js) is left out. It covers sprite choice, health bars and the random shake. Only its arena width of 1280 is used.
- Menus and settings (Game/src/systems/UIManager.js) are left out. The slider values are never fed into the simulation, and the rematch callback has no implementation in the source.
- Audio (Game/src/systems/AudioManager.js) is left out. The punch sound in `attack` becomes the `attackStarted` event.
- Raw key events (Game/src/engine/InputHandler.js) are left out, including lower-casing of key names. The step takes the set of held keys.
- The frame clock is left out (`performance.now`, `requestAnimationFrame`, the DOM lookup). Each frame's `dt` is a parameter.
- Purely cosmetic state is not modelled: fighter colours and their reassignment in the step, `visualHeight`, and the timer's `totalGameTime`. None of them feeds back into game logic.
- `airControl` (declared in the fighter) and `attackOffset` (a local constant of `attack`) are never read, so they are not modelled. `Physics.FRICTION` and the empty `applyFriction` are also never used and not modelled.
- IEEE-754 rounding is not modelled: all arithmetic is exact over `real`.
- Game.Update: attack-start events are stated one way only (an event implies the key was held and an attack was allowed). The full if-and-only-if, including the dodge gate, is stated on Game.Move and Game.Steer.
- `Player.dodge` has no caller in Game/src, and no step of Game calls Player.Dodge, so a match that starts from Game.NewMatch never has a dodging fighter. Player.Dodge and Player.DodgeIgnoresInput model the method as written, on a path no match takes.
- Nothing stops a fighter from being outside the arena at the end of a step. The push-apart runs after the clamp, so a fighter pushed against a wall can end the step past it. The model states the arena bound only after the clamp (Game.Steer).

Behaviours of the code that are easy to miss:

- The code has no match configuration. The interval, floor and health are fixed at 10, 5 and 15.
- Fighter timers can go below zero, because a positive timer is decremented by the whole frame time.
- Death does not stop a fighter within the step. A fighter killed by the first hit check still makes its own hit check in the same step, so both fighters can die together.
- The push-apart runs only when the full two-axis overlap test holds, not on a horizontal overlap alone.
