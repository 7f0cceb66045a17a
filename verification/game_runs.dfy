/**
 Properties of whole matches: the frame loop applied to any sequence of
 frame times and held-key sets.

 The loop is written once for an arbitrary step function (`RunWith`,
 `CountWith`), and each run property is proved from a one-frame property of
 the step. The game's own loop is the instance whose step is `Frame`.
 */
module GameRuns {
  import opened Game
  import Player
  import SwitchTimer

  /** One frame's input: the elapsed milliseconds and the keys held down. */
  datatype Tick = Tick(dt: real, held: set<Player.Key>)

  predicate NonNegativeTimes(ticks: seq<Tick>)
  {
    forall i :: 0 <= i < |ticks| ==> ticks[i].dt >= 0.0
  }

  /** The kinds of event a step reports. */
  datatype Kind = Switched | AttackStarted1 | AttackStarted2 | Landed1 | Landed2

  predicate Happened(e: Events, k: Kind)
  {
    match k
    case Switched => e.switched
    case AttackStarted1 => e.attackStarted1
    case AttackStarted2 => e.attackStarted2
    case Landed1 => e.landed1
    case Landed2 => e.landed2
  }

  // ---------------------------------------------------------------------------
  // The frame loop over any step function

  /** The match after `step` has been applied once per tick. */
  function RunWith(step: (Match, Tick) -> StepResult, m: Match, ticks: seq<Tick>): Match
    decreases |ticks|
  {
    if |ticks| == 0 then m else RunWith(step, step(m, ticks[0]).game, ticks[1..])
  }

  /** How many of those steps reported an event of kind `k`. */
  function CountWith(step: (Match, Tick) -> StepResult, m: Match, ticks: seq<Tick>, k: Kind): nat
    decreases |ticks|
  {
    if |ticks| == 0 then 0
    else
      var s := step(m, ticks[0]);
      (if Happened(s.events, k) then 1 else 0) + CountWith(step, s.game, ticks[1..], k)
  }

  /** One frame of the game loop, including its `gameOver` gate. */
  function Step(m: Match, t: Tick): StepResult
  {
    Frame(m, t.dt, t.held)
  }

  /** The match after the game's frame loop has run over all the ticks. */
  function Run(m: Match, ticks: seq<Tick>): Match
  {
    RunWith(Step, m, ticks)
  }

  /** How many frames of the game's run reported an event of kind `k`. */
  function Count(m: Match, ticks: seq<Tick>, k: Kind): nat
  {
    CountWith(Step, m, ticks, k)
  }

  // ---------------------------------------------------------------------------
  // The match invariant

  ghost predicate KeepsValid(step: (Match, Tick) -> StepResult)
  {
    forall m: Match, t: Tick :: Valid(m) && t.dt >= 0.0 ==> Valid(step(m, t).game)
  }

  lemma {:induction false} RunWithKeepsValid(step: (Match, Tick) -> StepResult, m: Match, ticks: seq<Tick>)
    requires KeepsValid(step) && Valid(m) && NonNegativeTimes(ticks)
    ensures Valid(RunWith(step, m, ticks))
    decreases |ticks|
  {
    if |ticks| > 0 {
      RunWithKeepsValid(step, step(m, ticks[0]).game, ticks[1..]);
    }
  }

  lemma StepKeepsValidAlways()
    ensures KeepsValid(Step)
  {
    forall m: Match, t: Tick | Valid(m) && t.dt >= 0.0
      ensures Valid(Step(m, t).game)
    {
      if !m.gameOver {
        StepKeepsValid(m, t.dt, t.held);
      }
    }
  }

  /**
   Over any run with non-negative frame times the match invariant holds: both
   fighters keep 0 <= health <= 15 and the switch interval stays at or above
   its five second floor.
   */
  lemma RunKeepsValid(m: Match, ticks: seq<Tick>)
    requires Valid(m) && NonNegativeTimes(ticks)
    ensures Valid(Run(m, ticks))
    ensures 0 <= Run(m, ticks).player1.health <= Player.StartHealth
    ensures 0 <= Run(m, ticks).player2.health <= Player.StartHealth
    ensures Run(m, ticks).switchTimer.currentInterval >= SwitchTimer.MinInterval
  {
    StepKeepsValidAlways();
    RunWithKeepsValid(Step, m, ticks);
  }

  /** Once the game is over the state is frozen and nothing happens any more. */
  lemma {:induction false} GameOverFreezes(m: Match, ticks: seq<Tick>)
    requires m.gameOver
    ensures Run(m, ticks) == m
    ensures forall k :: Count(m, ticks, k) == 0
    decreases |ticks|
  {
    if |ticks| > 0 {
      var s := Step(m, ticks[0]);
      assert s == StepResult(m, NoEvents);
      GameOverFreezes(m, ticks[1..]);
      forall k: Kind
        ensures Count(m, ticks, k) == 0
      {
        assert Count(m, ticks, k) == Count(m, ticks[1..], k);
      }
    }
  }

  // ---------------------------------------------------------------------------
  // One hit per swing

  /** A step never lets fighter 1 land a hit without spending a swing it had or started. */
  ghost predicate SpendsCredit1(step: (Match, Tick) -> StepResult)
  {
    forall m: Match, t: Tick ::
      Credit(step(m, t).game.player1) + (if step(m, t).events.landed1 then 1 else 0)
        <= Credit(m.player1) + (if step(m, t).events.attackStarted1 then 1 else 0)
  }

  ghost predicate SpendsCredit2(step: (Match, Tick) -> StepResult)
  {
    forall m: Match, t: Tick ::
      Credit(step(m, t).game.player2) + (if step(m, t).events.landed2 then 1 else 0)
        <= Credit(m.player2) + (if step(m, t).events.attackStarted2 then 1 else 0)
  }

  lemma {:induction false} HitsBoundedWith1(step: (Match, Tick) -> StepResult, m: Match, ticks: seq<Tick>)
    requires SpendsCredit1(step)
    ensures CountWith(step, m, ticks, Landed1) + Credit(RunWith(step, m, ticks).player1)
              <= CountWith(step, m, ticks, AttackStarted1) + Credit(m.player1)
    decreases |ticks|
  {
    if |ticks| > 0 {
      HitsBoundedWith1(step, step(m, ticks[0]).game, ticks[1..]);
    }
  }

  lemma {:induction false} HitsBoundedWith2(step: (Match, Tick) -> StepResult, m: Match, ticks: seq<Tick>)
    requires SpendsCredit2(step)
    ensures CountWith(step, m, ticks, Landed2) + Credit(RunWith(step, m, ticks).player2)
              <= CountWith(step, m, ticks, AttackStarted2) + Credit(m.player2)
    decreases |ticks|
  {
    if |ticks| > 0 {
      HitsBoundedWith2(step, step(m, ticks[0]).game, ticks[1..]);
    }
  }

  lemma StepSpendsCredit()
    ensures SpendsCredit1(Step) && SpendsCredit2(Step)
  {
    forall m: Match, t: Tick
      ensures Credit(Step(m, t).game.player1) + (if Step(m, t).events.landed1 then 1 else 0)
                <= Credit(m.player1) + (if Step(m, t).events.attackStarted1 then 1 else 0)
      ensures Credit(Step(m, t).game.player2) + (if Step(m, t).events.landed2 then 1 else 0)
                <= Credit(m.player2) + (if Step(m, t).events.attackStarted2 then 1 else 0)
    {
    }
  }

  /**
   At most one hit per swing: over any run, the hits fighter 1 lands are at
   most the swings it starts, plus the one swing it may have had running and
   unspent at the start.
   */
  lemma HitsBoundedBySwings1(m: Match, ticks: seq<Tick>)
    ensures Count(m, ticks, Landed1) + Credit(Run(m, ticks).player1)
              <= Count(m, ticks, AttackStarted1) + Credit(m.player1)
  {
    StepSpendsCredit();
    HitsBoundedWith1(Step, m, ticks);
  }

  /** The same bound for fighter 2. */
  lemma HitsBoundedBySwings2(m: Match, ticks: seq<Tick>)
    ensures Count(m, ticks, Landed2) + Credit(Run(m, ticks).player2)
              <= Count(m, ticks, AttackStarted2) + Credit(m.player2)
  {
    StepSpendsCredit();
    HitsBoundedWith2(Step, m, ticks);
  }

  /** From the start of a match, no fighter ever lands more hits than swings it started. */
  lemma HitsAtMostSwingsFromStart(ticks: seq<Tick>)
    ensures Count(NewMatch(), ticks, Landed1) <= Count(NewMatch(), ticks, AttackStarted1)
    ensures Count(NewMatch(), ticks, Landed2) <= Count(NewMatch(), ticks, AttackStarted2)
  {
    HitsBoundedBySwings1(NewMatch(), ticks);
    HitsBoundedBySwings2(NewMatch(), ticks);
  }

  // ---------------------------------------------------------------------------
  // Health

  /** A step costs fighter 1 a point exactly when fighter 2 landed, and fighter 2 likewise. */
  ghost predicate DamagesByHits(step: (Match, Tick) -> StepResult)
  {
    forall m: Match, t: Tick ::
      && step(m, t).game.player1.health == DamageAfter(m.player1.health, step(m, t).events.landed2)
      && step(m, t).game.player2.health == DamageAfter(m.player2.health, step(m, t).events.landed1)
  }

  /** One step's damage followed by k more hits is the same as all of them at once. */
  lemma DamageThenMore(h: int, landed: bool, k: nat)
    requires h >= 0
    ensures var h1 := DamageAfter(h, landed);
            var n := k + (if landed then 1 else 0);
            (if h1 - k < 0 then 0 else h1 - k) == (if h - n < 0 then 0 else h - n)
  {
  }

  lemma {:induction false} HealthCountsHitsWith1(step: (Match, Tick) -> StepResult, m: Match, ticks: seq<Tick>)
    requires DamagesByHits(step) && m.player1.health >= 0
    ensures var k := CountWith(step, m, ticks, Landed2);
            RunWith(step, m, ticks).player1.health == if m.player1.health - k < 0 then 0 else m.player1.health - k
    decreases |ticks|
  {
    if |ticks| > 0 {
      var s := step(m, ticks[0]);
      HealthCountsHitsWith1(step, s.game, ticks[1..]);
      DamageThenMore(m.player1.health, s.events.landed2, CountWith(step, s.game, ticks[1..], Landed2));
    }
  }

  lemma {:induction false} HealthCountsHitsWith2(step: (Match, Tick) -> StepResult, m: Match, ticks: seq<Tick>)
    requires DamagesByHits(step) && m.player2.health >= 0
    ensures var k := CountWith(step, m, ticks, Landed1);
            RunWith(step, m, ticks).player2.health == if m.player2.health - k < 0 then 0 else m.player2.health - k
    decreases |ticks|
  {
    if |ticks| > 0 {
      var s := step(m, ticks[0]);
      HealthCountsHitsWith2(step, s.game, ticks[1..]);
      DamageThenMore(m.player2.health, s.events.landed1, CountWith(step, s.game, ticks[1..], Landed1));
    }
  }

  lemma StepDamagesByHits()
    ensures DamagesByHits(Step)
  {
    forall m: Match, t: Tick
      ensures Step(m, t).game.player1.health == DamageAfter(m.player1.health, Step(m, t).events.landed2)
      ensures Step(m, t).game.player2.health == DamageAfter(m.player2.health, Step(m, t).events.landed1)
    {
    }
  }

  /**
   Every landed hit costs exactly one health point until the fighter is at
   zero: fighter 1's health after a run is its starting health less the hits
   fighter 2 landed, but never below zero.
   */
  lemma HealthCountsHits1(m: Match, ticks: seq<Tick>)
    requires m.player1.health >= 0
    ensures var k := Count(m, ticks, Landed2);
            Run(m, ticks).player1.health == if m.player1.health - k < 0 then 0 else m.player1.health - k
  {
    StepDamagesByHits();
    HealthCountsHitsWith1(Step, m, ticks);
  }

  /** The same for fighter 2, which loses a point per hit fighter 1 landed. */
  lemma HealthCountsHits2(m: Match, ticks: seq<Tick>)
    requires m.player2.health >= 0
    ensures var k := Count(m, ticks, Landed1);
            Run(m, ticks).player2.health == if m.player2.health - k < 0 then 0 else m.player2.health - k
  {
    StepDamagesByHits();
    HealthCountsHitsWith2(Step, m, ticks);
  }

  // ---------------------------------------------------------------------------
  // The control mapping

  /** The mapping reached from `start` after `switches` flips. */
  function Flipped(start: bool, switches: nat): bool
  {
    if switches == 0 then start else !Flipped(start, switches - 1)
  }

  /** After an even number of flips the mapping is back where it started; after an odd number it is swapped. */
  lemma {:induction false} FlippedParity(start: bool, switches: nat)
    ensures Flipped(start, switches) <==> (start <==> switches % 2 == 0)
  {
    if switches > 0 {
      FlippedParity(start, switches - 1);
    }
  }

  lemma {:induction false} FlipOnce(start: bool, flipped: bool, c: nat)
    ensures Flipped(start != flipped, c) == Flipped(start, c + (if flipped then 1 else 0))
  {
    if flipped && c > 0 {
      FlipOnce(start, flipped, c - 1);
    }
  }

  /** A step flips the mapping exactly when it reports a switch. */
  ghost predicate FlipsOnSwitch(step: (Match, Tick) -> StepResult)
  {
    forall m: Match, t: Tick ::
      step(m, t).game.controllingPlayer1 == (m.controllingPlayer1 != step(m, t).events.switched)
  }

  lemma {:induction false} MappingFollowsSwitchesWith(step: (Match, Tick) -> StepResult, m: Match, ticks: seq<Tick>)
    requires FlipsOnSwitch(step)
    ensures RunWith(step, m, ticks).controllingPlayer1
              == Flipped(m.controllingPlayer1, CountWith(step, m, ticks, Switched))
    decreases |ticks|
  {
    if |ticks| > 0 {
      var s := step(m, ticks[0]);
      MappingFollowsSwitchesWith(step, s.game, ticks[1..]);
      FlipOnce(m.controllingPlayer1, s.events.switched, CountWith(step, s.game, ticks[1..], Switched));
    }
  }

  lemma StepFlipsOnSwitch()
    ensures FlipsOnSwitch(Step)
  {
    forall m: Match, t: Tick
      ensures Step(m, t).game.controllingPlayer1 == (m.controllingPlayer1 != Step(m, t).events.switched)
    {
    }
  }

  /** The control mapping after a run is the starting one flipped once per switch signal. */
  lemma MappingFollowsSwitches(m: Match, ticks: seq<Tick>)
    ensures Run(m, ticks).controllingPlayer1 == Flipped(m.controllingPlayer1, Count(m, ticks, Switched))
  {
    StepFlipsOnSwitch();
    MappingFollowsSwitchesWith(Step, m, ticks);
  }
}
