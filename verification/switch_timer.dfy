/**
 The control-swap countdown. Every `currentInterval` seconds it signals that
 the two input sets must change fighters; every 30 seconds the interval
 shrinks by one second until it reaches the floor. A switch also raises an
 alert flag for one second. Countdowns are in seconds except the alert, which
 is in milliseconds like the frame time it is fed.
 */
module SwitchTimer {
  import opened Durations

  const StartInterval: int := 10
  const MinInterval: int := 5
  const ReduceStep: int := 1
  /** Seconds between two reductions of the interval. */
  const ReducePeriod: real := 30.0
  /** Milliseconds the switch alert stays up. */
  const AlertTime: real := 1000.0

  datatype Timer = Timer(
    currentInterval: int,
    minInterval: int,
    timeUntilSwitch: real,
    timeUntilReduce: real,
    showingSwitchAlert: bool,
    switchAlertDuration: real)

  /**
   What holds of the timer between steps: the interval lies between the floor
   and its start value, and both countdowns still have time left.
   */
  ghost predicate Valid(t: Timer)
  {
    && t.minInterval == MinInterval
    && t.minInterval <= t.currentInterval <= StartInterval
    && t.timeUntilSwitch > 0.0
    && t.timeUntilReduce > 0.0
  }

  /** The timer at the start of a match; it takes no configuration. */
  function New(): (t: Timer)
    ensures Valid(t)
    ensures t.currentInterval == StartInterval && t.timeUntilSwitch == StartInterval as real
    ensures t.timeUntilReduce == ReducePeriod && !t.showingSwitchAlert
  {
    Timer(StartInterval, MinInterval, StartInterval as real, ReducePeriod, false, 0.0)
  }

  datatype SwitchOutcome = SwitchOutcome(timer: Timer, switched: bool)

  /**
   Advances both countdowns by `dt` milliseconds. The alert is cleared only on
   a call that begins with its time already used up. A due reduction lowers
   the interval by one second unless it is at the floor and restarts the
   30 second period. A due switch restarts the switch countdown from the
   interval (after any reduction in the same call, and without carrying over
   the overshoot), raises the alert and is signalled: at most one switch per
   call, however long the frame.
   */
  function Update(t: Timer, dt: real): (r: SwitchOutcome)
    ensures r.switched <==> t.timeUntilSwitch - dt / 1000.0 <= 0.0
    ensures r.switched ==> r.timer.timeUntilSwitch == r.timer.currentInterval as real
    ensures r.switched ==> r.timer.showingSwitchAlert && r.timer.switchAlertDuration == AlertTime
    ensures !r.switched ==> r.timer.timeUntilSwitch == t.timeUntilSwitch - dt / 1000.0
    ensures !r.switched && t.switchAlertDuration > 0.0 ==>
              r.timer.showingSwitchAlert == t.showingSwitchAlert
              && r.timer.switchAlertDuration == t.switchAlertDuration - dt
    ensures !r.switched && t.switchAlertDuration <= 0.0 ==>
              !r.timer.showingSwitchAlert && r.timer.switchAlertDuration == t.switchAlertDuration
    ensures t.timeUntilReduce - dt / 1000.0 <= 0.0 ==> r.timer.timeUntilReduce == ReducePeriod
    ensures t.timeUntilReduce - dt / 1000.0 <= 0.0 && t.currentInterval > t.minInterval ==>
              r.timer.currentInterval == t.currentInterval - ReduceStep
    ensures t.timeUntilReduce - dt / 1000.0 > 0.0 || t.currentInterval <= t.minInterval ==>
              r.timer.currentInterval == t.currentInterval
    ensures t.timeUntilReduce - dt / 1000.0 > 0.0 ==>
              r.timer.timeUntilReduce == t.timeUntilReduce - dt / 1000.0
    ensures r.timer.minInterval == t.minInterval
    ensures r.timer.currentInterval <= t.currentInterval
    ensures t.currentInterval >= t.minInterval ==> r.timer.currentInterval >= t.minInterval
    ensures dt >= 0.0 && 0 < t.minInterval <= t.currentInterval ==>
              r.timer.timeUntilSwitch > 0.0 && r.timer.timeUntilReduce > 0.0
    ensures dt >= 0.0 && Valid(t) ==> Valid(r.timer)
  {
    var secs := dt / 1000.0;
    var counted := t.(timeUntilSwitch := t.timeUntilSwitch - secs,
                      timeUntilReduce := t.timeUntilReduce - secs);
    var alerted :=
      if counted.switchAlertDuration > 0.0
      then counted.(switchAlertDuration := counted.switchAlertDuration - dt)
      else counted.(showingSwitchAlert := false);
    var reduced :=
      if alerted.timeUntilReduce <= 0.0 then
        alerted.(currentInterval :=
                   if alerted.currentInterval > alerted.minInterval
                   then alerted.currentInterval - ReduceStep
                   else alerted.currentInterval,
                 timeUntilReduce := ReducePeriod)
      else alerted;
    if reduced.timeUntilSwitch <= 0.0 then
      SwitchOutcome(reduced.(timeUntilSwitch := reduced.currentInterval as real,
                             showingSwitchAlert := true,
                             switchAlertDuration := AlertTime),
                    true)
    else
      SwitchOutcome(reduced, false)
  }

  /** Seconds until the next switch, as displayed: never negative. */
  function GetTimeLeft(t: Timer): (r: real)
    ensures r >= 0.0 && r >= t.timeUntilSwitch
    ensures t.timeUntilSwitch >= 0.0 ==> r == t.timeUntilSwitch
    ensures t.timeUntilSwitch < 0.0 ==> r == 0.0
    ensures Valid(t) ==> r > 0.0
  {
    if t.timeUntilSwitch < 0.0 then 0.0 else t.timeUntilSwitch
  }

  /** The current switch interval in seconds, between the floor and the start value. */
  function GetCurrentInterval(t: Timer): (r: int)
    ensures Valid(t) ==> MinInterval <= r <= StartInterval
  {
    t.currentInterval
  }

  predicate IsShowingAlert(t: Timer)
  {
    t.showingSwitchAlert
  }

  /**
   A switch raises the alert, and it is still up after the next call whatever
   that call's frame time, because the alert is cleared only by a call that
   starts with its time already used up.
   */
  lemma AlertShownAfterSwitch(t: Timer, dt1: real, dt2: real)
    requires Update(t, dt1).switched
    ensures IsShowingAlert(Update(t, dt1).timer)
    ensures IsShowingAlert(Update(Update(t, dt1).timer, dt2).timer)
  {
  }

  /**
   The alert outlives its time by one call: the call that uses up the last of
   the alert time leaves the flag up, and only the following call (if it does
   not switch again) clears it.
   */
  lemma AlertClearedOneStepLate(t: Timer, dt1: real, dt2: real)
    requires IsShowingAlert(t) && 0.0 < t.switchAlertDuration <= dt1
    requires !Update(t, dt1).switched && !Update(Update(t, dt1).timer, dt2).switched
    ensures IsShowingAlert(Update(t, dt1).timer)
    ensures !IsShowingAlert(Update(Update(t, dt1).timer, dt2).timer)
  {
  }

  // ---------------------------------------------------------------------------
  // Runs of several steps

  function Run(t: Timer, dts: seq<real>): Timer
    decreases |dts|
  {
    if |dts| == 0 then t else Run(Update(t, dts[0]).timer, dts[1..])
  }

  /** How many calls of the run signalled a switch. */
  function SwitchCount(t: Timer, dts: seq<real>): nat
    decreases |dts|
  {
    if |dts| == 0 then 0
    else (if Update(t, dts[0]).switched then 1 else 0) + SwitchCount(Update(t, dts[0]).timer, dts[1..])
  }

  /** How many calls of the run found the 30 second reduce period over. */
  function ReduceCount(t: Timer, dts: seq<real>): nat
    decreases |dts|
  {
    if |dts| == 0 then 0
    else (if t.timeUntilReduce - dts[0] / 1000.0 <= 0.0 then 1 else 0)
         + ReduceCount(Update(t, dts[0]).timer, dts[1..])
  }

  /** Over any run with non-negative frame times the timer stays valid and the interval never grows. */
  lemma {:induction false} RunKeepsFloor(t: Timer, dts: seq<real>)
    requires Valid(t) && AllNonNegative(dts)
    ensures Valid(Run(t, dts))
    ensures MinInterval <= Run(t, dts).currentInterval <= t.currentInterval
    decreases |dts|
  {
    if |dts| > 0 {
      RunKeepsFloor(Update(t, dts[0]).timer, dts[1..]);
    }
  }

  /**
   After a run the interval is its old value less one second per reduce event,
   but never below the floor.
   */
  lemma {:induction false} IntervalAfterReductions(t: Timer, dts: seq<real>)
    requires t.minInterval <= t.currentInterval
    ensures var k := ReduceCount(t, dts);
            Run(t, dts).currentInterval ==
              if t.currentInterval - k < t.minInterval then t.minInterval else t.currentInterval - k
    decreases |dts|
  {
    if |dts| > 0 {
      IntervalAfterReductions(Update(t, dts[0]).timer, dts[1..]);
    }
  }

  /**
   No switch is signalled before the countdown has run out: while the elapsed
   time stays below the time left, every call just counts down.
   */
  lemma {:induction false} NoSwitchBeforeDeadline(t: Timer, dts: seq<real>)
    requires AllNonNegative(dts)
    requires Sum(dts) / 1000.0 < t.timeUntilSwitch
    ensures SwitchCount(t, dts) == 0
    ensures Run(t, dts).timeUntilSwitch == t.timeUntilSwitch - Sum(dts) / 1000.0
    decreases |dts|
  {
    if |dts| > 0 {
      SumNonNegative(dts[1..]);
      var u := Update(t, dts[0]);
      assert !u.switched;
      NoSwitchBeforeDeadline(u.timer, dts[1..]);
    }
  }

  /**
   A switch is signalled exactly when the elapsed time reaches the time that
   was left, and the countdown then restarts from the (possibly just reduced)
   interval.
   */
  lemma SwitchAtDeadline(t: Timer, dts: seq<real>, dt: real)
    requires AllNonNegative(dts) && dt >= 0.0
    requires Sum(dts) / 1000.0 < t.timeUntilSwitch <= (Sum(dts) + dt) / 1000.0
    ensures SwitchCount(t, dts) == 0
    ensures Update(Run(t, dts), dt).switched
    ensures Update(Run(t, dts), dt).timer.timeUntilSwitch ==
              Update(Run(t, dts), dt).timer.currentInterval as real
  {
    NoSwitchBeforeDeadline(t, dts);
  }
}
