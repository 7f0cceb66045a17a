/** The optional value used where the game stores `null` (the attack hitbox, the winner). */
module Optional {

  datatype Option<+T> = None | Some(value: T)

}

/** Total elapsed time of a sequence of frame durations. */
module Durations {

  function Sum(dts: seq<real>): real
    decreases |dts|
  {
    if |dts| == 0 then 0.0 else dts[0] + Sum(dts[1..])
  }

  predicate AllNonNegative(dts: seq<real>)
  {
    forall i :: 0 <= i < |dts| ==> dts[i] >= 0.0
  }

  lemma {:induction false} SumNonNegative(dts: seq<real>)
    requires AllNonNegative(dts)
    ensures Sum(dts) >= 0.0
    decreases |dts|
  {
    if |dts| > 0 {
      SumNonNegative(dts[1..]);
    }
  }
}
