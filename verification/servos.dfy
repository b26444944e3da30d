/**
 * The twelve servo channels, their fixed angular limits, the current-angle
 * array and the gate `SetAngle` through which every write passes.
 *
 * Channels 0-3 move the body, 4-7 the segments and 8-11 the claws.
 */
module Servos {

  /** Number of servo channels driven by the board. */
  const Channels: nat := 12

  /** The current angle of every channel, in degrees. */
  type State = s: seq<int> | |s| == Channels witness [0, 0, 0, 0, 0, 0, 0, 0, 0, 0, 0, 0]

  /** An inclusive angular range. */
  datatype Range = Range(lo: int, hi: int)

  /** The per-channel limits table; it is never written. */
  const Limits: seq<Range> := [
    Range(0, 90), Range(0, 90), Range(0, 90), Range(0, 75),
    Range(0, 70), Range(20, 90), Range(0, 70), Range(20, 90),
    Range(20, 90), Range(0, 60), Range(10, 90), Range(0, 80)
  ]

  /** The angle array as it stands before any maneuver has run. */
  const Initial: State := [0, 0, 0, 0, 0, 0, 0, 0, 0, 0, 0, 0]

  predicate ValidId(id: int) {
    0 <= id < Channels
  }

  /** `angle` is a legal position for channel `id`. */
  predicate InLimits(id: int, angle: int) {
    ValidId(id) && Limits[id].lo <= angle <= Limits[id].hi
  }

  /** Every channel sits within its limits. */
  predicate Safe(s: State) {
    forall id :: 0 <= id < Channels ==> InLimits(id, s[id])
  }

  /** The outcome of one gated write: whether it was accepted, and the state after it. */
  datatype Write = Write(accepted: bool, state: State)

  /**
   * Writes `angle` to channel `id` when the channel exists and the angle lies
   * within that channel's limits; otherwise reports a rejection and changes nothing.
   */
  function SetAngle(s: State, id: int, angle: int): (w: Write)
    ensures w.accepted <==> 0 <= id < Channels && Limits[id].lo <= angle <= Limits[id].hi
    ensures w.accepted ==> w.state[id] == angle
    ensures forall j :: 0 <= j < Channels && j != id ==> w.state[j] == s[j]
    ensures !w.accepted ==> w.state == s
  {
    if InLimits(id, angle) then Write(true, s[id := angle]) else Write(false, s)
  }

  /** A second identical write changes nothing further and is accepted exactly when the first was. */
  lemma SetAngleIdempotent(s: State, id: int, angle: int)
    ensures var w := SetAngle(s, id, angle);
            SetAngle(w.state, id, angle) == w
  {
  }

  /** The gate never takes a safe state out of its limits. */
  lemma SetAnglePreservesSafe(s: State, id: int, angle: int)
    requires Safe(s)
    ensures Safe(SetAngle(s, id, angle).state)
  {
  }

  /**
   * The only unsafe entries a write can leave behind are those that were
   * already unsafe: an accepted write fixes its own channel.
   */
  lemma SetAngleNeverBreaksChannel(s: State, id: int, angle: int, j: int)
    requires 0 <= j < Channels && InLimits(j, s[j])
    ensures InLimits(j, SetAngle(s, id, angle).state[j])
  {
  }

  /** The array the firmware starts from violates the limits of channels 5, 7, 8 and 10, and only those. */
  lemma InitialLimits()
    ensures !Safe(Initial)
    ensures forall id :: 0 <= id < Channels ==>
              (!InLimits(id, Initial[id]) <==> id in {5, 7, 8, 10})
  {
    assert !InLimits(5, Initial[5]);
  }
}
