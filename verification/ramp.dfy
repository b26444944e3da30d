/**
 * The synchronised ramp `incrementServo`: every listed channel is stepped by
 * `inc` toward its target, once per pass, until a whole pass ends with every
 * listed channel on target. Steps go through the `SetAngle` gate and are not
 * clamped, so a channel whose distance is not a multiple of `inc` overshoots.
 */
module Ramp {

  import opened Servos
  import opened Arith

  /** One row of the ramp's table: a channel and the angle it must reach. */
  datatype Target = Target(id: int, angle: int)

  /** The outcome of one pass: the state after it and the pass's completion flag. */
  datatype PassResult = PassResult(state: State, complete: bool)

  /** Every row names one of the twelve channels. */
  predicate ValidTargets(ts: seq<Target>) {
    forall k :: 0 <= k < |ts| ==> ValidId(ts[k].id)
  }

  /** No channel has two rows. */
  predicate DistinctChannels(ts: seq<Target>) {
    forall i, j :: 0 <= i < j < |ts| ==> ts[i].id != ts[j].id
  }

  /** Channel `j` has no row in the table. */
  predicate Unlisted(ts: seq<Target>, j: int) {
    forall k :: 0 <= k < |ts| ==> ts[k].id != j
  }

  /** Every listed channel is on its target. */
  predicate AllReached(s: State, ts: seq<Target>)
    requires ValidTargets(ts)
  {
    forall k :: 0 <= k < |ts| ==> s[ts[k].id] == ts[k].angle
  }

  /** The distance between two angles. */
  function Dist(a: int, b: int): nat {
    if a <= b then b - a else a - b
  }

  /** The angle one unclamped step of size `inc` away from `v`, in the direction of `t`. */
  function Toward(v: int, t: int, inc: int): int {
    if v > t then v - inc else v + inc
  }

  /** The new angle of channel `id`, currently at `v`, after the ramp visits it once. */
  function NudgeValue(id: int, v: int, t: int, inc: int): int {
    if v != t && InLimits(id, Toward(v, t, inc)) then Toward(v, t, inc) else v
  }

  /** One visit of the ramp to one row: a gated step toward the target, or nothing when on target. */
  function Nudge(s: State, id: int, t: int, inc: int): (r: State)
    requires ValidId(id)
    ensures r == s[id := NudgeValue(id, s[id], t, inc)]
  {
    if s[id] > t then SetAngle(s, id, s[id] - inc).state
    else if s[id] < t then SetAngle(s, id, s[id] + inc).state
    else s
  }

  /**
   * Rows `i..` of one pass. The flag is and-ed with the row's own equality
   * right after that row is visited, as the firmware computes it.
   */
  function PassFrom(s: State, ts: seq<Target>, inc: int, i: nat, complete: bool): PassResult
    requires ValidTargets(ts) && i <= |ts|
    decreases |ts| - i
  {
    if i == |ts| then PassResult(s, complete)
    else
      var s' := Nudge(s, ts[i].id, ts[i].angle, inc);
      PassFrom(s', ts, inc, i + 1, complete && s'[ts[i].id] == ts[i].angle)
  }

  /** One iteration of the outer loop of the ramp. */
  function Pass(s: State, ts: seq<Target>, inc: int): PassResult
    requires ValidTargets(ts)
  {
    PassFrom(s, ts, inc, 0, true)
  }

  /** With distinct channels a pass visits each listed channel once, and its flag says whether all are on target. */
  lemma {:induction false} PassFromEffect(s: State, ts: seq<Target>, inc: int, i: nat, complete: bool)
    requires ValidTargets(ts) && DistinctChannels(ts) && i <= |ts|
    ensures var p := PassFrom(s, ts, inc, i, complete);
            && (forall k :: i <= k < |ts| ==>
                  p.state[ts[k].id] == NudgeValue(ts[k].id, s[ts[k].id], ts[k].angle, inc))
            && (forall j :: 0 <= j < Channels && (forall k :: i <= k < |ts| ==> ts[k].id != j) ==>
                  p.state[j] == s[j])
            && (p.complete <==> complete && forall k :: i <= k < |ts| ==> p.state[ts[k].id] == ts[k].angle)
    decreases |ts| - i
  {
    if i < |ts| {
      var s' := Nudge(s, ts[i].id, ts[i].angle, inc);
      PassFromEffect(s', ts, inc, i + 1, complete && s'[ts[i].id] == ts[i].angle);
    }
  }

  /** A whole pass: each listed channel nudged once, the rest untouched, the flag set exactly when all are on target. */
  lemma PassEffect(s: State, ts: seq<Target>, inc: int)
    requires ValidTargets(ts) && DistinctChannels(ts)
    ensures var p := Pass(s, ts, inc);
            && (forall k :: 0 <= k < |ts| ==>
                  p.state[ts[k].id] == NudgeValue(ts[k].id, s[ts[k].id], ts[k].angle, inc))
            && (forall j :: 0 <= j < Channels && Unlisted(ts, j) ==> p.state[j] == s[j])
            && (p.complete <==> AllReached(p.state, ts))
  {
    PassFromEffect(s, ts, inc, 0, true);
  }

  // ---------------------------------------------------------------------------
  // When the ramp terminates

  /**
   * A channel at `v` reaches `t` by unclamped gated steps of `inc` exactly
   * when it is already there, or the target is legal, the distance is a
   * multiple of the step, and the first step is legal.
   */
  predicate Reachable(id: int, v: int, t: int, inc: int) {
    v == t || (inc >= 1 && InLimits(id, t) && (t - v) % inc == 0 && InLimits(id, Toward(v, t, inc)))
  }

  /**
   * The ramp's inputs under which it is modelled: it then terminates with
   * every row on target.
   */
  predicate RampFeasible(s: State, ts: seq<Target>, inc: int) {
    && inc >= 1
    && ValidTargets(ts)
    && DistinctChannels(ts)
    && forall k :: 0 <= k < |ts| ==> Reachable(ts[k].id, s[ts[k].id], ts[k].angle, inc)
  }

  /** The distance to a reachable target is a whole number of steps. */
  lemma DistMultiple(id: int, c: int, t: int, inc: int)
    requires inc >= 1 && Reachable(id, c, t, inc)
    ensures Dist(c, t) % inc == 0
  {
    if c > t {
      NegMod(t - c, inc);
    }
  }

  /** From a reachable angle, one visit takes exactly one step of `inc`, and the channel stays reachable. */
  lemma NudgeReachable(id: int, v: int, t: int, inc: int)
    requires inc >= 1 && Reachable(id, v, t, inc) && v != t
    ensures NudgeValue(id, v, t, inc) == Toward(v, t, inc)
    ensures Dist(Toward(v, t, inc), t) == Dist(v, t) - inc
    ensures Reachable(id, Toward(v, t, inc), t, inc)
  {
    var w := Toward(v, t, inc);
    DistMultiple(id, v, t, inc);
    MultipleAtLeastStep(Dist(v, t), inc);
    assert Dist(w, t) == Dist(v, t) - inc;
    if w != t {
      ShiftMod(t - v, inc);
      assert (t - w) % inc == 0;
      assert Dist(w, t) % inc == 0 by {
        if w > t {
          NegMod(t - w, inc);
        }
      }
      MultipleAtLeastStep(Dist(w, t), inc);
      assert InLimits(id, Toward(w, t, inc));
    }
  }

  /** From an unreachable angle, every visit leaves the channel unreachable, so never on target. */
  lemma NudgeUnreachable(id: int, v: int, t: int, inc: int)
    requires inc >= 1 && !Reachable(id, v, t, inc)
    ensures !Reachable(id, NudgeValue(id, v, t, inc), t, inc)
  {
    ShiftMod(t - v, inc);
    var w := NudgeValue(id, v, t, inc);
    if w != v {
      assert t - w == t - v + inc || t - w == t - v - inc;
    }
  }

  // ---------------------------------------------------------------------------
  // The reference result and the pure iteration of passes

  /** `s` with every listed channel set to its target; a reference for where the ramp ends. */
  function Overwrite(s: State, ts: seq<Target>): (r: State)
    requires ValidTargets(ts)
    ensures DistinctChannels(ts) ==> AllReached(r, ts)
    ensures forall j :: 0 <= j < Channels && Unlisted(ts, j) ==> r[j] == s[j]
    decreases |ts|
  {
    if |ts| == 0 then s
    else
      var r := Overwrite(s[ts[0].id := ts[0].angle], ts[1..]);
      assert forall j :: 0 <= j < Channels && Unlisted(ts, j) ==> Unlisted(ts[1..], j);
      assert DistinctChannels(ts) ==> Unlisted(ts[1..], ts[0].id);
      r
  }

  /** Total remaining travel of the listed channels. */
  function Remaining(s: State, ts: seq<Target>): nat
    requires ValidTargets(ts)
    decreases |ts|
  {
    if |ts| == 0 then 0 else Dist(s[ts[0].id], ts[0].angle) + Remaining(s, ts[1..])
  }

  /** No row's distance grows and one row's shrinks: the remaining travel shrinks. */
  lemma {:induction false} RemainingShrinks(s: State, s': State, ts: seq<Target>, k: int)
    requires ValidTargets(ts) && 0 <= k < |ts|
    requires forall i :: 0 <= i < |ts| ==> Dist(s'[ts[i].id], ts[i].angle) <= Dist(s[ts[i].id], ts[i].angle)
    requires Dist(s'[ts[k].id], ts[k].angle) < Dist(s[ts[k].id], ts[k].angle)
    ensures Remaining(s', ts) < Remaining(s, ts)
    decreases |ts|
  {
    if k > 0 {
      RemainingShrinks(s, s', ts[1..], k - 1);
    } else {
      RemainingNoGrowth(s, s', ts[1..]);
    }
  }

  /** No row's distance grows: neither does the remaining travel. */
  lemma {:induction false} RemainingNoGrowth(s: State, s': State, ts: seq<Target>)
    requires ValidTargets(ts)
    requires forall i :: 0 <= i < |ts| ==> Dist(s'[ts[i].id], ts[i].angle) <= Dist(s[ts[i].id], ts[i].angle)
    ensures Remaining(s', ts) <= Remaining(s, ts)
    decreases |ts|
  {
    if |ts| > 0 {
      RemainingNoGrowth(s, s', ts[1..]);
    }
  }

  /** An unfinished pass from a feasible state keeps the ramp feasible and strictly reduces the remaining travel. */
  lemma PassProgress(s: State, ts: seq<Target>, inc: int)
    requires RampFeasible(s, ts, inc)
    ensures var p := Pass(s, ts, inc);
            && RampFeasible(p.state, ts, inc)
            && (!p.complete ==> Remaining(p.state, ts) < Remaining(s, ts))
  {
    var p := Pass(s, ts, inc);
    PassEffect(s, ts, inc);
    forall k | 0 <= k < |ts|
      ensures Reachable(ts[k].id, p.state[ts[k].id], ts[k].angle, inc)
      ensures Dist(p.state[ts[k].id], ts[k].angle) <= Dist(s[ts[k].id], ts[k].angle)
    {
      if s[ts[k].id] != ts[k].angle {
        NudgeReachable(ts[k].id, s[ts[k].id], ts[k].angle, inc);
      }
    }
    if !p.complete {
      var k :| 0 <= k < |ts| && p.state[ts[k].id] != ts[k].angle;
      NudgeReachable(ts[k].id, s[ts[k].id], ts[k].angle, inc);
      RemainingShrinks(s, p.state, ts, k);
    }
  }

  /**
   * The gate accepts the step each unfinished row would take next. With
   * distinct channels a pass visits each channel once, at the angle it had
   * when the pass began, so this covers every write of the next pass.
   */
  predicate StepsAccepted(s: State, ts: seq<Target>, inc: int)
    requires ValidTargets(ts)
  {
    forall k :: 0 <= k < |ts| && s[ts[k].id] != ts[k].angle ==>
      SetAngle(s, ts[k].id, Toward(s[ts[k].id], ts[k].angle, inc)).accepted
  }

  /** A feasible ramp stays feasible pass after pass, and the gate never rejects one of its steps. */
  lemma {:induction false} FeasibleStepsAccepted(s: State, ts: seq<Target>, inc: int, n: nat)
    requires RampFeasible(s, ts, inc)
    ensures RampFeasible(PassIter(s, ts, inc, n), ts, inc)
    ensures StepsAccepted(PassIter(s, ts, inc, n), ts, inc)
  {
    if n > 0 {
      FeasibleStepsAccepted(s, ts, inc, n - 1);
      PassProgress(PassIter(s, ts, inc, n - 1), ts, inc);
    }
    var r := PassIter(s, ts, inc, n);
    forall k | 0 <= k < |ts| && r[ts[k].id] != ts[k].angle
      ensures SetAngle(r, ts[k].id, Toward(r[ts[k].id], ts[k].angle, inc)).accepted
    {
      assert Reachable(ts[k].id, r[ts[k].id], ts[k].angle, inc);
    }
  }

  /**
   * The ramp as a pure iteration of passes, stopping after the first pass
   * whose flag is set. It ends with every listed channel on target and the
   * others untouched.
   */
  function RampRun(s: State, ts: seq<Target>, inc: int): (r: State)
    requires RampFeasible(s, ts, inc)
    ensures r == Overwrite(s, ts)
    decreases Remaining(s, ts)
  {
    var p := Pass(s, ts, inc);
    PassEffect(s, ts, inc);
    PassProgress(s, ts, inc);
    if p.complete then p.state else RampRun(p.state, ts, inc)
  }

  /** The state after `n` passes, whatever their flags said. */
  function PassIter(s: State, ts: seq<Target>, inc: int, n: nat): State
    requires ValidTargets(ts)
  {
    if n == 0 then s else Pass(PassIter(s, ts, inc, n - 1), ts, inc).state
  }

  /**
   * The converse of feasibility: with distinct channels, one row that is not
   * reachable keeps every pass from reporting completion, so the firmware's
   * loop never ends.
   */
  lemma {:induction false} NeverCompletes(s: State, ts: seq<Target>, inc: int, k: int, n: nat)
    requires inc >= 1 && ValidTargets(ts) && DistinctChannels(ts)
    requires 0 <= k < |ts| && !Reachable(ts[k].id, s[ts[k].id], ts[k].angle, inc)
    ensures !Reachable(ts[k].id, PassIter(s, ts, inc, n)[ts[k].id], ts[k].angle, inc)
    ensures !Pass(PassIter(s, ts, inc, n), ts, inc).complete
  {
    var cur := PassIter(s, ts, inc, n);
    if n > 0 {
      NeverCompletes(s, ts, inc, k, n - 1);
      var prev := PassIter(s, ts, inc, n - 1);
      PassEffect(prev, ts, inc);
      NudgeUnreachable(ts[k].id, prev[ts[k].id], ts[k].angle, inc);
    }
    PassEffect(cur, ts, inc);
    NudgeUnreachable(ts[k].id, cur[ts[k].id], ts[k].angle, inc);
  }

  /**
   * No clamping: a channel at 10 ramped to 15 in steps of 10 swings between
   * 20 and 10 for ever, each pass unfinished.
   */
  lemma OvershootOscillates(s: State)
    requires s[0] == 10
    ensures var ts := [Target(0, 15)];
            var p1 := Pass(s, ts, 10);
            var p2 := Pass(p1.state, ts, 10);
            p1.state[0] == 20 && !p1.complete && p2.state == s && !p2.complete
  {
    var ts := [Target(0, 15)];
    PassEffect(s, ts, 10);
    PassEffect(Pass(s, ts, 10).state, ts, 10);
  }

  /**
   * A step the gate rejects stalls the channel instead: channel 3 (limits
   * 0..75) at 70 ramped to 75 in steps of 10 would go to 80, so it stays at
   * 70 and the pass stays unfinished, every time.
   */
  lemma RejectedStepStalls(s: State)
    requires s[3] == 70
    ensures var p := Pass(s, [Target(3, 75)], 10);
            p.state == s && !p.complete
  {
    PassEffect(s, [Target(3, 75)], 10);
  }

  // ---------------------------------------------------------------------------
  // The imperative ramp and its pass count

  /** The largest remaining distance over the listed channels. */
  function Widest(s: State, ts: seq<Target>): (w: nat)
    requires ValidTargets(ts)
    ensures forall k :: 0 <= k < |ts| ==> Dist(s[ts[k].id], ts[k].angle) <= w
    ensures |ts| == 0 ==> w == 0
    ensures |ts| > 0 ==> exists k :: 0 <= k < |ts| && Dist(s[ts[k].id], ts[k].angle) == w
    decreases |ts|
  {
    if |ts| == 0 then 0
    else
      var w := Widest(s, ts[1..]);
      assert forall k :: 1 <= k < |ts| ==> ts[1..][k - 1] == ts[k];
      if Dist(s[ts[0].id], ts[0].angle) < w then w else Dist(s[ts[0].id], ts[0].angle)
  }

  /** Where a channel that starts at `c` stands after travelling `d` toward `t` without passing it. */
  function Advance(c: int, t: int, d: nat): int {
    if Dist(c, t) <= d then t else if c < t then c + d else c - d
  }

  /** A visit to a reachable channel that has advanced `n` steps advances it one step more. */
  lemma AdvanceNudge(id: int, c: int, t: int, inc: int, n: nat)
    requires inc >= 1 && Reachable(id, c, t, inc)
    ensures NudgeValue(id, Advance(c, t, n * inc), t, inc) == Advance(c, t, (n + 1) * inc)
  {
    var d := n * inc;
    var d' := (n + 1) * inc;
    MulSucc(n, inc);
    if Dist(c, t) > d {
      DistMultiple(id, c, t, inc);
      GapAtLeastStep(Dist(c, t), n, inc);
      var v := Advance(c, t, d);
      assert v != t;
      assert Toward(v, t, inc) == Advance(c, t, d');
      assert InLimits(id, Toward(c, t, inc)) && InLimits(id, t);
      assert InLimits(id, Toward(v, t, inc));
    }
  }

  /** The distance covered by `n` steps of `inc`, written without multiplication. */
  function Stride(n: nat, inc: nat): nat {
    if n == 0 then 0 else Stride(n - 1, inc) + inc
  }

  /** `n` steps of `inc` cover `n * inc`. */
  lemma {:induction false} StrideIsProduct(n: nat, inc: nat)
    ensures Stride(n, inc) == n * inc
  {
    if n > 0 {
      StrideIsProduct(n - 1, inc);
      MulSucc(n - 1, inc);
    }
  }

  /** The invariant of the outer loop: after `n` passes every listed channel has advanced `n` steps, capped at its target. */
  predicate AdvancedBy(s: State, r: State, ts: seq<Target>, d: nat)
    requires ValidTargets(ts)
  {
    && (forall k :: 0 <= k < |ts| ==> r[ts[k].id] == Advance(s[ts[k].id], ts[k].angle, d))
    && (forall j :: 0 <= j < Channels && Unlisted(ts, j) ==> r[j] == s[j])
  }

  /** One more pass advances every listed channel by one more step. */
  lemma PassAdvances(s: State, r: State, ts: seq<Target>, inc: int, n: nat)
    requires RampFeasible(s, ts, inc) && AdvancedBy(s, r, ts, Stride(n, inc))
    ensures var p := Pass(r, ts, inc);
            && AdvancedBy(s, p.state, ts, Stride(n + 1, inc))
            && (p.complete <==> AllReached(p.state, ts))
  {
    StrideIsProduct(n, inc);
    StrideIsProduct(n + 1, inc);
    var p := Pass(r, ts, inc);
    PassEffect(r, ts, inc);
    forall k | 0 <= k < |ts|
      ensures p.state[ts[k].id] == Advance(s[ts[k].id], ts[k].angle, (n + 1) * inc)
    {
      AdvanceNudge(ts[k].id, s[ts[k].id], ts[k].angle, inc, n);
    }
  }

  /** Before any pass, every channel has advanced by nothing. */
  lemma NoAdvance(s: State, ts: seq<Target>, inc: nat)
    requires ValidTargets(ts)
    ensures AdvancedBy(s, s, ts, Stride(0, inc))
  {
    StrideIsProduct(0, inc);
  }

  /** After `n` passes from a feasible state, every listed channel has advanced `n` steps, capped at its target. */
  lemma {:induction false} IterAdvanced(s: State, ts: seq<Target>, inc: int, n: nat)
    requires RampFeasible(s, ts, inc)
    ensures AdvancedBy(s, PassIter(s, ts, inc, n), ts, Stride(n, inc))
  {
    if n > 0 {
      IterAdvanced(s, ts, inc, n - 1);
      IterStep(s, ts, inc, n - 1);
    } else {
      NoAdvance(s, ts, inc);
    }
  }

  /** The pass after the `n`-th advances every listed channel one step further. */
  lemma IterStep(s: State, ts: seq<Target>, inc: int, n: nat)
    requires RampFeasible(s, ts, inc) && AdvancedBy(s, PassIter(s, ts, inc, n), ts, Stride(n, inc))
    ensures AdvancedBy(s, PassIter(s, ts, inc, n + 1), ts, Stride(n + 1, inc))
  {
    PassAdvances(s, PassIter(s, ts, inc, n), ts, inc, n);
  }

  /** Having advanced `d`, all listed channels are on target exactly when `d` covers the widest distance. */
  lemma ReachedIffCovered(s: State, r: State, ts: seq<Target>, inc: int, d: nat)
    requires RampFeasible(s, ts, inc) && AdvancedBy(s, r, ts, d)
    ensures AllReached(r, ts) <==> Widest(s, ts) <= d
  {
    if |ts| > 0 && AllReached(r, ts) {
      var k :| 0 <= k < |ts| && Dist(s[ts[k].id], ts[k].angle) == Widest(s, ts);
      assert r[ts[k].id] == ts[k].angle;
    }
  }

  /** The number of passes the ramp runs: max(1, widest distance / inc). */
  function PassesNeeded(s: State, ts: seq<Target>, inc: int): nat
    requires inc >= 1 && ValidTargets(ts)
  {
    Max(1, Widest(s, ts) / inc)
  }

  /** `n` passes (at least one) cover the widest distance exactly when `n` is at least the pass count. */
  lemma CoveredIffEnough(s: State, ts: seq<Target>, inc: int, n: nat)
    requires RampFeasible(s, ts, inc) && n >= 1
    ensures Widest(s, ts) <= Stride(n, inc) <==> PassesNeeded(s, ts, inc) <= n
  {
    var w := Widest(s, ts);
    StrideIsProduct(n, inc);
    if |ts| > 0 {
      var k :| 0 <= k < |ts| && Dist(s[ts[k].id], ts[k].angle) == w;
      DistMultiple(ts[k].id, s[ts[k].id], ts[k].angle, inc);
    }
    DivMod(w, inc);
    var m := w / inc;
    MulLeIff(m, n, inc);
  }

  /** The flag of pass `n + 1` is set exactly when that pass is the last one the ramp needs. */
  lemma IterComplete(s: State, ts: seq<Target>, inc: int, n: nat)
    requires RampFeasible(s, ts, inc)
    ensures Pass(PassIter(s, ts, inc, n), ts, inc).complete <==> PassesNeeded(s, ts, inc) <= n + 1
  {
    PassEffect(PassIter(s, ts, inc, n), ts, inc);
    IterReached(s, ts, inc, n + 1);
  }

  /** After `n` passes (at least one) every listed channel is on target exactly when `n` is at least the pass count. */
  lemma IterReached(s: State, ts: seq<Target>, inc: int, n: nat)
    requires RampFeasible(s, ts, inc) && n >= 1
    ensures AllReached(PassIter(s, ts, inc, n), ts) <==> PassesNeeded(s, ts, inc) <= n
  {
    IterAdvanced(s, ts, inc, n);
    ReachedIffCovered(s, PassIter(s, ts, inc, n), ts, inc, Stride(n, inc));
    CoveredIffEnough(s, ts, inc, n);
  }

  /** After exactly the needed number of passes the ramp stands at the reference result. */
  lemma IterFinal(s: State, ts: seq<Target>, inc: int)
    requires RampFeasible(s, ts, inc)
    ensures var n := PassesNeeded(s, ts, inc);
            var r := PassIter(s, ts, inc, n);
            && r == RampRun(s, ts, inc)
            && n * inc == Max(inc, Widest(s, ts))
  {
    var n := PassesNeeded(s, ts, inc);
    var r := PassIter(s, ts, inc, n);
    IterAdvanced(s, ts, inc, n);
    CoveredIffEnough(s, ts, inc, n);
    ReachedIffCovered(s, r, ts, inc, Stride(n, inc));
    assert r == Overwrite(s, ts);
    PassesNeededProduct(s, ts, inc);
  }

  /** The passes the ramp runs cover exactly the widest distance, and at least one step. */
  lemma PassesNeededProduct(s: State, ts: seq<Target>, inc: int)
    requires RampFeasible(s, ts, inc)
    ensures PassesNeeded(s, ts, inc) * inc == Max(inc, Widest(s, ts))
  {
    WidestMultiple(s, ts, inc);
    CountTimesStep(Widest(s, ts), inc);
  }

  /** The widest distance of a feasible ramp is a whole number of steps. */
  lemma WidestMultiple(s: State, ts: seq<Target>, inc: int)
    requires RampFeasible(s, ts, inc)
    ensures Widest(s, ts) % inc == 0
  {
    if |ts| > 0 {
      var k :| 0 <= k < |ts| && Dist(s[ts[k].id], ts[k].angle) == Widest(s, ts);
      DistMultiple(ts[k].id, s[ts[k].id], ts[k].angle, inc);
    }
  }

  /**
   * The ramp of the firmware, with its `complete` flag and outer loop. It ends
   * with every listed channel on target and the others untouched, after
   * max(1, widest distance / inc) passes.
   */
  method IncrementServo(s: State, ts: seq<Target>, inc: int) returns (r: State, passes: nat)
    requires RampFeasible(s, ts, inc)
    ensures AllReached(r, ts)
    ensures forall j :: 0 <= j < Channels && Unlisted(ts, j) ==> r[j] == s[j]
    ensures passes == Max(1, Widest(s, ts) / inc)
    ensures passes * inc == Max(inc, Widest(s, ts))
    ensures Safe(s) ==> Safe(r)
    ensures r == RampRun(s, ts, inc)
  {
    r, passes := s, 0;
    var complete := false;
    while !complete
      invariant r == PassIter(s, ts, inc, passes)
      invariant passes <= PassesNeeded(s, ts, inc)
      invariant complete <==> passes == PassesNeeded(s, ts, inc)
      decreases PassesNeeded(s, ts, inc) - passes
    {
      IterComplete(s, ts, inc, passes);
      var p := Pass(r, ts, inc);
      r, complete := p.state, p.complete;
      passes := passes + 1;
    }
    IterFinal(s, ts, inc);
  }
}
