/**
 * The seven maneuvers — reset, stop, start, forward, backward, right and
 * left — written as the fixed step lists of the firmware and run by one
 * interpreter. A step writes one channel through the gate, waits (a no-op
 * here), or runs the synchronised ramp.
 */
module Maneuvers {

  import opened Wrappers
  import opened Servos
  import opened Ramp

  /** One statement of a maneuver. The ramp's `speed` is its per-row delay and has no effect on the angles. */
  datatype Step =
    | Set(id: int, angle: int)
    | Pause(ms: nat)
    | RampTo(targets: seq<Target>, speed: nat, inc: int)

  /**
   * A maneuver from state `s`. A ramp whose loop never ends (see
   * `Ramp.NeverCompletes`) makes the whole maneuver yield `None`.
   */
  function Execute(s: State, steps: seq<Step>): Option<State>
    decreases |steps|
  {
    if |steps| == 0 then Some(s)
    else match steps[0]
      case Set(id, angle) => Execute(SetAngle(s, id, angle).state, steps[1..])
      case Pause(_) => Execute(s, steps[1..])
      case RampTo(ts, _, inc) =>
        if RampFeasible(s, ts, inc) then Execute(RampRun(s, ts, inc), steps[1..]) else None
  }

  /** Continue with `steps` after an earlier part, unless that part never ended. */
  function Then(r: Option<State>, steps: seq<Step>): Option<State> {
    match r
    case None => None
    case Some(s) => Execute(s, steps)
  }

  // ---------------------------------------------------------------------------
  // The step lists, grouped as the firmware's code is

  /** Consecutive writes to channels `first`, `first + 1`, ... */
  function Block(first: int, angles: seq<int>): (steps: seq<Step>)
    ensures |steps| == |angles|
    ensures forall k :: 0 <= k < |angles| ==> steps[k] == Set(first + k, angles[k])
    decreases |angles|
  {
    if |angles| == 0 then [] else [Set(first, angles[0])] + Block(first + 1, angles[1..])
  }

  /** A write followed by a delay. */
  function Tap(id: int, angle: int, ms: nat): seq<Step> {
    [Set(id, angle), Pause(ms)]
  }

  /** One leg's move in a gait: raise its segment, swing its body joint, lower the segment. */
  function Swing(seg: int, raised: int, body: int, angle: int, lowered: int): seq<Step> {
    Tap(seg, raised, 100) + Tap(body, angle, 100) + Tap(seg, lowered, 200)
  }

  /** A ramp run at full speed, then a delay. */
  function Settle(ts: seq<Target>, inc: int): seq<Step> {
    [RampTo(ts, 0, inc), Pause(200)]
  }

  /** The claws, then the body joints, to their resting angles: the common end of reset and stop. */
  function RestTail(): seq<Step> {
    (Block(8, [20, 60, 10, 80]) + [Pause(100)]) + Block(0, [10, 70, 20, 65])
  }

  function ResetSteps(): seq<Step> {
    (Block(4, [0, 90, 0, 90]) + [Pause(100)]) + RestTail()
  }

  function StopSteps(): seq<Step> {
    [RampTo(StopTargets(), 10, 1), Pause(100)] + RestTail()
  }

  /** The segments' ramp at the start of stop. */
  function StopTargets(): seq<Target> {
    [Target(4, 0), Target(5, 90), Target(6, 0), Target(7, 90)]
  }

  function StartSteps(): seq<Step> {
    (Block(0, [60, 20, 80, 20]) + [Pause(100)]) + (Block(8, [60, 30, 50, 30]) + [Pause(1000)]) + Block(4, [60, 30, 60, 30])
  }

  /** Two leg moves, then the body joints ramped to their new angles. */
  function Stroke(a: seq<Step>, b: seq<Step>, ts: seq<Target>, inc: int): seq<Step> {
    a + b + Settle(ts, inc)
  }

  function ForwardSteps(): seq<Step> {
    Stroke(Swing(4, 30, 0, 20, 60), Swing(5, 60, 1, 20, 30), [Target(0, 80), Target(1, 70)], 10)
    + Stroke(Swing(7, 60, 3, 55, 30), Swing(6, 30, 2, 80, 60), [Target(2, 30), Target(3, 15)], 10)
  }

  function BackwardSteps(): seq<Step> {
    Stroke(Swing(5, 60, 1, 70, 30), Swing(4, 30, 0, 80, 60), [Target(0, 20), Target(1, 20)], 10)
    + Stroke(Swing(6, 30, 2, 30, 60), Swing(7, 60, 3, 15, 30), [Target(2, 80), Target(3, 55)], 10)
  }

  /**
   * A turn: the four legs step in order 0, 1, 2, 3, their body joints
   * swinging to `swing`, then all four body joints ramp in unit steps to `settle`.
   */
  function TurnSteps(swing: seq<int>, settle: seq<int>): seq<Step>
    requires |swing| == 4 && |settle| == 4
  {
    Stroke(Swing(4, 30, 0, swing[0], 60) + Swing(5, 60, 1, swing[1], 30),
           Swing(6, 30, 2, swing[2], 60) + Swing(7, 60, 3, swing[3], 30),
           [Target(0, settle[0]), Target(1, settle[1]), Target(2, settle[2]), Target(3, settle[3])], 1)
  }

  function RightSteps(): seq<Step> {
    TurnSteps([40, 30, 50, 25], [60, 40, 60, 50])
  }

  function LeftSteps(): seq<Step> {
    TurnSteps([60, 40, 60, 40], [40, 30, 50, 25])
  }

  /** The resting pose reset and stop leave the robot in. */
  const Home: State := [10, 70, 20, 65, 0, 90, 0, 90, 20, 60, 10, 80]

  /** The standing pose start leaves the robot in. */
  const Standing: State := [60, 20, 80, 20, 60, 30, 60, 30, 60, 30, 50, 30]

  /** The pose a gait ends in: body channels at `body`, segments lowered to 60, 30, 60, 30, claws as they were in `s`. */
  function Stance(s: State, body: seq<int>): (r: State)
    requires |body| == 4
    ensures r[..4] == body && r[8..] == s[8..]
  {
    body + [60, 30, 60, 30] + s[8..]
  }

  // ---------------------------------------------------------------------------
  // Composition

  /** Running two lists one after the other is running their concatenation. */
  lemma {:induction false} ExecuteConcat(s: State, a: seq<Step>, b: seq<Step>)
    ensures Execute(s, a + b) == Then(Execute(s, a), b)
    decreases |a|
  {
    if |a| == 0 {
      assert a + b == b;
    } else {
      assert (a + b)[1..] == a[1..] + b;
      match a[0]
      case Set(id, angle) => ExecuteConcat(SetAngle(s, id, angle).state, a[1..], b);
      case Pause(_) => ExecuteConcat(s, a[1..], b);
      case RampTo(ts, _, inc) =>
        if RampFeasible(s, ts, inc) {
          ExecuteConcat(RampRun(s, ts, inc), a[1..], b);
        }
    }
  }

  /** `s` with the stretch of channels from `first` replaced by `angles`. */
  function Put(s: State, first: nat, angles: seq<int>): (r: State)
    requires first + |angles| <= Channels
    ensures forall j :: 0 <= j < Channels ==> r[j] == if first <= j < first + |angles| then angles[j - first] else s[j]
  {
    s[..first] + angles + s[first + |angles|..]
  }

  /** Replacing a stretch is replacing its first channel, then the rest of the stretch. */
  lemma PutStep(s: State, first: nat, angles: seq<int>)
    requires |angles| > 0 && first + |angles| <= Channels
    ensures Put(s[first := angles[0]], first + 1, angles[1..]) == Put(s, first, angles)
  {
    var s' := s[first := angles[0]];
    forall j | 0 <= j < Channels
      ensures Put(s', first + 1, angles[1..])[j] == Put(s, first, angles)[j]
    {
      if first + 1 <= j < first + |angles| {
        assert angles[1..][j - (first + 1)] == angles[j - first];
      }
    }
  }

  /** The first write of a block, when legal, changes only its own channel. */
  lemma BlockStep(s: State, first: nat, angles: seq<int>)
    requires |angles| > 0 && first + |angles| <= Channels
    requires InLimits(first, angles[0])
    ensures Execute(s, Block(first, angles)) == Execute(s[first := angles[0]], Block(first + 1, angles[1..]))
  {
    assert Block(first, angles)[0] == Set(first, angles[0]);
    assert Block(first, angles)[1..] == Block(first + 1, angles[1..]);
  }

  /** A legal first write followed by the rest of the block replaces the whole stretch. */
  lemma BlockCons(s: State, first: nat, angles: seq<int>)
    requires |angles| > 0 && first + |angles| <= Channels
    requires InLimits(first, angles[0])
    requires Execute(s[first := angles[0]], Block(first + 1, angles[1..])) == Some(Put(s[first := angles[0]], first + 1, angles[1..]))
    ensures Execute(s, Block(first, angles)) == Some(Put(s, first, angles))
  {
    BlockStep(s, first, angles);
    PutStep(s, first, angles);
  }

  /** The angles after the first of a legal block form a legal block from the next channel. */
  lemma LegalRest(first: int, angles: seq<int>)
    requires |angles| > 0
    requires forall k :: 0 <= k < |angles| ==> InLimits(first + k, angles[k])
    ensures forall k :: 0 <= k < |angles[1..]| ==> InLimits(first + 1 + k, angles[1..][k])
  {
    forall k | 0 <= k < |angles[1..]| ensures InLimits(first + 1 + k, angles[1..][k]) {
      assert angles[1..][k] == angles[k + 1];
    }
  }

  /** Legal writes to consecutive channels replace that stretch of the state and nothing else. */
  lemma {:induction false} BlockEffect(s: State, first: nat, angles: seq<int>)
    requires first + |angles| <= Channels
    requires forall k :: 0 <= k < |angles| ==> InLimits(first + k, angles[k])
    ensures Execute(s, Block(first, angles)) == Some(Put(s, first, angles))
    decreases |angles|
  {
    if |angles| == 0 {
      assert Put(s, first, angles) == s;
    } else {
      assert InLimits(first + 0, angles[0]);
      LegalRest(first, angles);
      BlockEffect(s[first := angles[0]], first + 1, angles[1..]);
      BlockCons(s, first, angles);
    }
  }

  /** A block of legal writes followed by a delay. */
  lemma BlockPauseEffect(s: State, first: nat, angles: seq<int>, ms: nat)
    requires first + |angles| <= Channels
    requires forall k :: 0 <= k < |angles| ==> InLimits(first + k, angles[k])
    ensures Execute(s, Block(first, angles) + [Pause(ms)]) == Some(Put(s, first, angles))
  {
    BlockEffect(s, first, angles);
    PauseEffect(Put(s, first, angles), ms);
    Sequenced(s, Block(first, angles), [Pause(ms)], Put(s, first, angles), Put(s, first, angles));
  }

  /** A one-step list holding a write runs the gate once. */
  lemma SingleWrite(s: State, id: int, angle: int)
    ensures Execute(s, [Set(id, angle)]) == Some(SetAngle(s, id, angle).state)
  {
    assert [Set(id, angle)][1..] == [];
  }

  lemma PauseEffect(s: State, ms: nat)
    ensures Execute(s, [Pause(ms)]) == Some(s)
  {
    assert [Pause(ms)][1..] == [];
  }

  lemma TapEffect(s: State, id: int, angle: int, ms: nat)
    requires InLimits(id, angle)
    ensures Execute(s, Tap(id, angle, ms)) == Some(s[id := angle])
  {
    PauseEffect(s[id := angle], ms);
    assert Tap(id, angle, ms)[1..] == [Pause(ms)];
  }

  /** The three writes of a swing are legal, and it moves two different channels. */
  predicate LegalSwing(seg: int, raised: int, body: int, angle: int, lowered: int) {
    InLimits(seg, raised) && InLimits(body, angle) && InLimits(seg, lowered) && seg != body
  }

  /** A swing leaves the segment lowered and the body joint at its new angle. */
  lemma SwingEffect(s: State, seg: int, raised: int, body: int, angle: int, lowered: int)
    requires LegalSwing(seg, raised, body, angle, lowered)
    ensures Execute(s, Swing(seg, raised, body, angle, lowered)) == Some(s[seg := lowered][body := angle])
  {
    var t1, t2, t3 := Tap(seg, raised, 100), Tap(body, angle, 100), Tap(seg, lowered, 200);
    ExecuteConcat(s, t1 + t2, t3);
    ExecuteConcat(s, t1, t2);
    TapEffect(s, seg, raised, 100);
    TapEffect(s[seg := raised], body, angle, 100);
    TapEffect(s[seg := raised][body := angle], seg, lowered, 200);
    assert s[seg := raised][body := angle][seg := lowered] == s[seg := lowered][body := angle];
  }

  /** A ramp followed by a delay ends where the ramp ends, and never ends when the ramp does not. */
  lemma RampPauseEffect(s: State, ts: seq<Target>, speed: nat, inc: int, ms: nat)
    ensures Execute(s, [RampTo(ts, speed, inc), Pause(ms)])
            == if RampFeasible(s, ts, inc) then Some(Overwrite(s, ts)) else None
  {
    if RampFeasible(s, ts, inc) {
      PauseEffect(RampRun(s, ts, inc), ms);
    }
    assert [RampTo(ts, speed, inc), Pause(ms)][1..] == [Pause(ms)];
  }

  /** A stroke whose two leg moves end, and whose ramp terminates, ends where the ramp ends. */
  lemma StrokeEffect(s: State, a: seq<Step>, b: seq<Step>, ts: seq<Target>, inc: int, x: State, y: State)
    requires Execute(s, a) == Some(x) && Execute(x, b) == Some(y) && RampFeasible(y, ts, inc)
    ensures Execute(s, Stroke(a, b, ts, inc)) == Some(Overwrite(y, ts))
  {
    Sequenced(s, a, b, x, y);
    RampPauseEffect(y, ts, 0, inc, 200);
    Sequenced(s, a + b, Settle(ts, inc), y, Overwrite(y, ts));
  }

  /** Two parts that both end run as one. */
  lemma Sequenced(s: State, a: seq<Step>, b: seq<Step>, x: State, y: State)
    requires Execute(s, a) == Some(x) && Execute(x, b) == Some(y)
    ensures Execute(s, a + b) == Some(y)
  {
    ExecuteConcat(s, a, b);
  }

  // ---------------------------------------------------------------------------
  // Ramps and safety

  /** A ramp with unit steps toward legal targets from legal angles always terminates. */
  lemma UnitRampFeasible(s: State, ts: seq<Target>)
    requires ValidTargets(ts) && DistinctChannels(ts)
    requires forall k :: 0 <= k < |ts| ==> InLimits(ts[k].id, ts[k].angle) && InLimits(ts[k].id, s[ts[k].id])
    ensures RampFeasible(s, ts, 1)
  {
    forall k | 0 <= k < |ts|
      ensures Reachable(ts[k].id, s[ts[k].id], ts[k].angle, 1)
    {
      var v, t := s[ts[k].id], ts[k].angle;
      assert (t - v) % 1 == 0;
    }
  }

  /** A ramp that terminates never takes a safe state out of its limits. */
  lemma RampRunSafe(s: State, ts: seq<Target>, inc: int)
    requires RampFeasible(s, ts, inc) && Safe(s)
    ensures Safe(RampRun(s, ts, inc))
  {
    var r := RampRun(s, ts, inc);
    forall j | 0 <= j < Channels
      ensures InLimits(j, r[j])
    {
      if !Unlisted(ts, j) {
        var k :| 0 <= k < |ts| && ts[k].id == j;
        assert Reachable(ts[k].id, s[ts[k].id], ts[k].angle, inc);
      }
    }
  }

  /** No maneuver, and no list of steps at all, takes a safe state out of its limits. */
  lemma {:induction false} ExecutePreservesSafe(s: State, steps: seq<Step>)
    requires Safe(s)
    ensures Execute(s, steps).Some? ==> Safe(Execute(s, steps).value)
    decreases |steps|
  {
    if |steps| > 0 {
      match steps[0]
      case Set(id, angle) =>
        SetAnglePreservesSafe(s, id, angle);
        ExecutePreservesSafe(SetAngle(s, id, angle).state, steps[1..]);
      case Pause(_) =>
        ExecutePreservesSafe(s, steps[1..]);
      case RampTo(ts, _, inc) =>
        if RampFeasible(s, ts, inc) {
          RampRunSafe(s, ts, inc);
          ExecutePreservesSafe(RampRun(s, ts, inc), steps[1..]);
        }
    }
  }

  // ---------------------------------------------------------------------------
  // What each maneuver does

  /** Both fixed poses lie within every channel's limits. */
  lemma HomeAndStandingSafe()
    ensures Safe(Home) && Safe(Standing)
  {
  }

  /** Reset establishes the in-limits invariant from any state, the firmware's out-of-limits initial array included. */
  lemma ResetEstablishesSafe(s: State)
    ensures Execute(s, ResetSteps()).Some? && Safe(Execute(s, ResetSteps()).value)
  {
    ResetFromAny(s);
    HomeAndStandingSafe();
  }

  /** The segments stand at their resting angles 0, 90, 0, 90. */
  predicate SegmentsAtRest(x: State) {
    x[4] == 0 && x[5] == 90 && x[6] == 0 && x[7] == 90
  }

  /** The segment ramp of stop, when it ends, leaves the segments at rest. */
  lemma StopRampRests(s: State)
    requires RampFeasible(s, StopTargets(), 1)
    ensures SegmentsAtRest(Overwrite(s, StopTargets()))
  {
    var r := Overwrite(s, StopTargets());
    assert AllReached(r, StopTargets());
    assert forall k :: 0 <= k < 4 ==> StopTargets()[k] == Target(k + 4, if k % 2 == 0 then 0 else 90);
  }

  /** Claws and body joints written over segments at rest give the resting pose. */
  lemma HomePut(x: State)
    requires SegmentsAtRest(x)
    ensures Put(Put(x, 8, [20, 60, 10, 80]), 0, [10, 70, 20, 65]) == Home
  {
  }

  /** Once the claws are at rest, the body block of the common tail completes the resting pose. */
  lemma RestBodyEffect(x: State)
    requires SegmentsAtRest(x)
    ensures Execute(Put(x, 8, [20, 60, 10, 80]), Block(0, [10, 70, 20, 65])) == Some(Home)
  {
    BlockEffect(Put(x, 8, [20, 60, 10, 80]), 0, [10, 70, 20, 65]);
    HomePut(x);
  }

  /** From segments at rest, the common tail of reset and stop reaches the resting pose. */
  lemma RestTailEffect(x: State)
    requires SegmentsAtRest(x)
    ensures Execute(x, RestTail()) == Some(Home)
  {
    var y := Put(x, 8, [20, 60, 10, 80]);
    assert Execute(x, Block(8, [20, 60, 10, 80]) + [Pause(100)]) == Some(y) by {
      BlockPauseEffect(x, 8, [20, 60, 10, 80], 100);
    }
    RestBodyEffect(x);
    Sequenced(x, Block(8, [20, 60, 10, 80]) + [Pause(100)], Block(0, [10, 70, 20, 65]), y, Home);
  }

  /** Reset brings every channel to the resting pose, whatever state it starts from. */
  lemma ResetFromAny(s: State)
    ensures Execute(s, ResetSteps()) == Some(Home)
  {
    var x := Put(s, 4, [0, 90, 0, 90]);
    BlockPauseEffect(s, 4, [0, 90, 0, 90], 100);
    RestingSegments(s);
    RestTailEffect(x);
    Sequenced(s, Block(4, [0, 90, 0, 90]) + [Pause(100)], RestTail(), x, Home);
  }

  /** Reset's segment block puts the segments at rest. */
  lemma RestingSegments(s: State)
    ensures SegmentsAtRest(Put(s, 4, [0, 90, 0, 90]))
  {
    var x := Put(s, 4, [0, 90, 0, 90]);
    assert x[4] == 0 && x[5] == 90 && x[6] == 0 && x[7] == 90;
  }

  /** The three blocks of start together set every channel to the standing pose. */
  lemma StandingPut(s: State)
    ensures Put(Put(Put(s, 0, [60, 20, 80, 20]), 8, [60, 30, 50, 30]), 4, [60, 30, 60, 30]) == Standing
  {
  }

  /** The body and claw blocks of start, each followed by its delay. */
  lemma StartHead(s: State)
    ensures Execute(s, (Block(0, [60, 20, 80, 20]) + [Pause(100)]) + (Block(8, [60, 30, 50, 30]) + [Pause(1000)]))
            == Some(Put(Put(s, 0, [60, 20, 80, 20]), 8, [60, 30, 50, 30]))
  {
    var x := Put(s, 0, [60, 20, 80, 20]);
    BlockPauseEffect(s, 0, [60, 20, 80, 20], 100);
    BlockPauseEffect(x, 8, [60, 30, 50, 30], 1000);
    Sequenced(s, Block(0, [60, 20, 80, 20]) + [Pause(100)], Block(8, [60, 30, 50, 30]) + [Pause(1000)],
              x, Put(x, 8, [60, 30, 50, 30]));
  }

  /** Start brings every channel to the standing pose, whatever state it starts from. */
  lemma StartFromAny(s: State)
    ensures Execute(s, StartSteps()) == Some(Standing)
  {
    var head := (Block(0, [60, 20, 80, 20]) + [Pause(100)]) + (Block(8, [60, 30, 50, 30]) + [Pause(1000)]);
    var y := Put(Put(s, 0, [60, 20, 80, 20]), 8, [60, 30, 50, 30]);
    StartHead(s);
    BlockEffect(y, 4, [60, 30, 60, 30]);
    StandingPut(s);
    Sequenced(s, head, Block(4, [60, 30, 60, 30]), y, Standing);
  }

  /** Stop ends exactly when its segment ramp does, and then in the resting pose. */
  lemma StopEffect(s: State)
    ensures Execute(s, StopSteps()).Some? <==> RampFeasible(s, StopTargets(), 1)
    ensures RampFeasible(s, StopTargets(), 1) ==> Execute(s, StopSteps()) == Some(Home)
  {
    RampPauseEffect(s, StopTargets(), 10, 1, 100);
    ExecuteConcat(s, [RampTo(StopTargets(), 10, 1), Pause(100)], RestTail());
    if RampFeasible(s, StopTargets(), 1) {
      StopRampRests(s);
      RestTailEffect(Overwrite(s, StopTargets()));
    }
  }

  /** Stop ends, in the resting pose, from any state whose segments are within their limits. */
  lemma StopFromLegalSegments(s: State)
    requires forall j :: 4 <= j < 8 ==> InLimits(j, s[j])
    ensures Execute(s, StopSteps()) == Some(Home)
  {
    UnitRampFeasible(s, StopTargets());
    StopEffect(s);
  }

  /** With the segments within their limits, the gate accepts every step of stop's ramp, in every pass. */
  lemma StopRampAccepted(s: State, n: nat)
    requires forall j :: 4 <= j < 8 ==> InLimits(j, s[j])
    ensures StepsAccepted(PassIter(s, StopTargets(), 1, n), StopTargets(), 1)
  {
    UnitRampFeasible(s, StopTargets());
    FeasibleStepsAccepted(s, StopTargets(), 1, n);
  }

  /** The ramp table of a stroke: two body joints, the second listed first when `bFirst` holds. */
  function PairRows(a: int, ta: int, b: int, tb: int, bFirst: bool): seq<Target> {
    if bFirst then [Target(b, tb), Target(a, ta)] else [Target(a, ta), Target(b, tb)]
  }

  /** Two body joints set in the order their rows are listed. */
  function PairSet(x: State, a: int, ta: int, b: int, tb: int, bFirst: bool): State
    requires ValidId(a) && ValidId(b)
  {
    if bFirst then x[b := tb][a := ta] else x[a := ta][b := tb]
  }

  /**
   * A stroke of a straight gait: two swings on distinct channels, then their
   * two body joints ramped in steps of 10 to targets they can reach. It ends
   * with both segments lowered and both body joints on target.
   */
  lemma GaitStroke(s: State, segA: int, raisedA: int, bodyA: int, angleA: int, loweredA: int,
                   segB: int, raisedB: int, bodyB: int, angleB: int, loweredB: int,
                   targetA: int, targetB: int, bFirst: bool)
    requires LegalSwing(segA, raisedA, bodyA, angleA, loweredA) && LegalSwing(segB, raisedB, bodyB, angleB, loweredB)
    requires segA != segB && segA != bodyB && segB != bodyA && bodyA != bodyB
    requires Reachable(bodyA, angleA, targetA, 10) && Reachable(bodyB, angleB, targetB, 10)
    ensures Execute(s, Stroke(Swing(segA, raisedA, bodyA, angleA, loweredA), Swing(segB, raisedB, bodyB, angleB, loweredB),
                              PairRows(bodyA, targetA, bodyB, targetB, bFirst), 10))
            == Some(PairSet(s[segA := loweredA][segB := loweredB], bodyA, targetA, bodyB, targetB, bFirst))
  {
    var ts := PairRows(bodyA, targetA, bodyB, targetB, bFirst);
    var x1 := s[segA := loweredA][bodyA := angleA];
    var x2 := x1[segB := loweredB][bodyB := angleB];
    SwingEffect(s, segA, raisedA, bodyA, angleA, loweredA);
    SwingEffect(x1, segB, raisedB, bodyB, angleB, loweredB);
    PairFeasible(x2, bodyA, targetA, bodyB, targetB, bFirst);
    StrokeEffect(s, Swing(segA, raisedA, bodyA, angleA, loweredA), Swing(segB, raisedB, bodyB, angleB, loweredB), ts, 10, x1, x2);
    PairOverwrite(x2, bodyA, targetA, bodyB, targetB, bFirst);
    PairSetLegs(s, segA, loweredA, segB, loweredB, bodyA, angleA, bodyB, angleB, targetA, targetB, bFirst);
  }

  /** Two distinct body joints that can reach their targets in steps of 10 make a feasible ramp. */
  lemma PairFeasible(x: State, a: int, ta: int, b: int, tb: int, bFirst: bool)
    requires ValidId(a) && ValidId(b) && a != b
    requires Reachable(a, x[a], ta, 10) && Reachable(b, x[b], tb, 10)
    ensures RampFeasible(x, PairRows(a, ta, b, tb, bFirst), 10)
  {
  }

  /** The reference result of a two-row ramp on distinct channels sets those two channels. */
  lemma PairOverwrite(x: State, a: int, ta: int, b: int, tb: int, bFirst: bool)
    requires ValidId(a) && ValidId(b) && a != b
    ensures Overwrite(x, PairRows(a, ta, b, tb, bFirst)) == PairSet(x, a, ta, b, tb, bFirst)
  {
    var ts := PairRows(a, ta, b, tb, bFirst);
    assert ts[1..][1..] == [];
  }

  /** Setting the body joints overrides the angles the swings left them at. */
  lemma PairSetLegs(s: State, segA: int, la: int, segB: int, lb: int, a: int, aa: int, b: int, ab: int, ta: int, tb: int, bFirst: bool)
    requires ValidId(segA) && ValidId(segB) && ValidId(a) && ValidId(b)
    requires segA != b && segB != a
    ensures PairSet(s[segA := la][a := aa][segB := lb][b := ab], a, ta, b, tb, bFirst)
            == PairSet(s[segA := la][segB := lb], a, ta, b, tb, bFirst)
  {
  }

  /** The first stroke of forward: the left legs step, then body joints 0 and 1 ramp to 80 and 70. */
  lemma ForwardFirst(s: State)
    ensures Execute(s, Stroke(Swing(4, 30, 0, 20, 60), Swing(5, 60, 1, 20, 30), [Target(0, 80), Target(1, 70)], 10))
            == Some(s[4 := 60][5 := 30][0 := 80][1 := 70])
  {
    GaitStroke(s, 4, 30, 0, 20, 60, 5, 60, 1, 20, 30, 80, 70, false);
  }

  /** The second stroke of forward: the right legs step, then body joints 2 and 3 ramp to 30 and 15. */
  lemma ForwardSecond(s: State)
    ensures Execute(s, Stroke(Swing(7, 60, 3, 55, 30), Swing(6, 30, 2, 80, 60), [Target(2, 30), Target(3, 15)], 10))
            == Some(s[7 := 30][6 := 60][2 := 30][3 := 15])
  {
    GaitStroke(s, 7, 60, 3, 55, 30, 6, 30, 2, 80, 60, 15, 30, true);
  }

  /**
   * Stop straight from the firmware's initial array never ends: segment 5
   * sits at 0, and its first unit step toward 90 is outside its limits, so
   * no pass of the ramp ever reports completion.
   */
  lemma StopFromInitial()
    ensures Execute(Initial, StopSteps()) == None
    ensures forall n: nat :: !Pass(PassIter(Initial, StopTargets(), 1, n), StopTargets(), 1).complete
  {
    assert !Reachable(5, 0, 90, 1);
    StopEffect(Initial);
    forall n: nat
      ensures !Pass(PassIter(Initial, StopTargets(), 1, n), StopTargets(), 1).complete
    {
      NeverCompletes(Initial, StopTargets(), 1, 1, n);
    }
  }

  /** Start followed by stop returns any state to the resting pose. */
  lemma StartThenStop(s: State)
    ensures Execute(s, StartSteps() + StopSteps()) == Some(Home)
  {
    StartFromAny(s);
    HomeAndStandingSafe();
    StopFromLegalSegments(Standing);
    Sequenced(s, StartSteps(), StopSteps(), Standing, Home);
  }

  /** Forward from any state ends in the forward stance: body 80, 70, 30, 15, segments lowered, claws untouched. */
  lemma ForwardFromAny(s: State)
    ensures Execute(s, ForwardSteps()) == Some(Stance(s, [80, 70, 30, 15]))
  {
    var x := s[4 := 60][5 := 30][0 := 80][1 := 70];
    ForwardFirst(s);
    ForwardSecond(x);
    Sequenced(s, Stroke(Swing(4, 30, 0, 20, 60), Swing(5, 60, 1, 20, 30), [Target(0, 80), Target(1, 70)], 10),
              Stroke(Swing(7, 60, 3, 55, 30), Swing(6, 30, 2, 80, 60), [Target(2, 30), Target(3, 15)], 10),
              x, x[7 := 30][6 := 60][2 := 30][3 := 15]);
    assert x[7 := 30][6 := 60][2 := 30][3 := 15] == Stance(s, [80, 70, 30, 15]);
  }

  /** The first stroke of backward: the left legs step, then body joints 0 and 1 ramp to 20 and 20. */
  lemma BackwardFirst(s: State)
    ensures Execute(s, Stroke(Swing(5, 60, 1, 70, 30), Swing(4, 30, 0, 80, 60), [Target(0, 20), Target(1, 20)], 10))
            == Some(s[5 := 30][4 := 60][0 := 20][1 := 20])
  {
    GaitStroke(s, 5, 60, 1, 70, 30, 4, 30, 0, 80, 60, 20, 20, true);
  }

  /** The second stroke of backward: the right legs step, then body joints 2 and 3 ramp to 80 and 55. */
  lemma BackwardSecond(s: State)
    ensures Execute(s, Stroke(Swing(6, 30, 2, 30, 60), Swing(7, 60, 3, 15, 30), [Target(2, 80), Target(3, 55)], 10))
            == Some(s[6 := 60][7 := 30][2 := 80][3 := 55])
  {
    GaitStroke(s, 6, 30, 2, 30, 60, 7, 60, 3, 15, 30, 80, 55, false);
  }

  /** Backward from any state ends in the backward stance: body 20, 20, 80, 55, segments lowered, claws untouched. */
  lemma BackwardFromAny(s: State)
    ensures Execute(s, BackwardSteps()) == Some(Stance(s, [20, 20, 80, 55]))
  {
    var x := s[5 := 30][4 := 60][0 := 20][1 := 20];
    BackwardFirst(s);
    BackwardSecond(x);
    Sequenced(s, Stroke(Swing(5, 60, 1, 70, 30), Swing(4, 30, 0, 80, 60), [Target(0, 20), Target(1, 20)], 10),
              Stroke(Swing(6, 30, 2, 30, 60), Swing(7, 60, 3, 15, 30), [Target(2, 80), Target(3, 55)], 10),
              x, x[6 := 60][7 := 30][2 := 80][3 := 55]);
    assert x[6 := 60][7 := 30][2 := 80][3 := 55] == Stance(s, [20, 20, 80, 55]);
  }

  /** Legs 0 and 1 (or 2 and 3) of a turn step in order, leaving their segments lowered. */
  lemma TurnPair(s: State, seg0: int, r0: int, l0: int, seg1: int, r1: int, l1: int, b0: int, a0: int, b1: int, a1: int)
    requires LegalSwing(seg0, r0, b0, a0, l0) && LegalSwing(seg1, r1, b1, a1, l1)
    ensures Execute(s, Swing(seg0, r0, b0, a0, l0) + Swing(seg1, r1, b1, a1, l1))
            == Some(s[seg0 := l0][b0 := a0][seg1 := l1][b1 := a1])
  {
    SwingEffect(s, seg0, r0, b0, a0, l0);
    SwingEffect(s[seg0 := l0][b0 := a0], seg1, r1, b1, a1, l1);
    Sequenced(s, Swing(seg0, r0, b0, a0, l0), Swing(seg1, r1, b1, a1, l1),
              s[seg0 := l0][b0 := a0], s[seg0 := l0][b0 := a0][seg1 := l1][b1 := a1]);
  }

  /** After the four swings, the unit ramp of the body joints leaves the stance. */
  lemma TurnSettles(s: State, swing: seq<int>, settle: seq<int>)
    requires |swing| == 4 && |settle| == 4
    ensures var x := s[4 := 60][0 := swing[0]][5 := 30][1 := swing[1]][6 := 60][2 := swing[2]][7 := 30][3 := swing[3]];
            var ts := [Target(0, settle[0]), Target(1, settle[1]), Target(2, settle[2]), Target(3, settle[3])];
            Overwrite(x, ts) == Stance(s, settle)
  {
    var x := s[4 := 60][0 := swing[0]][5 := 30][1 := swing[1]][6 := 60][2 := swing[2]][7 := 30][3 := swing[3]];
    var ts := [Target(0, settle[0]), Target(1, settle[1]), Target(2, settle[2]), Target(3, settle[3])];
    assert forall k :: 0 <= k < |ts| ==> ts[k] == Target(k, settle[k]);
    var r := Overwrite(x, ts);
    assert AllReached(r, ts);
    forall j | 0 <= j < Channels ensures r[j] == Stance(s, settle)[j] {
      if j < 4 {
        assert ts[j].id == j;
      } else {
        assert Unlisted(ts, j);
      }
    }
  }

  /**
   * A turn with legal angles, from any state, ends with the body joints at
   * `settle`, the segments lowered and the claws untouched.
   */
  lemma TurnFromAny(s: State, swing: seq<int>, settle: seq<int>)
    requires |swing| == 4 && |settle| == 4
    requires forall k :: 0 <= k < 4 ==> InLimits(k, swing[k]) && InLimits(k, settle[k])
    ensures Execute(s, TurnSteps(swing, settle)) == Some(Stance(s, settle))
  {
    var ts := [Target(0, settle[0]), Target(1, settle[1]), Target(2, settle[2]), Target(3, settle[3])];
    var x1 := s[4 := 60][0 := swing[0]][5 := 30][1 := swing[1]];
    var x2 := x1[6 := 60][2 := swing[2]][7 := 30][3 := swing[3]];
    assert InLimits(0, swing[0]) && InLimits(1, swing[1]) && InLimits(2, swing[2]) && InLimits(3, swing[3]);
    TurnPair(s, 4, 30, 60, 5, 60, 30, 0, swing[0], 1, swing[1]);
    TurnPair(x1, 6, 30, 60, 7, 60, 30, 2, swing[2], 3, swing[3]);
    assert forall k :: 0 <= k < |ts| ==> ts[k] == Target(k, settle[k]);
    UnitRampFeasible(x2, ts);
    StrokeEffect(s, Swing(4, 30, 0, swing[0], 60) + Swing(5, 60, 1, swing[1], 30),
                 Swing(6, 30, 2, swing[2], 60) + Swing(7, 60, 3, swing[3], 30), ts, 1, x1, x2);
    TurnSettles(s, swing, settle);
  }

  /** Right from any state ends in the right stance: body 60, 40, 60, 50, segments lowered, claws untouched. */
  lemma RightFromAny(s: State)
    ensures Execute(s, RightSteps()) == Some(Stance(s, [60, 40, 60, 50]))
  {
    TurnFromAny(s, [40, 30, 50, 25], [60, 40, 60, 50]);
  }

  /** Left from any state ends in the left stance: body 40, 30, 50, 25, segments lowered, claws untouched. */
  lemma LeftFromAny(s: State)
    ensures Execute(s, LeftSteps()) == Some(Stance(s, [40, 30, 50, 25]))
  {
    TurnFromAny(s, [60, 40, 60, 40], [40, 30, 50, 25]);
  }

  // ---------------------------------------------------------------------------
  // Every literal write of every maneuver is accepted

  /**
   * Every `Set` step in the list lies within its channel's limits. Acceptance
   * by the gate depends only on the channel and the angle, so none of these
   * writes is ever rejected, whatever state the list runs from. The writes a
   * `RampTo` step makes depend on the state and are not covered here; see
   * `Ramp.StepsAccepted`.
   */
  predicate WritesLegal(steps: seq<Step>) {
    forall k :: 0 <= k < |steps| && steps[k].Set? ==> InLimits(steps[k].id, steps[k].angle)
  }

  /** A concatenation's writes are legal exactly when both parts' are. */
  lemma WritesLegalConcat(a: seq<Step>, b: seq<Step>)
    ensures WritesLegal(a + b) <==> WritesLegal(a) && WritesLegal(b)
  {
    var c := a + b;
    if WritesLegal(c) {
      forall k | 0 <= k < |a| && a[k].Set? ensures InLimits(a[k].id, a[k].angle) {
        assert c[k] == a[k];
      }
      forall k | 0 <= k < |b| && b[k].Set? ensures InLimits(b[k].id, b[k].angle) {
        assert c[|a| + k] == b[k];
      }
    }
    if WritesLegal(a) && WritesLegal(b) {
      forall k | 0 <= k < |c| && c[k].Set? ensures InLimits(c[k].id, c[k].angle) {
        if k < |a| {
          assert c[k] == a[k];
        } else {
          assert c[k] == b[k - |a|];
        }
      }
    }
  }

  /** A block's writes are legal exactly when each angle lies within its channel's limits. */
  lemma BlockWritesLegal(first: int, angles: seq<int>)
    ensures WritesLegal(Block(first, angles)) <==> forall k :: 0 <= k < |angles| ==> InLimits(first + k, angles[k])
  {
    var b := Block(first, angles);
    WritesLegalPointwise(b, first, angles);
  }

  /** Writes of `angles` to consecutive channels are legal exactly when each angle lies within its channel's limits. */
  lemma WritesLegalPointwise(b: seq<Step>, first: int, angles: seq<int>)
    requires |b| == |angles| && forall k :: 0 <= k < |b| ==> b[k] == Set(first + k, angles[k])
    ensures WritesLegal(b) <==> forall k :: 0 <= k < |angles| ==> InLimits(first + k, angles[k])
  {
    if WritesLegal(b) {
      forall k | 0 <= k < |angles| ensures InLimits(first + k, angles[k]) {
        assert b[k] == Set(first + k, angles[k]);
      }
    }
    if forall k :: 0 <= k < |angles| ==> InLimits(first + k, angles[k]) {
      forall k | 0 <= k < |b| && b[k].Set? ensures InLimits(b[k].id, b[k].angle) {
        assert b[k] == Set(first + k, angles[k]);
      }
    }
  }

  /** A swing's writes are legal exactly when its three angles are. */
  lemma SwingWritesLegal(seg: int, raised: int, body: int, angle: int, lowered: int)
    ensures WritesLegal(Swing(seg, raised, body, angle, lowered))
            <==> InLimits(seg, raised) && InLimits(body, angle) && InLimits(seg, lowered)
  {
    var sw := Swing(seg, raised, body, angle, lowered);
    assert sw == [Set(seg, raised), Pause(100), Set(body, angle), Pause(100), Set(seg, lowered), Pause(200)];
    assert sw[0].Set? && sw[2].Set? && sw[4].Set?;
  }

  /** A block followed by a delay has legal writes when the block's angles are legal. */
  lemma BlockPauseWritesLegal(first: int, angles: seq<int>, ms: nat)
    requires forall k :: 0 <= k < |angles| ==> InLimits(first + k, angles[k])
    ensures WritesLegal(Block(first, angles) + [Pause(ms)])
  {
    BlockWritesLegal(first, angles);
    assert WritesLegal([Pause(ms)]);
    WritesLegalConcat(Block(first, angles), [Pause(ms)]);
  }

  /** The literal writes of the common tail of reset and stop are accepted. */
  lemma RestTailWritesLegal()
    ensures WritesLegal(RestTail())
  {
    BlockPauseWritesLegal(8, [20, 60, 10, 80], 100);
    BlockWritesLegal(0, [10, 70, 20, 65]);
    WritesLegalConcat(Block(8, [20, 60, 10, 80]) + [Pause(100)], Block(0, [10, 70, 20, 65]));
  }

  /** The literal writes of reset, stop and start are all accepted; the ramp of stop is covered by `StopRampAccepted`. */
  lemma PoseWritesLegal()
    ensures WritesLegal(ResetSteps()) && WritesLegal(StopSteps()) && WritesLegal(StartSteps())
  {
    ResetWritesLegal();
    StopWritesLegal();
    StartWritesLegal();
  }

  /** The literal writes of reset are all accepted. */
  lemma ResetWritesLegal()
    ensures WritesLegal(ResetSteps())
  {
    RestTailWritesLegal();
    BlockPauseWritesLegal(4, [0, 90, 0, 90], 100);
    WritesLegalConcat(Block(4, [0, 90, 0, 90]) + [Pause(100)], RestTail());
  }

  /** The literal writes of stop are all accepted. */
  lemma StopWritesLegal()
    ensures WritesLegal(StopSteps())
  {
    RestTailWritesLegal();
    assert WritesLegal([RampTo(StopTargets(), 10, 1), Pause(100)]);
    WritesLegalConcat([RampTo(StopTargets(), 10, 1), Pause(100)], RestTail());
  }

  /** The literal writes of start are all accepted. */
  lemma StartWritesLegal()
    ensures WritesLegal(StartSteps())
  {
    var head := (Block(0, [60, 20, 80, 20]) + [Pause(100)]) + (Block(8, [60, 30, 50, 30]) + [Pause(1000)]);
    StartHeadWritesLegal();
    BlockWritesLegal(4, [60, 30, 60, 30]);
    WritesLegalConcat(head, Block(4, [60, 30, 60, 30]));
  }

  lemma StartHeadWritesLegal()
    ensures WritesLegal((Block(0, [60, 20, 80, 20]) + [Pause(100)]) + (Block(8, [60, 30, 50, 30]) + [Pause(1000)]))
  {
    BlockPauseWritesLegal(0, [60, 20, 80, 20], 100);
    BlockPauseWritesLegal(8, [60, 30, 50, 30], 1000);
    WritesLegalConcat(Block(0, [60, 20, 80, 20]) + [Pause(100)], Block(8, [60, 30, 50, 30]) + [Pause(1000)]);
  }

  /** A stroke's writes are legal exactly when both leg moves' are. */
  lemma StrokeWritesLegal(a: seq<Step>, b: seq<Step>, ts: seq<Target>, inc: int)
    ensures WritesLegal(Stroke(a, b, ts, inc)) <==> WritesLegal(a) && WritesLegal(b)
  {
    WritesLegalConcat(a, b);
    WritesLegalConcat(a + b, Settle(ts, inc));
  }

  /** The literal writes of the four gaits are all accepted. */
  lemma GaitWritesLegal()
    ensures WritesLegal(ForwardSteps()) && WritesLegal(BackwardSteps())
    ensures WritesLegal(RightSteps()) && WritesLegal(LeftSteps())
  {
    ForwardWritesLegal();
    BackwardWritesLegal();
    TurnWritesLegal([40, 30, 50, 25], [60, 40, 60, 50]);
    TurnWritesLegal([60, 40, 60, 40], [40, 30, 50, 25]);
  }

  lemma ForwardWritesLegal()
    ensures WritesLegal(ForwardSteps())
  {
    var a := Stroke(Swing(4, 30, 0, 20, 60), Swing(5, 60, 1, 20, 30), [Target(0, 80), Target(1, 70)], 10);
    var b := Stroke(Swing(7, 60, 3, 55, 30), Swing(6, 30, 2, 80, 60), [Target(2, 30), Target(3, 15)], 10);
    SwingWritesLegal(4, 30, 0, 20, 60);
    SwingWritesLegal(5, 60, 1, 20, 30);
    SwingWritesLegal(7, 60, 3, 55, 30);
    SwingWritesLegal(6, 30, 2, 80, 60);
    StrokeWritesLegal(Swing(4, 30, 0, 20, 60), Swing(5, 60, 1, 20, 30), [Target(0, 80), Target(1, 70)], 10);
    StrokeWritesLegal(Swing(7, 60, 3, 55, 30), Swing(6, 30, 2, 80, 60), [Target(2, 30), Target(3, 15)], 10);
    WritesLegalConcat(a, b);
  }

  lemma BackwardWritesLegal()
    ensures WritesLegal(BackwardSteps())
  {
    var a := Stroke(Swing(5, 60, 1, 70, 30), Swing(4, 30, 0, 80, 60), [Target(0, 20), Target(1, 20)], 10);
    var b := Stroke(Swing(6, 30, 2, 30, 60), Swing(7, 60, 3, 15, 30), [Target(2, 80), Target(3, 55)], 10);
    SwingWritesLegal(5, 60, 1, 70, 30);
    SwingWritesLegal(4, 30, 0, 80, 60);
    SwingWritesLegal(6, 30, 2, 30, 60);
    SwingWritesLegal(7, 60, 3, 15, 30);
    StrokeWritesLegal(Swing(5, 60, 1, 70, 30), Swing(4, 30, 0, 80, 60), [Target(0, 20), Target(1, 20)], 10);
    StrokeWritesLegal(Swing(6, 30, 2, 30, 60), Swing(7, 60, 3, 15, 30), [Target(2, 80), Target(3, 55)], 10);
    WritesLegalConcat(a, b);
  }

  /** A turn's writes are legal when its swing angles are. */
  lemma TurnWritesLegal(swing: seq<int>, settle: seq<int>)
    requires |swing| == 4 && |settle| == 4
    requires forall k :: 0 <= k < 4 ==> InLimits(k, swing[k])
    ensures WritesLegal(TurnSteps(swing, settle))
  {
    assert InLimits(0, swing[0]) && InLimits(1, swing[1]) && InLimits(2, swing[2]) && InLimits(3, swing[3]);
    SwingWritesLegal(4, 30, 0, swing[0], 60);
    SwingWritesLegal(5, 60, 1, swing[1], 30);
    SwingWritesLegal(6, 30, 2, swing[2], 60);
    SwingWritesLegal(7, 60, 3, swing[3], 30);
    WritesLegalConcat(Swing(4, 30, 0, swing[0], 60), Swing(5, 60, 1, swing[1], 30));
    WritesLegalConcat(Swing(6, 30, 2, swing[2], 60), Swing(7, 60, 3, swing[3], 30));
    StrokeWritesLegal(Swing(4, 30, 0, swing[0], 60) + Swing(5, 60, 1, swing[1], 30),
                      Swing(6, 30, 2, swing[2], 60) + Swing(7, 60, 3, swing[3], 30),
                      [Target(0, settle[0]), Target(1, settle[1]), Target(2, settle[2]), Target(3, settle[3])], 1);
  }
}
