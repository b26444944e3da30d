/**
 * `setup` and `loop`: the board resets the servos once, then every call of
 * `loop` runs one maneuver chosen by a movement counter — start, nine
 * forwards, ten lefts, ten forwards, ten rights, ten backwards — and idles
 * once the counter reaches 50.
 */
module Schedule {

  import opened Wrappers
  import opened Servos
  import opened Maneuvers

  /** The maneuvers the loop can choose. */
  datatype Move = StartMove | ForwardMove | LeftMove | RightMove | BackwardMove

  /** The maneuver `loop` runs for a counter value, or none once the counter reaches 50. */
  function Choose(count: int): (m: Option<Move>)
    ensures m.None? <==> count >= 50
    ensures m == Some(StartMove) <==> count == 0
  {
    if count == 0 then Some(StartMove)
    else if count < 10 then Some(ForwardMove)
    else if count < 20 then Some(LeftMove)
    else if count < 30 then Some(ForwardMove)
    else if count < 40 then Some(RightMove)
    else if count < 50 then Some(BackwardMove)
    else None
  }

  function MoveSteps(m: Move): seq<Step> {
    match m
    case StartMove => StartSteps()
    case ForwardMove => ForwardSteps()
    case LeftMove => LeftSteps()
    case RightMove => RightSteps()
    case BackwardMove => BackwardSteps()
  }

  /** The body angles a gait ends with. */
  function Body(m: Move): (b: seq<int>)
    ensures |b| == 4
  {
    match m
    case StartMove => [60, 20, 80, 20]
    case ForwardMove => [80, 70, 30, 15]
    case LeftMove => [40, 30, 50, 25]
    case RightMove => [60, 40, 60, 50]
    case BackwardMove => [20, 20, 80, 55]
  }

  /** The angles and the movement counter. */
  datatype Robot = Robot(state: State, count: int)

  /** One call of `loop`; `None` when the maneuver it runs never ends. */
  function Loop(r: Robot): (r': Option<Robot>)
    ensures r.count >= 50 ==> r' == Some(r)
    ensures r'.Some? && r.count < 50 ==> r'.value.count == r.count + 1
  {
    match Choose(r.count)
    case None => Some(r)
    case Some(m) =>
      match Execute(r.state, MoveSteps(m))
      case None => None
      case Some(t) => Some(Robot(t, r.count + 1))
  }

  /** `n` calls of `loop`. */
  function Iterate(r: Robot, n: nat): Option<Robot> {
    if n == 0 then Some(r)
    else
      match Iterate(r, n - 1)
      case None => None
      case Some(q) => Loop(q)
  }

  /** `setup`: the servos reset from the array the firmware starts with. */
  function Setup(): Option<State> {
    Execute(Initial, ResetSteps())
  }

  /** Every maneuver the loop chooses ends, from any state: start in the standing pose, a gait in its stance. */
  lemma MoveFromAny(s: State, m: Move)
    ensures m == StartMove ==> Execute(s, MoveSteps(m)) == Some(Standing)
    ensures m != StartMove ==> Execute(s, MoveSteps(m)) == Some(Stance(s, Body(m)))
  {
    match m
    case StartMove => StartFromAny(s);
    case ForwardMove => ForwardFromAny(s);
    case LeftMove => LeftFromAny(s);
    case RightMove => RightFromAny(s);
    case BackwardMove => BackwardFromAny(s);
  }

  /** The pose after the first `n` calls of `loop`, for 1 <= n <= 50: the stance of the last maneuver, on the standing claws. */
  function PoseAfter(n: nat): (p: State)
    requires 1 <= n <= 50
    ensures p[8..] == Standing[8..]
  {
    if n == 1 then Standing else Stance(Standing, Body(Choose(n - 1).value))
  }

  /** A call of `loop` below 50 runs the chosen maneuver to its end and advances the counter. */
  lemma LoopRuns(r: Robot)
    requires 0 <= r.count < 50
    ensures var m := Choose(r.count).value;
            Loop(r) == Some(Robot(if m == StartMove then Standing else Stance(r.state, Body(m)), r.count + 1))
  {
    MoveFromAny(r.state, Choose(r.count).value);
  }

  /** A stance depends on the earlier state only through its claws. */
  lemma StanceClaws(p: State, q: State, body: seq<int>)
    requires |body| == 4 && p[8..] == q[8..]
    ensures Stance(p, body) == Stance(q, body)
  {
  }

  /**
   * From any state with the counter at 0, the first `n` calls of `loop`
   * (n <= 50) all end, advance the counter to `n`, and leave the pose of the
   * last maneuver run.
   */
  lemma {:induction false} RunFromZero(s: State, n: nat)
    requires 1 <= n <= 50
    ensures Iterate(Robot(s, 0), n) == Some(Robot(PoseAfter(n), n))
  {
    if n == 1 {
      assert Iterate(Robot(s, 0), 0) == Some(Robot(s, 0));
      LoopRuns(Robot(s, 0));
    } else {
      RunFromZero(s, n - 1);
      RunStep(s, n - 1);
    }
  }

  /** One more call of `loop` after the first `n` moves from the pose after `n` to the pose after `n + 1`. */
  lemma RunStep(s: State, n: nat)
    requires 1 <= n < 50
    requires Iterate(Robot(s, 0), n) == Some(Robot(PoseAfter(n), n))
    ensures Iterate(Robot(s, 0), n + 1) == Some(Robot(PoseAfter(n + 1), n + 1))
  {
    var p := PoseAfter(n);
    LoopRuns(Robot(p, n));
    StanceClaws(p, Standing, Body(Choose(n).value));
  }

  /** Once the counter reaches 50 every later call of `loop` leaves the robot as it is. */
  lemma {:induction false} IdleAfterFifty(r: Robot, n: nat)
    requires r.count >= 50
    ensures Iterate(r, n) == Some(r)
  {
    if n > 0 {
      IdleAfterFifty(r, n - 1);
    }
  }

  /** `setup` leaves the resting pose. */
  lemma SetupRests()
    ensures Setup() == Some(Home)
  {
    ResetFromAny(Initial);
  }

  /** The last maneuver of the schedule is a backward step, which leaves its stance on the standing claws. */
  lemma FinalPose()
    ensures PoseAfter(50) == [20, 20, 80, 55, 60, 30, 60, 30, 60, 30, 50, 30]
  {
    assert Choose(49) == Some(BackwardMove);
  }

  /**
   * After setup, any number of loop calls from 50 on leave the robot in the
   * backward stance on the standing claws, with the counter at 50.
   */
  lemma Settled(n: nat)
    requires n >= 50
    ensures Iterate(Robot(Home, 0), n) == Some(Robot([20, 20, 80, 55, 60, 30, 60, 30, 60, 30, 50, 30], 50))
  {
    var r := Robot([20, 20, 80, 55, 60, 30, 60, 30, 60, 30, 50, 30], 50);
    assert Iterate(Robot(Home, 0), 50) == Some(r) by {
      RunFromZero(Home, 50);
      FinalPose();
    }
    IdleAfterFifty(r, n - 50);
    IterateSplit(Robot(Home, 0), 50, n - 50);
  }

  /** Running `a` calls then `b` more is running `a + b` calls. */
  lemma {:induction false} IterateSplit(r: Robot, a: nat, b: nat)
    ensures Iterate(r, a + b) == match Iterate(r, a) case None => None case Some(q) => Iterate(q, b)
  {
    if b > 0 {
      IterateSplit(r, a, b - 1);
    }
  }
}
