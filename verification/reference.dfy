/** A reference description of the teleoperation loop with no save slots, no
    restore step and no dirty flag: the speed is one integer count of 0.2
    steps shared by both channels. */
module Reference {
  import opened Wrappers
  import opened Keys
  import opened Speed
  import opened Messages

  datatype RefState = RefState(ticks: nat, c: byte)

  datatype RefResult =
    | RefNext(state: RefState, out: Option<Published>)
    | RefExit(reason: ExitReason)

  function RefInit(c0: byte): RefState {
    RefState(InitialTicks, c0)
  }

  /** One key: movement keys publish the current speed on their channel,
      'p'/'m' move the count up or down, 'q' ends, everything else is
      ignored. A read with no data repeats the previous key. */
  function RefStep(p: Params, r: RefState, ev: ReadOutcome): (res: RefResult)
    ensures r.ticks <= MaxTicks && res.RefNext? ==> res.state.ticks <= MaxTicks
  {
    match ev
    case Failed => RefExit(ReadError)
    case _ =>
      var key := KeyFor(r.c, ev);
      var v := SpeedOf(r.ticks);
      match Classify(key)
      case TurnLeft => RefNext(r.(c := key), Some(Published(0.0, Scaled(p.aScale, v))))
      case TurnRight => RefNext(r.(c := key), Some(Published(0.0, Scaled(p.aScale, -v))))
      case Forward => RefNext(r.(c := key), Some(Published(Scaled(p.lScale, v), 0.0)))
      case Backward => RefNext(r.(c := key), Some(Published(Scaled(p.lScale, -v), 0.0)))
      case SpeedUp => RefNext(RefState(IncTicks(r.ticks), key), None)
      case SpeedDown => RefNext(RefState(DecTicks(r.ticks), key), None)
      case Quit => RefExit(QuitKey)
      case Ignore => RefNext(r.(c := key), None)
  }

  datatype RefTranscript = RefTranscript(
    published: seq<Published>,
    exit: Option<ExitReason>,
    last: RefState)

  function RefRun(p: Params, r: RefState, evs: seq<ReadOutcome>): (t: RefTranscript)
    ensures |t.published| <= |evs|
    decreases |evs|
  {
    if evs == [] then RefTranscript([], None, r)
    else
      match RefStep(p, r, evs[0])
      case RefExit(reason) => RefTranscript([], Some(reason), r)
      case RefNext(r', out) =>
        var rest := RefRun(p, r', evs[1..]);
        RefTranscript(ToSeq(out) + rest.published, rest.exit, rest.last)
  }

  function Abs(x: real): (r: real)
    ensures 0.0 <= r && (r == x || r == -x)
  {
    if x < 0.0 then -x else x
  }

  /** A publication drives at most one channel, by at most 3.0 times that
      channel's scale. */
  predicate Bounded(p: Params, out: Published) {
    && DrivesOneChannel(out)
    && Abs(out.linearX) <= MaxSpeed * Abs(p.lScale)
    && Abs(out.angularZ) <= MaxSpeed * Abs(p.aScale)
  }

  lemma ProductNonNegative(a: real, b: real)
    requires 0.0 <= a && 0.0 <= b
    ensures 0.0 <= a * b
  {
  }

  lemma ScaledSpeedBound(scale: real, v: real)
    requires 0.0 <= v <= MaxSpeed
    ensures Abs(Scaled(scale, v)) <= MaxSpeed * Abs(scale)
    ensures Abs(Scaled(scale, -v)) <= MaxSpeed * Abs(scale)
  {
    var m := Abs(scale);
    ProductNonNegative(m, v);
    ProductNonNegative(m, MaxSpeed - v);
    assert m * (MaxSpeed - v) == MaxSpeed * m - m * v;
    if scale < 0.0 {
      assert Scaled(scale, v) == -(m * v);
      assert Scaled(scale, -v) == m * v;
    } else {
      assert Scaled(scale, v) == m * v;
      assert Scaled(scale, -v) == -(m * v);
    }
  }

  lemma RefStepBounded(p: Params, r: RefState, ev: ReadOutcome)
    requires r.ticks <= MaxTicks
    ensures RefStep(p, r, ev).RefNext? && RefStep(p, r, ev).out.Some? ==>
      Bounded(p, RefStep(p, r, ev).out.value)
  {
    var res := RefStep(p, r, ev);
    if res.RefNext? && res.out.Some? {
      var v := SpeedOf(r.ticks);
      GridBounds(r.ticks);
      assert res.out.value in {Published(0.0, Scaled(p.aScale, v)), Published(0.0, Scaled(p.aScale, -v)),
                               Published(Scaled(p.lScale, v), 0.0), Published(Scaled(p.lScale, -v), 0.0)};
      PublishedFormsBounded(p, v);
    }
  }

  lemma PublishedFormsBounded(p: Params, v: real)
    requires 0.0 <= v <= MaxSpeed
    ensures Bounded(p, Published(0.0, Scaled(p.aScale, v)))
    ensures Bounded(p, Published(0.0, Scaled(p.aScale, -v)))
    ensures Bounded(p, Published(Scaled(p.lScale, v), 0.0))
    ensures Bounded(p, Published(Scaled(p.lScale, -v), 0.0))
  {
    ScaledSpeedBound(p.lScale, v);
    ScaledSpeedBound(p.aScale, v);
  }

  /** Every publication of the reference loop is bounded. */
  lemma {:induction false} RefRunBounded(p: Params, r: RefState, evs: seq<ReadOutcome>)
    requires r.ticks <= MaxTicks
    ensures forall i :: 0 <= i < |RefRun(p, r, evs).published| ==>
      Bounded(p, RefRun(p, r, evs).published[i])
    decreases |evs|
  {
    if evs != [] {
      match RefStep(p, r, evs[0])
      case RefExit(_) =>
      case RefNext(r', out) =>
        RefRunBounded(p, r', evs[1..]);
        RefStepBounded(p, r, evs[0]);
    }
  }
}
