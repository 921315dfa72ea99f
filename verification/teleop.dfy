/** The keyboard teleoperation loop: one iteration reads one key, adjusts the
    stored speeds or builds a motion command, and publishes the scaled command
    on the linear-x and angular-z channels when the command is new. */
module Teleop {
  import opened Wrappers
  import opened Keys
  import opened Speed
  import opened Messages

  /** The loop's local variables at the head of an iteration. `c` is the last
      byte read: a read that delivers no byte leaves it unchanged. */
  datatype LoopState = LoopState(
    vitLin: real, vitAng: real,
    vitLinSave: real, vitAngSave: real,
    dirty: bool,
    c: byte)

  /** The motion command an iteration builds (before scaling). */
  datatype Motion = Motion(linear: real, angular: real)

  datatype StepResult =
    | Next(state: LoopState, out: Option<Published>)
    | Exit(reason: ExitReason)

  /** The loop head before the first read; `c0` stands for the uninitialised
      key variable. */
  function Init(c0: byte): (s: LoopState)
    ensures Inv(s)
    ensures s.vitLin == InitialSpeed && s.vitAng == InitialSpeed
  {
    LoopState(InitialSpeed, InitialSpeed, InitialSpeed, InitialSpeed, false, c0)
  }

  /** What holds at every loop head reached from Init. */
  predicate Inv(s: LoopState) {
    && s.vitLin == s.vitLinSave
    && s.vitAng == s.vitAngSave
    && s.vitLin == s.vitAng
    && !s.dirty
    && 0.0 <= s.vitLin <= MaxSpeed
  }

  /** The restore at the top of each iteration. Without braces the guard
      covers only the linear speed: the angular speed is reloaded from its
      save slot every time. */
  function Restore(s: LoopState): (r: LoopState)
    ensures r.vitAng == s.vitAngSave
    ensures s.vitLin != 0.0 && s.vitAng != 0.0 ==> r.vitLin == s.vitLin
    ensures s.vitLin == 0.0 || s.vitAng == 0.0 ==> r.vitLin == s.vitLinSave
    ensures r.(vitLin := s.vitLin, vitAng := s.vitAng) == s
  {
    var lin := if s.vitLin == 0.0 || s.vitAng == 0.0 then s.vitLinSave else s.vitLin;
    s.(vitLin := lin, vitAng := s.vitAngSave)
  }

  /** The effect of the switch statement on a state that has been restored:
      the new state and command, or None when the key is 'q'. */
  function Dispatch(s: LoopState, key: byte): (r: Option<(LoopState, Motion)>)
    ensures r.None? <==> Classify(key) == Quit
    ensures r.Some? ==> (r.value.1.linear == 0.0 || r.value.1.angular == 0.0)
    ensures r.Some? && !IsMovement(Classify(key)) ==> r.value.1 == Motion(0.0, 0.0)
    ensures r.Some? ==> (r.value.0.dirty <==> s.dirty || IsMovement(Classify(key)))
  {
    match Classify(key)
    case TurnLeft => Some((s.(dirty := true), Motion(0.0, s.vitAng)))
    case TurnRight => Some((s.(dirty := true), Motion(0.0, -s.vitAng)))
    case Forward => Some((s.(dirty := true), Motion(s.vitLin, 0.0)))
    // The backward command uses the angular speed, as the program does.
    case Backward => Some((s.(dirty := true), Motion(-s.vitAng, 0.0)))
    case SpeedUp =>
      var lin := Increase(s.vitLin);
      var ang := Increase(s.vitAng);
      Some((s.(vitLin := lin, vitAng := ang, vitLinSave := lin, vitAngSave := ang),
            Motion(0.0, 0.0)))
    case SpeedDown =>
      var lin := Decrease(s.vitLin);
      var ang := Decrease(s.vitAng);
      Some((s.(vitLin := lin, vitAng := ang, vitLinSave := lin, vitAngSave := ang),
            Motion(0.0, 0.0)))
    case Quit => None
    case Ignore => Some((s, Motion(0.0, 0.0)))
  }

  /** One iteration of the loop. */
  function Step(p: Params, s: LoopState, ev: ReadOutcome): (r: StepResult)
    ensures r == Exit(ReadError) <==> ev.Failed?
    ensures r == Exit(QuitKey) <==> !ev.Failed? && Classify(KeyFor(s.c, ev)) == Quit
    ensures r.Next? ==> !r.state.dirty && r.state.c == KeyFor(s.c, ev)
    ensures r.Next? ==> (r.out.Some? <==> s.dirty || IsMovement(Classify(KeyFor(s.c, ev))))
    ensures r.Next? && r.out.Some? ==> DrivesOneChannel(r.out.value)
  {
    match ev
    case Failed => Exit(ReadError)
    case _ =>
      var key := KeyFor(s.c, ev);
      var head := Restore(s.(c := key));
      match Dispatch(head, key)
      case None => Exit(QuitKey)
      case Some((s', m)) =>
        var out := Published(Scaled(p.lScale, m.linear), Scaled(p.aScale, m.angular));
        if s'.dirty then Next(s'.(dirty := false), Some(out)) else Next(s', None)
  }

  /** Every iteration from a loop head satisfying Inv either ends the loop or
      reaches a loop head satisfying Inv. */
  lemma StepPreservesInv(p: Params, s: LoopState, ev: ReadOutcome)
    requires Inv(s)
    ensures Step(p, s, ev).Next? ==> Inv(Step(p, s, ev).state)
  {
  }

  /** At a loop head satisfying Inv the restore changes nothing. */
  lemma RestoreIsNoOp(s: LoopState)
    requires Inv(s)
    ensures Restore(s) == s
  {
  }

  /** The published values for each movement key, at any loop head; `h` is
      the state after the restore. The channel a key does not drive carries 0. */
  lemma MovementKeys(p: Params, s: LoopState, b: byte)
    requires IsMovement(Classify(b))
    ensures var h := Restore(s);
      var r := Step(p, s, Got(b));
      && r.Next? && r.state == h.(c := b, dirty := false) && r.out.Some?
      && var out := r.out.value;
      && (Classify(b) == TurnLeft ==> out == Published(0.0, Scaled(p.aScale, h.vitAng)))
      && (Classify(b) == TurnRight ==> out == Published(0.0, Scaled(p.aScale, -h.vitAng)))
      && (Classify(b) == Forward ==> out == Published(Scaled(p.lScale, h.vitLin), 0.0))
      && (Classify(b) == Backward ==> out == Published(Scaled(p.lScale, -h.vitAng), 0.0))
  {
  }

  /** 'p' and 'm' adjust both speeds, bound them, copy them to the save slots
      and publish nothing from a clean loop head. */
  lemma SpeedKeys(p: Params, s: LoopState, b: byte)
    requires Classify(b) == SpeedUp || Classify(b) == SpeedDown
    requires !s.dirty
    ensures var h := Restore(s);
      var r := Step(p, s, Got(b));
      && r.Next? && r.out.None?
      && r.state.vitLinSave == r.state.vitLin && r.state.vitAngSave == r.state.vitAng
      && (Classify(b) == SpeedUp ==>
            r.state.vitLin == Increase(h.vitLin) && r.state.vitAng == Increase(h.vitAng)
            && r.state.vitLin <= MaxSpeed && r.state.vitAng <= MaxSpeed)
      && (Classify(b) == SpeedDown ==>
            r.state.vitLin == Decrease(h.vitLin) && r.state.vitAng == Decrease(h.vitAng)
            && 0.0 <= r.state.vitLin && 0.0 <= r.state.vitAng)
  {
  }

  /** At a loop head satisfying Inv the backward command equals the negated
      linear speed, so using the angular speed there is not observable. */
  lemma BackwardUsesLinearSpeed(p: Params, s: LoopState)
    requires Inv(s)
    ensures Step(p, s, Got(KeyDown)) ==
      Next(s.(c := KeyDown), Some(Published(Scaled(p.lScale, -s.vitLin), 0.0)))
  {
  }

  /** Which keys publish, from a loop head satisfying Inv: exactly the
      movement keys; 'q' ends the loop; speed keys and unknown keys do not
      publish. */
  lemma PublishesExactlyOnMovement(p: Params, s: LoopState, b: byte)
    requires Inv(s)
    ensures IsMovement(Classify(b)) <==>
      Step(p, s, Got(b)).Next? && Step(p, s, Got(b)).out.Some?
    ensures Classify(b) == Quit <==> Step(p, s, Got(b)) == Exit(QuitKey)
  {
  }

  /** The result of feeding a sequence of read outcomes to the loop: what it
      published, whether it ended (and why), and the loop head it stopped at
      (the head of the ending iteration, or the one waiting for more input). */
  datatype Transcript = Transcript(
    published: seq<Published>,
    exit: Option<ExitReason>,
    last: LoopState)

  function Run(p: Params, s: LoopState, evs: seq<ReadOutcome>): (t: Transcript)
    ensures |t.published| <= |evs|
    ensures evs == [] ==> t == Transcript([], None, s)
    ensures forall i :: 0 <= i < |t.published| ==> DrivesOneChannel(t.published[i])
    decreases |evs|
  {
    if evs == [] then Transcript([], None, s)
    else
      match Step(p, s, evs[0])
      case Exit(reason) => Transcript([], Some(reason), s)
      case Next(s', out) =>
        var rest := Run(p, s', evs[1..]);
        Transcript(ToSeq(out) + rest.published, rest.exit, rest.last)
  }

  /** 'q' ends the loop at once: nothing after it is read or published. */
  lemma QuitEndsLoop(p: Params, s: LoopState, rest: seq<ReadOutcome>)
    ensures Run(p, s, [Got(KeyQ)] + rest) == Transcript([], Some(QuitKey), s)
  {
  }

  /** With the default scales of 2.0 and the initial speeds of 1.0, the
      first up-arrow publishes 2.0 on the linear channel and 0 on the angular
      channel, and the first left-arrow 2.0 on the angular channel. */
  lemma DefaultScalesFirstCommand(c0: byte)
    ensures Run(DefaultParams, Init(c0), [Got(KeyUp)]).published == [Published(2.0, 0.0)]
    ensures Run(DefaultParams, Init(c0), [Got(KeyLeft)]).published == [Published(0.0, 2.0)]
  {
  }

  /** Over any input, every loop head reached from one satisfying Inv
      satisfies Inv. */
  lemma {:induction false} RunPreservesInv(p: Params, s: LoopState, evs: seq<ReadOutcome>)
    requires Inv(s)
    ensures Inv(Run(p, s, evs).last)
    decreases |evs|
  {
    if evs != [] {
      StepPreservesInv(p, s, evs[0]);
      match Step(p, s, evs[0])
      case Exit(_) =>
      case Next(s', _) => RunPreservesInv(p, s', evs[1..]);
    }
  }

  /** Both speeds stay within [0, 3.0] and equal each other over any input,
      starting from the initial speeds of 1.0. */
  lemma SpeedsStayInRange(p: Params, c0: byte, evs: seq<ReadOutcome>)
    ensures var last := Run(p, Init(c0), evs).last;
      && 0.0 <= last.vitLin <= MaxSpeed
      && 0.0 <= last.vitAng <= MaxSpeed
      && last.vitLin == last.vitAng
      && last.vitLin == last.vitLinSave && last.vitAng == last.vitAngSave
  {
    RunPreservesInv(p, Init(c0), evs);
  }

  /** The loop itself: read outcomes are consumed one at a time until the
      input runs out (the loop then waits in the read), a read fails, or 'q'
      is pressed. */
  method KeyLoop(p: Params, c0: byte, evs: seq<ReadOutcome>)
    returns (published: seq<Published>, exit: Option<ExitReason>, last: LoopState)
    ensures Transcript(published, exit, last) == Run(p, Init(c0), evs)
    ensures Inv(last)
    ensures forall i :: 0 <= i < |published| ==> DrivesOneChannel(published[i])
  {
    var s := Init(c0);
    var i := 0;
    published := [];
    exit := None;
    while i < |evs| && exit.None?
      invariant 0 <= i <= |evs|
      invariant Inv(s)
      invariant exit.None? ==>
        var rest := Run(p, s, evs[i..]);
        Run(p, Init(c0), evs) == Transcript(published + rest.published, rest.exit, rest.last)
      invariant exit.Some? ==> Run(p, Init(c0), evs) == Transcript(published, exit, s)
      decreases |evs| - i, exit.None?
    {
      assert evs[i..][0] == evs[i] && evs[i..][1..] == evs[i + 1..];
      StepPreservesInv(p, s, evs[i]);
      match Step(p, s, evs[i])
      case Exit(reason) =>
        exit := Some(reason);
      case Next(s', out) =>
        assert published + Run(p, s, evs[i..]).published
            == (published + ToSeq(out)) + Run(p, s', evs[i + 1..]).published;
        published := published + ToSeq(out);
        s := s';
        i := i + 1;
    }
    last := s;
  }
}
