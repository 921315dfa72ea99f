/** The teleoperation loop behaves exactly like the reference description:
    the save slots, the restore step, the dirty flag and the backward key's
    use of the angular speed make no observable difference when the loop
    starts from its initial speeds. */
module Refinement {
  import opened Wrappers
  import opened Keys
  import opened Speed
  import opened Messages
  import opened Teleop
  import opened Reference

  /** A loop head and a reference state that describe the same situation. */
  predicate Refines(s: LoopState, r: RefState) {
    && Inv(s)
    && r.ticks <= MaxTicks
    && s.vitLin == SpeedOf(r.ticks)
    && s.c == r.c
  }

  lemma InitRefines(c0: byte)
    ensures Refines(Init(c0), RefInit(c0))
  {
    InitialOnGrid();
  }

  /** One iteration of the loop and one step of the reference agree on
      whether the loop ends, on what is published and on the next state. */
  lemma StepRefines(p: Params, s: LoopState, r: RefState, ev: ReadOutcome)
    requires Refines(s, r)
    ensures Step(p, s, ev).Exit? <==> RefStep(p, r, ev).RefExit?
    ensures Step(p, s, ev).Exit? ==> Step(p, s, ev).reason == RefStep(p, r, ev).reason
    ensures Step(p, s, ev).Next? ==>
      && Step(p, s, ev).out == RefStep(p, r, ev).out
      && Refines(Step(p, s, ev).state, RefStep(p, r, ev).state)
  {
  }

  /** Over any input, the loop and the reference publish the same values,
      end the same way, and stop at corresponding states. */
  lemma {:induction false} RunRefines(p: Params, s: LoopState, r: RefState, evs: seq<ReadOutcome>)
    requires Refines(s, r)
    ensures Run(p, s, evs).published == RefRun(p, r, evs).published
    ensures Run(p, s, evs).exit == RefRun(p, r, evs).exit
    ensures Refines(Run(p, s, evs).last, RefRun(p, r, evs).last)
    decreases |evs|
  {
    if evs != [] {
      StepRefines(p, s, r, evs[0]);
      match Step(p, s, evs[0])
      case Exit(_) =>
      case Next(s', _) => RunRefines(p, s', RefStep(p, r, evs[0]).state, evs[1..]);
    }
  }

  /** From the initial speeds the loop is the reference loop. */
  lemma LoopMatchesReference(p: Params, c0: byte, evs: seq<ReadOutcome>)
    ensures Run(p, Init(c0), evs).published == RefRun(p, RefInit(c0), evs).published
    ensures Run(p, Init(c0), evs).exit == RefRun(p, RefInit(c0), evs).exit
    ensures Run(p, Init(c0), evs).last.vitLin == SpeedOf(RefRun(p, RefInit(c0), evs).last.ticks)
  {
    InitRefines(c0);
    RunRefines(p, Init(c0), RefInit(c0), evs);
  }

  /** Every value the loop publishes drives one channel by at most 3.0 times
      that channel's scale (6.0 with the default scales). */
  lemma PublishedBounded(p: Params, c0: byte, evs: seq<ReadOutcome>)
    ensures forall i :: 0 <= i < |Run(p, Init(c0), evs).published| ==>
      Bounded(p, Run(p, Init(c0), evs).published[i])
  {
    LoopMatchesReference(p, c0, evs);
    RefRunBounded(p, RefInit(c0), evs);
  }

  /** In exact arithmetic five presses of 'm' take the speeds from 1.0 to
      exactly 0.0 (0.0 is not below 0, so it is kept), after which an arrow
      key publishes a zero command. */
  lemma FiveDecreasesStop(p: Params, c0: byte)
    ensures var evs := [Got(KeyM), Got(KeyM), Got(KeyM), Got(KeyM), Got(KeyM), Got(KeyUp)];
      && Run(p, Init(c0), evs).published == [Published(0.0, 0.0)]
      && Run(p, Init(c0), evs).exit == None
      && Run(p, Init(c0), evs).last.vitLin == 0.0
  {
    var evs := [Got(KeyM), Got(KeyM), Got(KeyM), Got(KeyM), Got(KeyM), Got(KeyUp)];
    LoopMatchesReference(p, c0, evs);
    var done := RefTranscript([Published(0.0, 0.0)], None, RefState(0, KeyUp));
    assert SpeedOf(0) == 0.0;
    assert RefRun(p, RefState(0, KeyM), evs[5..]) == done;
    assert RefRun(p, RefState(1, KeyM), evs[4..]) == done;
    assert RefRun(p, RefState(2, KeyM), evs[3..]) == done;
    assert RefRun(p, RefState(3, KeyM), evs[2..]) == done;
    assert RefRun(p, RefState(4, KeyM), evs[1..]) == done;
    assert RefRun(p, RefInit(c0), evs) == done;
  }
}
