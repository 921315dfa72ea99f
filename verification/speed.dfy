/** The speed adjustments made by the 'p' and 'm' keys, and an exact integer
    description of the speeds they can produce. */
module Speed {

  const Increment: real := 0.2
  const MaxSpeed: real := 3.0
  /** The value a speed takes when lowering it would make it negative. */
  const ResetSpeed: real := 0.2
  const InitialSpeed: real := 1.0

  /** 'p': raise by 0.2, then cap at 3.0. */
  function Increase(v: real): (r: real)
    ensures r <= MaxSpeed
    ensures r == MaxSpeed || r == v + Increment
    ensures v <= MaxSpeed ==> v < r || r == MaxSpeed
    ensures v + Increment <= MaxSpeed ==> r == v + Increment
  {
    var raised := v + Increment;
    if raised > MaxSpeed then MaxSpeed else raised
  }

  /** 'm': lower by 0.2; a negative result is replaced by 0.2. */
  function Decrease(v: real): (r: real)
    ensures 0.0 <= r
    ensures r == ResetSpeed || r == v - Increment
    ensures Increment <= v ==> r == v - Increment
  {
    var lowered := v - Increment;
    if lowered < 0.0 then ResetSpeed else lowered
  }

  // Speeds reachable from 1.0 are whole multiples of 0.2 between 0 and 3.0;
  // `ticks` counts those multiples.
  const MaxTicks: nat := 15
  const InitialTicks: nat := 5

  function SpeedOf(ticks: nat): real {
    ticks as real / 5.0
  }

  function IncTicks(k: nat): (r: nat)
    ensures r <= MaxTicks || r == k
  {
    if k < MaxTicks then k + 1 else k
  }

  function DecTicks(k: nat): nat {
    if k == 0 then 1 else k - 1
  }

  lemma InitialOnGrid()
    ensures SpeedOf(InitialTicks) == InitialSpeed
  {
  }

  /** On the grid, 'p' is one tick up, saturating at 15 ticks (3.0). */
  lemma IncreaseOnGrid(k: nat)
    requires k <= MaxTicks
    ensures IncTicks(k) <= MaxTicks
    ensures Increase(SpeedOf(k)) == SpeedOf(IncTicks(k))
  {
  }

  /** On the grid, 'm' is one tick down, except that 0 goes to one tick
      (0.0 - 0.2 is negative and is replaced by 0.2). */
  lemma DecreaseOnGrid(k: nat)
    requires k <= MaxTicks
    ensures DecTicks(k) <= MaxTicks
    ensures Decrease(SpeedOf(k)) == SpeedOf(DecTicks(k))
  {
  }

  /** Grid speeds stay within [0, 3.0]. */
  lemma GridBounds(k: nat)
    requires k <= MaxTicks
    ensures 0.0 <= SpeedOf(k) <= MaxSpeed
  {
  }

  /** Both adjustments keep a speed inside [0, 3.0]. */
  lemma AdjustKeepsRange(v: real)
    requires 0.0 <= v <= MaxSpeed
    ensures 0.0 <= Increase(v) <= MaxSpeed
    ensures 0.0 <= Decrease(v) <= MaxSpeed
  {
  }
}
