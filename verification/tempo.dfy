/** The clock/tempo model: the tempo control value in beats per second,
    clamped to [0.5, 6], and the step length derived from it
    (four steps per beat). */
module Tempo {
  import opened Wrappers

  const MinBps: real := 0.5
  const MaxBps: real := 6.0
  /** Tempo used when the control does not hold a finite number. */
  const DefaultBps: real := 2.0
  const StepsPerBeat: real := 4.0
  /** Shortest and longest step the clamp allows: 1/(6*4) and 1/(0.5*4) seconds. */
  const MinStepSec: real := 1.0 / 24.0
  const MaxStepSec: real := 0.5

  /** `Math.min(hi, Math.max(lo, n))`. When `lo > hi` the upper bound wins. */
  function Clamp(n: real, lo: real, hi: real): (r: real)
    ensures lo <= hi ==> lo <= r <= hi
    ensures lo <= n <= hi ==> r == n
    ensures lo <= hi && n < lo ==> r == lo
    ensures n > hi ==> r == hi
    ensures lo > hi ==> r == hi
  {
    var atLeastLo := if lo < n then n else lo;
    if hi < atLeastLo then hi else atLeastLo
  }

  /** Reads the tempo from the control, whose parsed value is `field`:
      a non-finite reading falls back to 2, and the result is clamped. */
  function ReadBps(field: Option<real>): (bps: real)
    ensures MinBps <= bps <= MaxBps
    ensures field.None? ==> bps == DefaultBps
    ensures field.Some? && MinBps <= field.value <= MaxBps ==> bps == field.value
    ensures field.Some? && field.value < MinBps ==> bps == MinBps
    ensures field.Some? && field.value > MaxBps ==> bps == MaxBps
  {
    Clamp(field.GetOr(DefaultBps), MinBps, MaxBps)
  }

  /** A JavaScript number as `parseFloat` or `JSON.parse` can produce it:
      finite, one of the two infinities (`parseFloat("1e999")`, or a JSON
      literal too large for a double), or `NaN`. */
  datatype Number = Finite(x: real) | PosInf | NegInf | NaN

  /** `clamp(v, lo, hi)` on a JavaScript number with `lo <= hi`: the
      infinities land on the bounds; `NaN` stays `NaN`, as `Math.max` and
      `Math.min` propagate it. */
  function ClampNumber(v: Number, lo: real, hi: real): (r: Number)
    requires lo <= hi
    ensures r.NaN? <==> v.NaN?
    ensures r.Finite? ==> lo <= r.x <= hi
    ensures v.Finite? ==> r == Finite(Clamp(v.x, lo, hi))
    ensures v.PosInf? ==> r == Finite(hi)
    ensures v.NegInf? ==> r == Finite(lo)
  {
    match v
    case Finite(x) => Finite(Clamp(x, lo, hi))
    case PosInf => Finite(hi)
    case NegInf => Finite(lo)
    case NaN => NaN
  }

  /** The value `setBps(v)` leaves in the control: `v` clamped into
      [0.5, 6], where an infinite `v` lands on a bound. `NaN` is written as
      the text `"NaN"`, which the number control does not accept, so the
      control then reads as not finite. */
  function SetBps(v: Number): (field: Option<real>)
    ensures field.None? <==> v.NaN?
    ensures field.Some? ==> MinBps <= field.value <= MaxBps
    ensures v.Finite? && MinBps <= v.x <= MaxBps ==> field == Some(v.x)
    ensures v.Finite? && v.x < MinBps ==> field == Some(MinBps)
    ensures v.Finite? && v.x > MaxBps ==> field == Some(MaxBps)
    ensures v.PosInf? ==> field == Some(MaxBps)
    ensures v.NegInf? ==> field == Some(MinBps)
  {
    match ClampNumber(v, MinBps, MaxBps)
    case Finite(b) => Some(b)
    case _ => None
  }

  /** Writing the tempo and reading it back yields the clamped value (a bound
      for an infinity), or the default when the written value was `NaN`;
      writing again what was read changes nothing. */
  lemma SetThenRead(v: Number)
    ensures v.Finite? ==> ReadBps(SetBps(v)) == Clamp(v.x, MinBps, MaxBps)
    ensures v.PosInf? ==> ReadBps(SetBps(v)) == MaxBps
    ensures v.NegInf? ==> ReadBps(SetBps(v)) == MinBps
    ensures v.NaN? ==> ReadBps(SetBps(v)) == DefaultBps
    ensures !v.NaN? ==> SetBps(Finite(ReadBps(SetBps(v)))) == SetBps(v)
  {
  }

  /** `stepDurationSec()`: the length of one sixteenth step at the current tempo. */
  function StepDuration(field: Option<real>): (d: real)
    ensures d > 0.0
    ensures MinStepSec <= d <= MaxStepSec
  {
    var bps := ReadBps(field);
    StepBounds(bps);
    1.0 / (bps * StepsPerBeat)
  }

  /** Four steps make one beat: the step length times the tempo read back
      times four is exactly one second per second. */
  lemma StepDurationTimesTempo(field: Option<real>)
    ensures StepDuration(field) * ReadBps(field) * StepsPerBeat == 1.0
  {
    StepBounds(ReadBps(field));
  }

  /** The clamp keeps the divisor of the step length in [2, 24], so the
      step length lies in [1/24, 1/2]. */
  lemma StepBounds(bps: real)
    requires MinBps <= bps <= MaxBps
    ensures MinStepSec <= 1.0 / (bps * StepsPerBeat) <= MaxStepSec
    ensures (1.0 / (bps * StepsPerBeat)) * bps * StepsPerBeat == 1.0
  {
    var q := bps * StepsPerBeat;
    assert 2.0 <= q <= 24.0;
    var d := 1.0 / q;
    assert d * q == 1.0;
    assert d * 24.0 >= d * q;
    assert d * 2.0 <= d * q;
  }
}
