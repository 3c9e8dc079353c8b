/** The guard of `_newWorkout`: the form's numbers must be finite, and the
    ones the activity needs must be positive, before a workout is built.
    A submission that fails the guard raises an alert and builds nothing. */
module Validation {
  import opened Wrappers
  import opened Workouts

  /** A number read from a form field with `+input.value`: a finite value,
      or one of the three values `Number.isFinite` refuses. */
  datatype Num = Finite(value: real) | PosInfinity | NegInfinity | NaN

  /** `Number.isFinite`: false for NaN and both infinities, true otherwise. */
  predicate IsFinite(x: Num)
    ensures IsFinite(x) <==> x != NaN && x != PosInfinity && x != NegInfinity
  {
    x.Finite?
  }

  /** `x > 0` on a JavaScript number: true for +Infinity, false for NaN and
      -Infinity, and the comparison of the value for a finite number. */
  predicate IsPositive(x: Num)
    ensures IsPositive(x) ==> x != NaN && x != NegInfinity
    ensures x.Finite? ==> (IsPositive(x) <==> x.value > 0.0)
    ensures IsPositive(x) <==> x == PosInfinity || FinitePositive(x)
  {
    match x
    case Finite(v) => v > 0.0
    case PosInfinity => true
    case _ => false
  }

  /** `validInputs(...inputs)`: every input is finite, that is, none of
      them is NaN or an infinity. */
  predicate ValidInputs(inputs: seq<Num>)
    ensures ValidInputs(inputs) <==> NaN !in inputs && PosInfinity !in inputs && NegInfinity !in inputs
  {
    forall i :: 0 <= i < |inputs| ==> IsFinite(inputs[i])
  }

  /** `allPositive(...inputs)`: every input is greater than zero, that is,
      +Infinity or a finite value above zero.  No NaN or -Infinity passes,
      and when all inputs are finite it asks exactly that each value is
      above zero. */
  predicate AllPositive(inputs: seq<Num>)
    ensures AllPositive(inputs) ==> NaN !in inputs && NegInfinity !in inputs
    ensures ValidInputs(inputs) ==> (AllPositive(inputs) <==> forall i :: 0 <= i < |inputs| ==> FinitePositive(inputs[i]))
    ensures AllPositive(inputs) <==> forall i :: 0 <= i < |inputs| ==> inputs[i] == PosInfinity || FinitePositive(inputs[i])
  {
    forall i :: 0 <= i < |inputs| ==> IsPositive(inputs[i])
  }

  /** What the form holds when it is submitted: the selected activity and
      the four numeric fields.  The model carries both the cadence and the
      elevation field; the guard reads only the one the activity needs. */
  datatype Form = Form(activity: Activity, distance: Num, duration: Num, cadence: Num, elevation: Num)

  /** A finite number greater than zero. */
  predicate FinitePositive(x: Num) {
    x.Finite? && x.value > 0.0
  }

  /** True when `_newWorkout` gets past its guard; false when it alerts
      "Inputs have to be positive numbers" and returns.  Stated field by
      field: distance and duration must be finite and positive; a run also
      needs a finite positive cadence, a ride only a finite elevation gain,
      which may be zero or negative. */
  predicate Accepts(f: Form)
    ensures Accepts(f) <==>
      && FinitePositive(f.distance)
      && FinitePositive(f.duration)
      && (f.activity == Running ==> FinitePositive(f.cadence))
      && (f.activity == Cycling ==> IsFinite(f.elevation))
  {
    match f.activity
    case Running =>
      var inputs := [f.distance, f.duration, f.cadence];
      assert inputs[0] == f.distance && inputs[1] == f.duration && inputs[2] == f.cadence;
      ValidInputs(inputs) && AllPositive(inputs)
    case Cycling =>
      var inputs := [f.distance, f.duration, f.elevation];
      var positive := [f.distance, f.duration];
      assert inputs[0] == f.distance && inputs[1] == f.duration && inputs[2] == f.elevation;
      assert positive[0] == f.distance && positive[1] == f.duration;
      ValidInputs(inputs) && AllPositive(positive)
  }

  /** The workout `_newWorkout` builds from a submitted form at the clicked
      position, at time `now` (ms) on `date`: none when the guard rejects
      the form, otherwise a workout of the selected activity whose distance
      and duration are the form's positive values. */
  function Create(f: Form, now: nat, date: Date, at: LatLng): (r: Option<Workout>)
    ensures r.Some? <==> Accepts(f)
    ensures r.Some? ==> && r.value.Type() == f.activity
                        && r.value.base.id == TimestampId(now)
                        && r.value.base.coords == at
                        && r.value.base.date == date
                        && r.value.base.description == Description(f.activity, date)
    ensures r.Some? ==> && FinitePositive(f.distance) && r.value.Distance() == f.distance.value
                        && FinitePositive(f.duration) && r.value.base.duration == f.duration.value
    ensures r.Some? && f.activity == Running ==>
              FinitePositive(f.cadence) && r.value.cadence == f.cadence.value
              && r.value.pace == Pace(f.distance.value, f.duration.value) > 0.0
    ensures r.Some? && f.activity == Cycling ==>
              IsFinite(f.elevation) && r.value.elevationGain == f.elevation.value
              && r.value.speed == Speed(f.distance.value, f.duration.value) > 0.0
  {
    if !Accepts(f) then None
    else match f.activity
      case Running => Some(NewRunning(now, date, at, f.distance.value, f.duration.value, f.cadence.value))
      case Cycling => Some(NewCycling(now, date, at, f.distance.value, f.duration.value, f.elevation.value))
  }
}
