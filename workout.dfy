/** The workout entity model: a base record (position, distance in km,
    duration in minutes, creation date, id and description) with two
    variants.  A running workout keeps its cadence and derives its pace in
    minutes per km; a cycling workout keeps its elevation gain and derives
    its speed in km/h.  Everything is computed once, when the workout is
    built, and never recomputed. */
module Workouts {
  import opened Decimal

  /** A map position, the `[lat, lng]` pair of the clicked point. */
  datatype LatLng = LatLng(lat: real, lng: real)

  /** The `type` tag of a workout. */
  datatype Activity = Running | Cycling

  /** What `Date.getMonth()` returns: January is 0. */
  type MonthIndex = m: nat | m < 12

  /** What `Date.getDate()` returns. */
  type DayOfMonth = d: nat | 1 <= d <= 31 witness 1

  /** The part of the creation date that the workout uses. */
  datatype Date = Date(month: MonthIndex, day: DayOfMonth)

  /** The fields every workout has. */
  datatype Base = Base(
    date: Date,
    id: string,
    coords: LatLng,
    distance: real,
    duration: real,
    description: string)

  datatype Workout =
    | RunningWorkout(base: Base, cadence: real, pace: real)
    | CyclingWorkout(base: Base, elevationGain: real, speed: real)
  {
    function Type(): (a: Activity) {
      if RunningWorkout? then Running else Cycling
    }

    function Id(): (id: string) {
      base.id
    }

    function Distance(): (d: real) {
      base.distance
    }
  }

  /** The value of the `type` field. */
  function TypeName(a: Activity): (name: string)
    ensures |name| == 7 && 'a' <= name[0] <= 'z'
  {
    match a
    case Running => "running"
    case Cycling => "cycling"
  }

  const MonthNames: seq<string> := [
    "January", "February", "March", "April", "May", "June",
    "July", "August", "September", "October", "November", "December"
  ]

  /** Upper-casing of one character, for the ASCII letters the type names use. */
  function UpperCase(c: char): (u: char) {
    if 'a' <= c <= 'z' then (c as int - 32) as char else c
  }

  /** The string with its first character upper-cased and the rest kept:
      `s[0].toUpperCase() + s.slice(1)`. */
  function Capitalize(s: string): (r: string)
    requires |s| > 0
    ensures |r| == |s| && r[1..] == s[1..]
    ensures 'a' <= s[0] <= 'z' ==> 'A' <= r[0] <= 'Z' && r[0] as int == s[0] as int - ('a' as int - 'A' as int)
    ensures !('a' <= s[0] <= 'z') ==> r[0] == s[0]
  {
    [UpperCase(s[0])] + s[1..]
  }

  /** "<Month> <day>". */
  function DatePart(date: Date): (s: string) {
    MonthNames[date.month] + " " + NatToString(date.day)
  }

  /** "<Type> on <Month> <day>", the type capitalised, the month by name and
      the day of the month without padding: the seven-letter title, then
      " on ", then the date part. */
  function Description(a: Activity, date: Date): (s: string)
    ensures |s| > 11
    ensures s[..7] == (if a == Running then "Running" else "Cycling")
    ensures s[7..11] == " on "
    ensures s[11..] == DatePart(date)
  {
    var title := Capitalize(TypeName(a));
    CapitalizedTypeName(a);
    var s := title + " on " + DatePart(date);
    assert s[..7] == title && s[7..11] == " on " && s[11..] == DatePart(date);
    s
  }

  /** The id: the last ten characters of the decimal text of the creation
      time in milliseconds, or all of it when it is shorter. */
  function TimestampId(now: nat): (id: string)
    ensures 1 <= |id| <= 10
  {
    SliceFromEnd(NatToString(now), 10)
  }

  /** The id is made of digits only: it is the text of the creation time
      itself when that has at most ten digits, and its last ten otherwise. */
  lemma TimestampIdIsTail(now: nat)
    ensures AllDigits(TimestampId(now))
    ensures |TimestampId(now)| == if |NatToString(now)| < 10 then |NatToString(now)| else 10
    ensures TimestampId(now) == NatToString(now)[|NatToString(now)| - |TimestampId(now)|..]
  {
    SuffixOfDigits(NatToString(now), 10);
  }

  /** `calcPace`: minutes per km.  Pace times distance gives back the
      duration, and a positive distance and duration give a positive pace. */
  function Pace(distance: real, duration: real): (pace: real)
    requires distance != 0.0
    ensures pace * distance == duration
    ensures distance > 0.0 && duration > 0.0 ==> pace > 0.0
  {
    duration / distance
  }

  /** `calcSpeed`: km per hour.  Speed times the duration in hours gives back
      the distance, and a positive distance and duration give a positive
      speed. */
  function Speed(distance: real, duration: real): (speed: real)
    requires duration != 0.0
    ensures speed * (duration / 60.0) == distance
    ensures distance > 0.0 && duration > 0.0 ==> speed > 0.0
  {
    distance / (duration / 60.0)
  }

  /** A running workout: the base fields, the cadence, the pace computed
      from distance and duration, and the description for its date. */
  function NewRunning(now: nat, date: Date, coords: LatLng, distance: real, duration: real, cadence: real): (w: Workout)
    requires distance != 0.0
    ensures w.RunningWorkout? && w.cadence == cadence
    ensures w.base == Base(date, TimestampId(now), coords, distance, duration, Description(Running, date))
    ensures w.pace == Pace(distance, duration)
  {
    RunningWorkout(
      Base(date, TimestampId(now), coords, distance, duration, Description(Running, date)),
      cadence,
      Pace(distance, duration))
  }

  /** A cycling workout: the base fields, the elevation gain, the speed
      computed from distance and duration, and the description for its date. */
  function NewCycling(now: nat, date: Date, coords: LatLng, distance: real, duration: real, elevationGain: real): (w: Workout)
    requires duration != 0.0
    ensures w.CyclingWorkout? && w.elevationGain == elevationGain
    ensures w.base == Base(date, TimestampId(now), coords, distance, duration, Description(Cycling, date))
    ensures w.speed == Speed(distance, duration)
  {
    CyclingWorkout(
      Base(date, TimestampId(now), coords, distance, duration, Description(Cycling, date)),
      elevationGain,
      Speed(distance, duration))
  }

  /** For the same distance and duration, pace (min/km) and speed (km/h)
      are reciprocal up to the sixty minutes of an hour. */
  lemma PaceTimesSpeed(distance: real, duration: real)
    requires distance != 0.0 && duration != 0.0
    ensures Pace(distance, duration) * Speed(distance, duration) == 60.0
  {
    var pace := Pace(distance, duration);
    var speed := Speed(distance, duration);
    var k := distance * duration;
    assert speed * duration == 60.0 * distance by {
      assert speed * (duration / 60.0) == distance;
    }
    calc {
      (pace * speed) * k;
      (pace * distance) * (speed * duration);
      { assert pace * distance == duration; }
      duration * (speed * duration);
      duration * (60.0 * distance);
      60.0 * k;
    }
    CancelFactor(pace * speed, 60.0, k);
  }

  lemma CancelFactor(x: real, y: real, k: real)
    requires k != 0.0 && x * k == y * k
    ensures x == y
  {
    assert x == (x * k) / k;
  }

  /** A run of 5.2 km in 24 minutes is a pace of about 4.615 min/km; a ride
      of 27 km in 95 minutes is a speed of about 17.05 km/h. */
  lemma ExampleMetrics()
    ensures 4.615 < Pace(5.2, 24.0) < 4.616
    ensures 17.05 < Speed(27.0, 95.0) < 17.06
  {
    assert Pace(5.2, 24.0) * 5.2 == 24.0;
    assert Speed(27.0, 95.0) * (95.0 / 60.0) == 27.0;
  }

  /** A workout created on March 5 is described as "Running on March 5". */
  lemma DescriptionExample()
    ensures Description(Running, Date(2, 5)) == "Running on March 5"
  {
    CapitalizedTypeName(Running);
  }

  /** Two-digit days are written in full: "Cycling on December 31". */
  lemma DescriptionTwoDigitDay()
    ensures Description(Cycling, Date(11, 31)) == "Cycling on December 31"
  {
    var s := Description(Cycling, Date(11, 31));
    assert DatePart(Date(11, 31)) == "December 31" by {
      assert MonthNames[11] == "December";
      assert NatToString(31) == NatToString(3) + [DigitChar(1)] == "31";
    }
    assert s == s[..7] + s[7..11] + s[11..];
  }

  /** The capitalised type names are the same length and differ. */
  lemma CapitalizedTypeName(a: Activity)
    ensures Capitalize(TypeName(a)) == if a == Running then "Running" else "Cycling"
  {
  }

  lemma MonthNamesHaveNoSpace(m: MonthIndex)
    ensures ' ' !in MonthNames[m]
  {
  }

  /** The month index a month name stands for. */
  function MonthNumber(name: string): (m: int)
    ensures -1 <= m < 12
  {
    if name == "January" then 0 else if name == "February" then 1
    else if name == "March" then 2 else if name == "April" then 3
    else if name == "May" then 4 else if name == "June" then 5
    else if name == "July" then 6 else if name == "August" then 7
    else if name == "September" then 8 else if name == "October" then 9
    else if name == "November" then 10 else if name == "December" then 11
    else -1
  }

  /** Every month name leads back to its index, so no two months share a name. */
  lemma MonthNumberOfName(m: MonthIndex)
    ensures MonthNumber(MonthNames[m]) == m
  {
    match m
    case 0 => case 1 => case 2 => case 3 => case 4 => case 5 =>
    case 6 => case 7 => case 8 => case 9 => case 10 => case 11 =>
  }

  /** The first space in `a + " " + b` is the one after `a` when `a` has none. */
  lemma FirstSpaceAt(a: string, b: string)
    requires ' ' !in a
    ensures (a + " " + b)[|a|] == ' '
    ensures forall i :: 0 <= i < |a| ==> (a + " " + b)[i] != ' '
  {
    forall i | 0 <= i < |a| ensures (a + " " + b)[i] != ' ' {
      assert (a + " " + b)[i] == a[i];
    }
  }

  /** `a + " " + b` is split at its first space when `a` has none. */
  lemma SplitAtFirstSpace(a: string, b: string, c: string, d: string)
    requires ' ' !in a && ' ' !in c
    requires a + " " + b == c + " " + d
    ensures a == c && b == d
  {
    var s := a + " " + b;
    FirstSpaceAt(a, b);
    FirstSpaceAt(c, d);
    assert |a| == |c|;
    assert a == s[..|a|] == c;
    assert b == s[|a| + 1..] == d;
  }

  /** The description determines the type and the date it was built from. */
  lemma DescriptionInjective(a1: Activity, date1: Date, a2: Activity, date2: Date)
    requires Description(a1, date1) == Description(a2, date2)
    ensures a1 == a2 && date1 == date2
  {
    assert DatePart(date1) == DatePart(date2);
    MonthNamesHaveNoSpace(date1.month);
    MonthNamesHaveNoSpace(date2.month);
    SplitAtFirstSpace(MonthNames[date1.month], NatToString(date1.day), MonthNames[date2.month], NatToString(date2.day));
    MonthNumberOfName(date1.month);
    MonthNumberOfName(date2.month);
    NatToStringInjective(date1.day, date2.day);
  }

  /** The id is not unique: two creation times exactly 10^10 ms (about 116
      days) apart get the same id once timestamps have ten digits. */
  lemma TimestampIdRepeats(t: nat)
    requires t >= Pow10(9)
    ensures TimestampId(t + Pow10(10)) == TimestampId(t)
  {
    var later := t + Pow10(10);
    LastDigitsRepeat(t, 10);
    assert TimestampId(later) == SliceFromEnd(NatToString(later), 10);
    assert TimestampId(t) == SliceFromEnd(NatToString(t), 10);
  }
}
