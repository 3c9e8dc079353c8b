/** The list and storage logic of the `App` controller: the ordered list of
    workouts it keeps for the page, kept in step with the `"workouts"` key
    of `localStorage`.  Map, geolocation and DOM work is not modelled; the
    clicked position, the clock and the date come in as parameters. */
module Mapty {
  import opened Wrappers
  import opened Workouts
  import opened Validation
  import opened WorkoutList
  import opened Storage

  /** The one key under which the list is saved. */
  const WorkoutsKey: string := "workouts"

  /** The list a page has after `_getLocalStorage`: any saved list under the
      key, even an empty one, replaces it; without the key it is kept. */
  function Loaded(items: map<string, seq<Workout>>, current: seq<Workout>): (ws: seq<Workout>)
    ensures WorkoutsKey in items ==> ws == items[WorkoutsKey]
    ensures WorkoutsKey !in items ==> ws == current
  {
    if WorkoutsKey in items then items[WorkoutsKey] else current
  }

  /** Loading after a save under the key gives back the saved list, whatever
      the page had. */
  lemma LoadAfterSave(items: map<string, seq<Workout>>, saved: seq<Workout>, current: seq<Workout>)
    ensures Loaded(items[WorkoutsKey := saved], current) == saved
  {
  }

  /** Only the one key matters to loading: other keys set by anyone are
      ignored. */
  lemma LoadIgnoresOtherKeys(items: map<string, seq<Workout>>, key: string, value: seq<Workout>, current: seq<Workout>)
    requires key != WorkoutsKey
    ensures Loaded(items[key := value], current) == Loaded(items, current)
  {
  }

  class App {
    /** `#workouts`, in the order they were added or last sorted. */
    var workouts: seq<Workout>
    const storage: LocalStorage

    /** Page start: an empty list, then `_getLocalStorage`. */
    constructor (storage: LocalStorage)
      ensures this.storage == storage
      ensures workouts == Loaded(storage.items, [])
    {
      this.storage := storage;
      workouts := [];
      new;
      GetLocalStorage();
    }

    /** `_getLocalStorage`: replaces the list with the saved one; returns
        early, leaving the list as it is, when nothing is saved. */
    method GetLocalStorage()
      modifies this`workouts
      ensures workouts == Loaded(storage.items, old(workouts))
    {
      var data := storage.GetItem(WorkoutsKey);
      if data.None? {
        return;
      }
      workouts := data.value;
    }

    /** `_setLocalStorage`: saves the whole list under the one key. */
    method SetLocalStorage()
      modifies storage
      ensures storage.items == old(storage.items)[WorkoutsKey := workouts]
    {
      storage.SetItem(WorkoutsKey, workouts);
    }

    /** `_newWorkout`: a rejected form raises the alert and returns before
        anything changes; an accepted one appends the new workout at the
        end of the list and saves the whole list. */
    method NewWorkout(form: Form, at: LatLng, now: nat, date: Date) returns (alerted: bool)
      modifies this`workouts, storage
      ensures alerted <==> !Accepts(form)
      ensures alerted ==> workouts == old(workouts) && storage.items == old(storage.items)
      ensures !alerted ==> && workouts == old(workouts) + [Create(form, now, date, at).value]
                           && storage.items == old(storage.items)[WorkoutsKey := workouts]
    {
      var distance, duration := form.distance, form.duration;
      var workout: Workout;
      if form.activity == Running {
        var cadence := form.cadence;
        if !ValidInputs([distance, duration, cadence]) || !AllPositive([distance, duration, cadence]) {
          return true;
        }
        assert Accepts(form);
        workout := NewRunning(now, date, at, distance.value, duration.value, cadence.value);
      } else {
        var elevation := form.elevation;
        if !ValidInputs([distance, duration, elevation]) || !AllPositive([distance, duration]) {
          return true;
        }
        assert Accepts(form);
        workout := NewCycling(now, date, at, distance.value, duration.value, elevation.value);
      }
      workouts := workouts + [workout];
      SetLocalStorage();
      return false;
    }

    /** `_deleteWorkout`: removes the first workout with the id and saves
        the list; an id that is not in the list changes nothing and saves
        nothing. */
    method DeleteWorkout(id: string)
      modifies this`workouts, storage
      ensures var i := FindIndex(old(workouts), id);
        if i == -1 then
          workouts == old(workouts) && storage.items == old(storage.items)
        else
          workouts == RemoveAt(old(workouts), i) && storage.items == old(storage.items)[WorkoutsKey := workouts]
    {
      var workoutIndex := FindIndex(workouts, id);
      if workoutIndex != -1 {
        workouts := RemoveAt(workouts, workoutIndex);
        SetLocalStorage();
      }
    }

    /** `_deleteAllWorkout`: clears the whole store.  The list in memory is
        not touched; the page reload that follows starts from the empty store. */
    method DeleteAllWorkout()
      modifies storage
      ensures storage.items == map[]
      ensures workouts == old(workouts)
    {
      storage.Clear();
    }

    /** `_sortWorkout`: sorts the list by distance in place.  The sorted
        order is not saved. */
    method SortWorkout()
      modifies this`workouts
      ensures workouts == SortByDistance(old(workouts))
    {
      workouts := SortByDistance(workouts);
    }
  }

  /** Saving and then starting a new page over the same store gives back
      exactly the saved list. */
  method SaveThenReload(app: App) returns (reloaded: App)
    modifies app.storage
    ensures reloaded.workouts == app.workouts
    ensures reloaded.storage == app.storage
  {
    app.SetLocalStorage();
    reloaded := new App(app.storage);
  }

  /** After delete-all and the page reload, the app starts with no workouts. */
  method DeleteAllThenReload(app: App) returns (reloaded: App)
    modifies app.storage
    ensures reloaded.workouts == []
    ensures reloaded.storage.items == map[]
  {
    app.DeleteAllWorkout();
    reloaded := new App(app.storage);
  }

  /** Deleting a workout and reloading the page gives the list without it. */
  method DeleteThenReload(app: App, id: string) returns (reloaded: App)
    modifies app, app.storage
    requires FindIndex(app.workouts, id) != -1
    ensures reloaded.workouts == RemoveAt(old(app.workouts), FindIndex(old(app.workouts), id))
    ensures |reloaded.workouts| == |old(app.workouts)| - 1
  {
    app.DeleteWorkout(id);
    reloaded := new App(app.storage);
  }

  /** The run of the first visit: 5.2 km in 24 min at cadence 178. */
  const ExampleRun := Form(Running, Finite(5.2), Finite(24.0), Finite(178.0), NaN)

  /** The ride of the first visit: 27 km in 95 min climbing 523 m. */
  const ExampleRide := Form(Cycling, Finite(27.0), Finite(95.0), NaN, Finite(523.0))

  lemma ExampleFormsAccepted(now: nat, date: Date, at: LatLng)
    ensures Create(ExampleRun, now, date, at).Some?
    ensures Create(ExampleRun, now, date, at).value.RunningWorkout?
    ensures Create(ExampleRun, now, date, at).value.pace == Pace(5.2, 24.0)
    ensures Create(ExampleRide, now, date, at).Some?
    ensures Create(ExampleRide, now, date, at).value.CyclingWorkout?
    ensures Create(ExampleRide, now, date, at).value.speed == Speed(27.0, 95.0)
  {
  }

  /** A first visit: two accepted forms, submitted one after the other at
      their own times, dates and positions on an empty store, are kept in
      submission order, and the store holds both. */
  method FirstVisit(first: Form, at1: LatLng, now1: nat, date1: Date,
                    second: Form, at2: LatLng, now2: nat, date2: Date) returns (app: App)
    requires Accepts(first) && Accepts(second)
    ensures app.workouts == [Create(first, now1, date1, at1).value, Create(second, now2, date2, at2).value]
    ensures WorkoutsKey in app.storage.items && app.storage.items[WorkoutsKey] == app.workouts
  {
    var storage := new LocalStorage(map[]);
    app := new App(storage);
    var alerted := app.NewWorkout(first, at1, now1, date1);
    ghost var afterFirst := app.workouts;
    ghost var storedFirst := storage.items;
    assert afterFirst == [Create(first, now1, date1, at1).value];
    alerted := app.NewWorkout(second, at2, now2, date2);
    assert app.workouts == afterFirst + [Create(second, now2, date2, at2).value];
    assert app.storage.items == storedFirst[WorkoutsKey := app.workouts];
  }

  /** A run with a negative distance raises the alert and changes neither
      the list nor the store. */
  method NegativeDistanceRejected(app: App, at: LatLng, now: nat, date: Date) returns (alerted: bool)
    modifies app, app.storage
    ensures alerted
    ensures app.workouts == old(app.workouts) && app.storage.items == old(app.storage.items)
  {
    var bad := Form(Running, Finite(-5.0), Finite(24.0), Finite(178.0), NaN);
    alerted := app.NewWorkout(bad, at, now, date);
  }
}
