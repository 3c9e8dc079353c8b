# Mapty workouts: a verified model of the workout core

Mapty is a browser app for logging runs and rides on a map. You click the
map, fill in a form, and the app records a workout at that point. This
project models the sequential core of `script.js`:

- **The workout records.** A running workout stores a cadence and derives
  its pace in min/km. A cycling workout stores an elevation gain and derives
  its speed in km/h. Each one carries:
  - an id taken from the last ten digits of the creation timestamp;
  - a description "<Type> on <Month> <day>".
- **The guard of `_newWorkout`.** Before a workout is built, every number
  must be finite. Distance and duration must be positive, and so must the
  cadence of a run. The elevation gain of a ride may be zero or negative.
- **The `App` controller's list `#workouts`.** The list is changed in place
  and kept in `localStorage` under the key `"workouts"`:
  - append on submit;
  - remove the first workout with a given id;
  - sort by distance;
  - save;
  - load;
  - clear the store.

Modules:

| file | module | what it holds |
|---|---|---|
| `wrappers.dfy` | `Wrappers` | `Option`, for `null` results |
| `decimal.dfy` | `Decimal` | the decimal text of a natural number, what `n + ""` gives for integers below 10^21; also `slice(-k)` and the facts about both that the ids and descriptions need |
| `workout.dfy` | `Workouts` | the workout datatype, `calcPace`, `calcSpeed`, the description, the timestamp id |
| `validation.dfy` | `Validation` | form numbers, the guard, and the workout a form produces |
| `workout_list.dfy` | `WorkoutList` | `findIndex`, `splice(i, 1)` and the stable sort by distance, as functions on sequences |
| `storage.dfy` | `Storage` | `localStorage` as a class whose field is a map from keys to saved lists |
| `app.dfy` | `Mapty` | the `App` class: a `seq` field for `#workouts`, the store it saves to, its list methods, and short scenarios that reload the page |

Modelling choices:

- **Form numbers.** A number read from the form is a `Num`: a finite real,
  plus infinity, minus infinity or NaN. This is what `Number.isFinite` and
  `> 0` distinguish. Plus infinity counts as positive and NaN does not.
- **Clock and date.** The clock (`Date.now()`), the month index and the day
  of the month are parameters. The clicked map position is a parameter too.
- **Page reload.** `reset` reloads the page, and a new page starts from the
  same store. This is modelled by building a new `App` over the same
  `LocalStorage` object.

Where the code does something a reader might not expect, the model follows
the code:

- **Delete-all clears every key.** `_deleteAllWorkout` calls
  `localStorage.clear()`, which removes every key, not only `"workouts"`.
- **Delete-all leaves the list in memory.** It does not empty `#workouts`.
  The list only becomes empty once the page reloads and loads from the
  empty store.
- **The sort is not saved.** `_sortWorkout` re-renders the sorted list but
  does not save it. A reload brings back the order of the last save.
- **Loading keeps the current list when nothing is saved.** `_getLocalStorage`
  returns early when the key is absent. A saved empty array still
  replaces the list, because `[]` is truthy.

## Model

| member | source | states |
|---|---|---|
| Decimal.NatToString | script.js:5 | the text of a number is never empty, is all digits, and has no leading zero unless the number is 0 |
| Decimal.ParseNatToString | script.js:5 | reading the text of `n` back as a number gives `n`, so the text is a faithful rendering |
| Decimal.NatToStringInjective | script.js:32 | different numbers have different texts |
| Decimal.SliceFromEnd | script.js:5 | `slice(-k)` keeps the last `k` characters, or all of them when the string is shorter or `k` is 0 (`slice(-0)` is `slice(0)`), and its result is a suffix of the string |
| Decimal.SuffixOfDigits | script.js:5 | the tail that `slice(-k)` keeps of a string of digits is digits too |
| Decimal.LastDigitsRepeat | script.js:5 | two numbers `10^k` apart, each with at least `k` digits, have the same last `k` characters |
| Workouts.TimestampId | script.js:5 | an id has between one and ten characters |
| Workouts.TimestampIdIsTail | script.js:5 | the id is all digits: the whole timestamp text when it has at most ten digits, and its last ten digits otherwise |
| Workouts.TimestampIdRepeats | script.js:5 | ids are not unique: creation times exactly 10^10 ms apart get the same id |
| Workouts.Pace | script.js:49-52 | pace times distance gives back the duration; positive distance and duration give a positive pace |
| Workouts.Speed | script.js:64-66 | speed times the duration in hours gives back the distance; positive inputs give a positive speed |
| Workouts.NewRunning | script.js:40-47 | a running workout stores date, id, coordinates, distance, duration and cadence as given; its pace is `Pace(distance, duration)`; its description is that of "running" on its date |
| Workouts.NewCycling | script.js:55-62 | a cycling workout stores the base fields and elevation gain as given; its speed is `Speed(distance, duration)`; its description is that of "cycling" on its date |
| Workouts.PaceTimesSpeed | script.js:49-66 | a cross-check of the two metric functions against each other, not a promise the script makes: for the same distance and duration, pace (min/km) times speed (km/h) is exactly 60 |
| Workouts.ExampleMetrics | script.js:69-70 | the run of 5.2 km in 24 min has a pace between 4.615 and 4.616; the ride of 27 km in 95 min has a speed between 17.05 and 17.06 |
| Workouts.TypeName | script.js:41 | each `type` tag is seven characters and starts with a lower-case letter |
| Workouts.Capitalize | script.js:30 | for ASCII text: the capitalised string has the same length and the same characters after the first; a lower-case first letter `a`-`z` becomes its own capital, and any other first character is kept |
| Workouts.CapitalizedTypeName | script.js:30 | the capitalised type is "Running" or "Cycling" |
| Workouts.Description | script.js:13-33 | a description is "Running" or "Cycling" after the activity, then " on ", then "<Month> <day>" for its date |
| Workouts.DescriptionExample | script.js:13-33 | a run on month index 2, day 5 is described as "Running on March 5" |
| Workouts.DescriptionTwoDigitDay | script.js:30-32 | a ride on month index 11, day 31 is described as "Cycling on December 31": the month by name, the day unpadded |
| Workouts.MonthNumberOfName | script.js:15-28 | each of the twelve month names leads back to its own index, so no two months share a name |
| Workouts.MonthNamesHaveNoSpace | script.js:15-28 | no month name contains a space |
| Workouts.DescriptionInjective | script.js:13-33 | equal descriptions come from the same type, month and day |
| Validation.IsFinite | script.js:158 | `Number.isFinite` is false exactly for NaN and the two infinities |
| Validation.IsPositive | script.js:159 | `> 0` holds exactly for +Infinity and for a finite value above zero: never for NaN or -Infinity, and on a finite number it is the comparison of its value with zero |
| Validation.ValidInputs | script.js:158 | `validInputs` holds exactly when none of the inputs is NaN or an infinity |
| Validation.AllPositive | script.js:159 | `allPositive` holds exactly when every input is +Infinity or a finite value above zero: it rejects any NaN or -Infinity, and on finite inputs asks that every value is above zero |
| Validation.Accepts | script.js:157-188 | the form passes the guard exactly when distance and duration are finite and positive, plus a finite positive cadence for a run or a finite elevation for a ride (which may be zero or negative) |
| Validation.Create | script.js:163-188 | a workout is built exactly when the guard accepts; it has the selected type, the timestamp id, the clicked position, the date and its description, the form's distance and duration, and a positive pace or speed computed from them |
| WorkoutList.FindIndex | script.js:277 | `findIndex` gives -1 exactly when no workout has the id; otherwise it gives a position holding the id, with no earlier position holding it |
| WorkoutList.RemoveAt | script.js:280 | `splice(i, 1)` shortens the list by one, keeps the elements before `i`, shifts those after it down, and removes exactly one copy of `ws[i]` from the multiset |
| WorkoutList.Insert | script.js:296 | one insertion step of the sort adds exactly the new workout to the multiset |
| WorkoutList.InsertKeepsOrder | script.js:296 | inserting into a list sorted by distance keeps it sorted |
| WorkoutList.SortByDistance | script.js:296 | the sorted list is a permutation of the list, and its distances never decrease |
| WorkoutList.InsertKeepsTies | script.js:296 | an inserted workout stays ahead of the workouts of the same distance |
| WorkoutList.SortIsStable | script.js:296 | for every distance, the workouts with that distance come out in the order they went in |
| WorkoutList.SortKeepsSortedList | script.js:296 | sorting a list already in distance order changes nothing |
| Storage.LocalStorage.constructor | script.js:326 | the store a page finds holds what earlier pages saved |
| Storage.LocalStorage.SetItem | script.js:322 | `setItem` sets one key and keeps every other key |
| Storage.LocalStorage.GetItem | script.js:326 | `getItem` returns the saved list exactly when the key is present, and `null` otherwise |
| Storage.LocalStorage.Clear | script.js:290 | `clear` leaves the store empty |
| Mapty.Loaded | script.js:325-330 | after loading, a saved list under `"workouts"`, even an empty one, is the list; without the key the list is kept |
| Mapty.LoadAfterSave | script.js:321-330 | loading after a save gives back the saved list, whatever the page had |
| Mapty.LoadIgnoresOtherKeys | script.js:326 | setting any other key does not change what loading gives |
| Mapty.App.constructor | script.js:87-94 | a new page starts with the saved list when there is one, and with the empty list otherwise |
| Mapty.App.GetLocalStorage | script.js:325-335 | the list becomes the saved list when the key is present, and is kept as it was otherwise |
| Mapty.App.SetLocalStorage | script.js:321-323 | the whole list is saved under `"workouts"`; other keys are kept |
| Mapty.App.NewWorkout | script.js:157-203 | the alert is raised exactly when the guard rejects, and then neither list nor store changes; otherwise exactly one new workout is appended at the end, earlier ones keep their order, and the whole list is saved |
| Mapty.App.DeleteWorkout | script.js:269-287 | an id that is absent changes nothing and saves nothing; otherwise the first workout with that id is removed and the list is saved |
| Mapty.App.DeleteAllWorkout | script.js:289-292 | the store is emptied; the list in memory is not touched |
| Mapty.App.SortWorkout | script.js:294-305 | the list becomes its stable sort by distance; the store is not touched |
| Mapty.SaveThenReload | script.js:321-335 | after a save, a reloaded page starts with exactly the saved list |
| Mapty.DeleteAllThenReload | script.js:289-292 | after delete-all, the reloaded page starts with no workouts and an empty store |
| Mapty.DeleteThenReload | script.js:277-285 | after deleting a present id, the reloaded page starts with the list minus the first workout with that id, one shorter |
| Mapty.ExampleFormsAccepted | script.js:69-70 | the example run (5.2 km, 24 min, cadence 178) and ride (27 km, 95 min, 523 m) pass the guard, with the expected type and metric |
| Mapty.FirstVisit | script.js:187-202 | two accepted submissions on an empty store, each at its own time, date and position, are kept in submission order, and both are saved |
| Mapty.NegativeDistanceRejected | script.js:173-174 | a run with a negative distance raises the alert and changes neither list nor store |

## Left out

- DOM, form and rendering: `_showForm`, `_hideForm`, `_toggleElevationField`, `_renderWorkout`, `toFixed` formatting. These are display only, with no list or storage effect.
- The Leaflet map and geolocation: `_getPosition`, `_loadMap`, `_renderWorkoutMarker`, `_moveToPopup`. These are foreign library calls. The clicked position is a parameter.
- `reset` and `location.reload()`: a browser side effect. The methods end once the store is updated, and the scenarios model the reload as a new `App` over the same store.
- The delete-button guard in `_deleteWorkout` (`if (!clicked) return`) and reading the id from the DOM: the id is a parameter.
- `JSON.stringify` and `JSON.parse`: the store maps keys straight to lists of workout records.
- Reloaded records: in the browser they are plain objects without methods, and their `date` field comes back as a string. The model keeps them as the same records, with a `Date`.
- IEEE floating point and the `+input.value` coercion: numbers are reals, or one of the three non-finite values.
- Workouts.Capitalize: only the ASCII case mapping is modelled; `toUpperCase` on other letters ('é' to 'É', 'ß' to "SS", which changes the length) is not, since only "running" and "cycling" reach it.
- Workouts.Pace: uses exact real division, not rounded floating-point division.
- Workouts.Speed: uses exact real division, not rounded floating-point division.
- Mapty.App.NewWorkout: the store never fails in the model. In the browser `localStorage.setItem` can throw (quota exceeded) after the push, leaving the list appended but not saved; this failure is not modelled.
- Mapty.App.SetLocalStorage: `setItem` always succeeds here; a quota error is not modelled.
- Mapty.App.constructor: a stored value that is not valid JSON makes `JSON.parse` throw at start-up; the model's store only holds lists, so this failure is not modelled.
- `Date` and `Date.now()`: the month index, the day of the month and the millisecond clock are parameters.
- The unused `clicks` field and the commented-out `click()` method.
- A form type other than "running" or "cycling": the activity is a two-valued datatype, so the path that would push `undefined` does not exist here.
- Any other use of the store by other code on the same origin: only the `"workouts"` key is read. `clear` still removes every key.
