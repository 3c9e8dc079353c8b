/** The browser's `localStorage`: a key-value store that outlives the page.
    Each stored value is seen as the list of workout records that its JSON
    text encodes; the text itself is not modelled. */
module Storage {
  import opened Wrappers
  import opened Workouts

  class LocalStorage {
    var items: map<string, seq<Workout>>

    /** The store as the page finds it, holding whatever earlier visits saved. */
    constructor (saved: map<string, seq<Workout>>)
      ensures items == saved
    {
      items := saved;
    }

    /** `setItem`: the key now holds the value; every other key is kept. */
    method SetItem(key: string, value: seq<Workout>)
      modifies this
      ensures items == old(items)[key := value]
    {
      items := items[key := value];
    }

    /** `getItem`: the value under the key, or `null` (None) when the key
        was never set or has been cleared. */
    method GetItem(key: string) returns (r: Option<seq<Workout>>)
      ensures r.Some? <==> key in items
      ensures r.Some? ==> r.value == items[key]
    {
      if key in items {
        r := Some(items[key]);
      } else {
        r := None;
      }
    }

    /** `clear`: removes every key, not only the app's own. */
    method Clear()
      modifies this
      ensures items == map[]
    {
      items := map[];
    }
  }
}
