/** The operations the app performs on its ordered list of workouts:
    finding a workout by id (`findIndex`), cutting one element out
    (`splice(i, 1)`) and the stable sort by ascending distance
    (`sort((a, b) => a.distance - b.distance)`). */
module WorkoutList {
  import opened Workouts

  /** `findIndex`: the position of the first workout with this id, or -1
      when no workout has it. */
  function FindIndex(ws: seq<Workout>, id: string): (i: int)
    ensures -1 <= i < |ws|
    ensures i == -1 <==> forall j :: 0 <= j < |ws| ==> ws[j].Id() != id
    ensures 0 <= i ==> ws[i].Id() == id && forall j :: 0 <= j < i ==> ws[j].Id() != id
    decreases |ws|
  {
    if ws == [] then -1
    else if ws[0].Id() == id then 0
    else
      var k := FindIndex(ws[1..], id);
      if k == -1 then -1 else k + 1
  }

  /** `splice(i, 1)`: the list without its element at `i`; the elements
      before `i` stay where they are and those after it move down by one. */
  function RemoveAt(ws: seq<Workout>, i: nat): (r: seq<Workout>)
    requires i < |ws|
    ensures |r| == |ws| - 1
    ensures forall j :: 0 <= j < i ==> r[j] == ws[j]
    ensures forall j :: i <= j < |r| ==> r[j] == ws[j + 1]
    ensures multiset(r) + multiset{ws[i]} == multiset(ws)
  {
    assert ws == ws[..i] + [ws[i]] + ws[i + 1..];
    ws[..i] + ws[i + 1..]
  }

  /** Distances never decrease along the list. */
  predicate SortedByDistance(ws: seq<Workout>) {
    forall i, j :: 0 <= i < j < |ws| ==> ws[i].Distance() <= ws[j].Distance()
  }

  /** Puts `w` in front of the first workout that is at least as long, so
      that `w` stays ahead of the workouts of equal distance. */
  function Insert(w: Workout, ws: seq<Workout>): (r: seq<Workout>)
    ensures multiset(r) == multiset(ws) + multiset{w}
    decreases |ws|
  {
    if ws == [] then [w]
    else if w.Distance() <= ws[0].Distance() then [w] + ws
    else
      assert ws == [ws[0]] + ws[1..];
      [ws[0]] + Insert(w, ws[1..])
  }

  /** A workout no longer than any in a sorted list can go in front of it. */
  lemma PrependKeepsOrder(x: Workout, ws: seq<Workout>)
    requires SortedByDistance(ws)
    requires forall y :: y in ws ==> x.Distance() <= y.Distance()
    ensures SortedByDistance([x] + ws)
  {
    var r := [x] + ws;
    forall i, j | 0 <= i < j < |r| ensures r[i].Distance() <= r[j].Distance() {
      assert r[j] == ws[j - 1];
      if i > 0 {
        assert r[i] == ws[i - 1];
      }
    }
  }

  /** The first workout of a sorted list is no longer than any other. */
  lemma HeadIsShortest(ws: seq<Workout>)
    requires SortedByDistance(ws) && ws != []
    ensures forall y :: y in ws ==> ws[0].Distance() <= y.Distance()
  {
    forall y | y in ws ensures ws[0].Distance() <= y.Distance() {
      var k :| 0 <= k < |ws| && ws[k] == y;
    }
  }

  /** Inserting into a list in distance order keeps it in distance order. */
  lemma {:induction false} InsertKeepsOrder(w: Workout, ws: seq<Workout>)
    requires SortedByDistance(ws)
    ensures SortedByDistance(Insert(w, ws))
    decreases |ws|
  {
    if ws == [] {
    } else if w.Distance() <= ws[0].Distance() {
      HeadIsShortest(ws);
      PrependKeepsOrder(w, ws);
    } else {
      var rest := Insert(w, ws[1..]);
      InsertKeepsOrder(w, ws[1..]);
      HeadIsShortest(ws);
      forall x | x in rest ensures ws[0].Distance() <= x.Distance() {
        assert x in multiset(rest);
        if x != w {
          assert x in multiset(ws[1..]);
          assert x in ws[1..];
        }
      }
      PrependKeepsOrder(ws[0], rest);
    }
  }

  /** The list sorted by ascending distance: a permutation of the list whose
      distances never decrease. */
  function SortByDistance(ws: seq<Workout>): (r: seq<Workout>)
    ensures multiset(r) == multiset(ws)
    ensures SortedByDistance(r)
    decreases |ws|
  {
    if ws == [] then []
    else
      assert ws == [ws[0]] + ws[1..];
      var sortedTail := SortByDistance(ws[1..]);
      InsertKeepsOrder(ws[0], sortedTail);
      Insert(ws[0], sortedTail)
  }

  /** The workouts of the list whose distance is `d`, in list order. */
  function WithDistance(ws: seq<Workout>, d: real): (r: seq<Workout>)
    decreases |ws|
  {
    if ws == [] then []
    else (if ws[0].Distance() == d then [ws[0]] else []) + WithDistance(ws[1..], d)
  }

  lemma {:induction false} WithDistanceConcat(a: seq<Workout>, b: seq<Workout>, d: real)
    ensures WithDistance(a + b, d) == WithDistance(a, d) + WithDistance(b, d)
    decreases |a|
  {
    if a == [] {
      assert a + b == b;
    } else {
      assert (a + b)[0] == a[0];
      assert (a + b)[1..] == a[1..] + b;
      WithDistanceConcat(a[1..], b, d);
    }
  }

  /** The first workout is kept exactly when it has distance `d`. */
  lemma WithDistanceCons(x: Workout, ws: seq<Workout>, d: real)
    ensures WithDistance([x] + ws, d) == (if x.Distance() == d then [x] else []) + WithDistance(ws, d)
  {
    assert ([x] + ws)[1..] == ws;
  }

  /** Moving `w` behind a workout of another distance does not change the
      order among the workouts of any one distance. */
  lemma PassOtherDistance(w: Workout, head: Workout, rest: seq<Workout>, tail: seq<Workout>, d: real)
    requires w.Distance() != head.Distance()
    requires WithDistance(rest, d) == WithDistance([w] + tail, d)
    ensures WithDistance([head] + rest, d) == WithDistance([w] + ([head] + tail), d)
  {
    WithDistanceCons(head, rest, d);
    WithDistanceCons(w, tail, d);
    WithDistanceCons(w, [head] + tail, d);
    WithDistanceCons(head, tail, d);
    var tailKept := WithDistance(tail, d);
    var keptW := if w.Distance() == d then [w] else [];
    var keptHead := if head.Distance() == d then [head] else [];
    assert WithDistance([head] + rest, d) == keptHead + (keptW + tailKept);
    assert WithDistance([w] + ([head] + tail), d) == keptW + (keptHead + tailKept);
    // at most one of the two is kept
    assert keptW == [] || keptHead == [];
  }

  /** Inserting `w` keeps it ahead of every workout of the same distance. */
  lemma {:induction false} InsertKeepsTies(w: Workout, ws: seq<Workout>, d: real)
    ensures WithDistance(Insert(w, ws), d) == WithDistance([w] + ws, d)
    decreases |ws|
  {
    if ws != [] && w.Distance() > ws[0].Distance() {
      var head, tail := ws[0], ws[1..];
      assert ws == [head] + tail;
      assert Insert(w, ws) == [head] + Insert(w, tail);
      InsertKeepsTies(w, tail, d);
      PassOtherDistance(w, head, Insert(w, tail), tail, d);
    }
  }

  /** The sort is stable: for every distance, the workouts of that distance
      come out in the order they went in. */
  lemma {:induction false} SortIsStable(ws: seq<Workout>, d: real)
    ensures WithDistance(SortByDistance(ws), d) == WithDistance(ws, d)
    decreases |ws|
  {
    if ws != [] {
      SortIsStable(ws[1..], d);
      InsertKeepsTies(ws[0], SortByDistance(ws[1..]), d);
      WithDistanceConcat([ws[0]], SortByDistance(ws[1..]), d);
      WithDistanceConcat([ws[0]], ws[1..], d);
      assert ws == [ws[0]] + ws[1..];
    }
  }

  /** Sorting a list that is already in distance order changes nothing. */
  lemma {:induction false} SortKeepsSortedList(ws: seq<Workout>)
    requires SortedByDistance(ws)
    ensures SortByDistance(ws) == ws
    decreases |ws|
  {
    if ws != [] {
      SortKeepsSortedList(ws[1..]);
      assert SortByDistance(ws[1..]) == ws[1..];
      if |ws| > 1 {
        assert ws[0].Distance() <= ws[1].Distance();
      }
      assert ws == [ws[0]] + ws[1..];
    }
  }
}
