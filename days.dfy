/**
 The structural edits App applies to the list of days, as functions from the
 old list to the new one: filtering a day out (deleteDay), appending a new
 activity to one day (addActivity) and overwriting one field of the first
 activity with a given id (updateActivity).
 */
module Days {
  import opened Itinerary

  /** `s.filter((_, i) => i !== index)`: every element except the one at
      position `index`; an index outside the list removes nothing. */
  function WithoutIndex<T>(s: seq<T>, index: int): (r: seq<T>)
    ensures 0 <= index < |s| ==> r == s[..index] + s[index + 1..]
    ensures !(0 <= index < |s|) ==> r == s
    decreases |s|
  {
    if s == [] then []
    else
      var last := |s| - 1;
      var kept := WithoutIndex(s[..last], index);
      assert s == s[..last] + [s[last]];
      if last == index then kept else kept + [s[last]]
  }

  /** deleteDay: the guard keeps the last remaining day, otherwise the day at
      `index` is filtered out. */
  function AfterDelete(days: seq<Day>, index: int): (r: seq<Day>)
    ensures |days| >= 1 ==> |r| >= 1
    ensures 2 <= |days| && 0 <= index < |days| ==>
              |r| == |days| - 1
              && (forall j :: 0 <= j < index ==> r[j] == days[j])
              && (forall j :: index <= j < |r| ==> r[j] == days[j + 1])
    ensures |days| <= 1 || !(0 <= index < |days|) ==> r == days
  {
    if |days| <= 1 then days else WithoutIndex(days, index)
  }

  /** The days left after a run of deleteDay calls, one per index. */
  function DeleteAll(days: seq<Day>, indices: seq<int>): (r: seq<Day>)
    ensures |days| >= 1 ==> 1 <= |r| <= |days|
    decreases |indices|
  {
    if indices == [] then days
    else DeleteAll(AfterDelete(days, indices[0]), indices[1..])
  }

  /** `activities.findIndex(a => a.id === id)`: the position of the first
      activity with that id, or -1. */
  function FindIndex(acts: seq<Activity>, id: int): (r: int)
    ensures -1 <= r < |acts|
    ensures r == -1 <==> !HasId(acts, id)
    ensures 0 <= r ==> acts[r].id == id && forall k :: 0 <= k < r ==> acts[k].id != id
  {
    if acts == [] then -1
    else if acts[0].id == id then 0
    else
      var r := FindIndex(acts[1..], id);
      if r == -1 then
        assert forall k :: 1 <= k < |acts| ==> acts[k].id == acts[1..][k - 1].id;
        -1
      else r + 1
  }

  /** addActivity(dayIndex) with the fresh id `id`: the default activity
      goes at the end of the chosen day, without re-sorting, and nothing else
      changes. */
  function WithActivity(days: seq<Day>, dayIndex: nat, id: int): (r: seq<Day>)
    requires dayIndex < |days|
    ensures |r| == |days|
    ensures r[dayIndex].id == days[dayIndex].id
    ensures |r[dayIndex].activities| == |days[dayIndex].activities| + 1
    ensures r[dayIndex].activities[..|days[dayIndex].activities|] == days[dayIndex].activities
    ensures r[dayIndex].activities[|days[dayIndex].activities|] == NewActivity(id)
    ensures forall j :: 0 <= j < |days| && j != dayIndex ==> r[j] == days[j]
  {
    days[dayIndex := days[dayIndex].(activities := days[dayIndex].activities + [NewActivity(id)])]
  }

  /** updateActivity(dayIndex, id, field, value). An id that no activity
      of the day carries leaves every day as it was. Otherwise only the first
      activity with that id is rewritten, by ApplyEdit; the other activities,
      the day's id and the other days stay as they were. */
  function WithEdit(days: seq<Day>, dayIndex: nat, id: int, e: Edit): (r: seq<Day>)
    requires dayIndex < |days|
    ensures !HasId(days[dayIndex].activities, id) ==> r == days
    ensures |r| == |days|
    ensures forall j :: 0 <= j < |days| && j != dayIndex ==> r[j] == days[j]
    ensures r[dayIndex].id == days[dayIndex].id
    ensures |r[dayIndex].activities| == |days[dayIndex].activities|
    ensures HasId(days[dayIndex].activities, id) ==>
              var acts := days[dayIndex].activities;
              var i := FindIndex(acts, id);
              && 0 <= i < |acts| && acts[i].id == id
              && (forall k :: 0 <= k < i ==> acts[k].id != id)
              && (forall k :: 0 <= k < |acts| && k != i ==> r[dayIndex].activities[k] == acts[k])
              && r[dayIndex].activities[i] == ApplyEdit(acts[i], e)
  {
    var acts := days[dayIndex].activities;
    var i := FindIndex(acts, id);
    if i == -1 then days
    else days[dayIndex := days[dayIndex].(activities := acts[i := ApplyEdit(acts[i], e)])]
  }

  /** Deleting the day that addDay has just appended gives back the old days. */
  lemma AddThenDeleteRestores(days: seq<Day>, id: int)
    requires |days| >= 1
    ensures AfterDelete(days + [Day(id, [])], |days|) == days
  {
  }

  /** An id that no activity of the day carries keeps the day's ids unique. */
  lemma {:induction false} AddActivityKeepsIdsUnique(days: seq<Day>, dayIndex: nat, id: int)
    requires dayIndex < |days|
    requires UniqueIds(days[dayIndex].activities) && !HasId(days[dayIndex].activities, id)
    ensures UniqueIds(WithActivity(days, dayIndex, id)[dayIndex].activities)
    ensures HasId(WithActivity(days, dayIndex, id)[dayIndex].activities, id)
  {
    var acts := days[dayIndex].activities;
    var r := acts + [NewActivity(id)];
    assert r == WithActivity(days, dayIndex, id)[dayIndex].activities;
    forall i, j | 0 <= i < j < |r| ensures r[i].id != r[j].id {
      if j == |acts| {
        assert r[i] == acts[i];
      }
    }
    assert r[|acts|].id == id;
  }

  /** With unique ids, the edit lands on exactly the activity with that id,
      and the ids stay unique. */
  lemma EditWithUniqueIds(days: seq<Day>, dayIndex: nat, id: int, e: Edit)
    requires dayIndex < |days|
    requires UniqueIds(days[dayIndex].activities)
    ensures var acts := days[dayIndex].activities;
      var r := WithEdit(days, dayIndex, id, e);
      && |r| == |days|
      && |r[dayIndex].activities| == |acts|
      && (forall k :: 0 <= k < |acts| ==>
            r[dayIndex].activities[k] == if acts[k].id == id then ApplyEdit(acts[k], e) else acts[k])
      && UniqueIds(r[dayIndex].activities)
  {
  }

  /** Two activities created in the same millisecond carry the same id, and
      then an edit meant for the second one rewrites the first instead. */
  lemma DuplicateIdEditsFirstOnly(id: int)
    ensures var days := WithActivity(WithActivity([Day(1, [])], 0, id), 0, id);
      var r := WithEdit(days, 0, id, SetLocation("Shinjuku"));
      && !UniqueIds(days[0].activities)
      && r[0].activities == [NewActivity(id).(location := "Shinjuku"), NewActivity(id)]
  {
    var days := WithActivity(WithActivity([Day(1, [])], 0, id), 0, id);
    assert days[0].activities == [NewActivity(id), NewActivity(id)];
    assert FindIndex(days[0].activities, id) == 0;
    assert days[0].activities[0].id == days[0].activities[1].id;
    var r := WithEdit(days, 0, id, SetLocation("Shinjuku"));
    assert r[0].activities == days[0].activities[0 := NewActivity(id).(location := "Shinjuku")];
  }
}
