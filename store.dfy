/**
 The state of the App component: the itinerary document and the index of
 the day being edited. Each operation is one atomic state step.
 */
module App {
  import opened Itinerary
  import opened Days
  import opened Costs

  class Store {
    var itinerary: Itinerary
    /** The day whose activities the editor lists; it is dereferenced
        without a check, so it must always name a day. */
    var activeDay: nat

    ghost predicate Valid()
      reads this
    {
      1 <= |itinerary.days| && activeDay < |itinerary.days|
    }

    /** The session starts with the seeded trip and its first day selected. */
    constructor ()
      ensures Valid()
      ensures itinerary == Seed() && activeDay == 0
    {
      itinerary := Seed();
      activeDay := 0;
    }

    /** The title input writes the title and nothing else. */
    method SetTitle(title: string)
      requires Valid()
      modifies this
      ensures Valid()
      ensures itinerary == old(itinerary).(title := title)
      ensures activeDay == old(activeDay)
    {
      itinerary := itinerary.(title := title);
    }

    /** Selecting a day in the day list; the list offers only existing days. */
    method SelectDay(i: nat)
      requires Valid() && i < |itinerary.days|
      modifies this
      ensures Valid()
      ensures itinerary == old(itinerary) && activeDay == i
    {
      activeDay := i;
    }

    /** addDay: a new empty day at the end, which becomes the active day. */
    method AddDay(freshId: int)
      requires Valid()
      modifies this
      ensures Valid()
      ensures itinerary == old(itinerary).(days := old(itinerary.days) + [Day(freshId, [])])
      ensures activeDay == old(|itinerary.days|) == |itinerary.days| - 1
    {
      var newDay := Day(freshId, []);
      var oldCount := |itinerary.days|;
      itinerary := itinerary.(days := itinerary.days + [newDay]);
      activeDay := oldCount;
    }

    /** deleteDay: refused while only one day is left; otherwise the day at
        `index` is filtered out (none when `index` names no day) and the
        first day becomes the active one. */
    method DeleteDay(index: int)
      requires Valid()
      modifies this
      ensures Valid()
      ensures itinerary == old(itinerary).(days := AfterDelete(old(itinerary.days), index))
      ensures activeDay == if old(|itinerary.days|) <= 1 then old(activeDay) else 0
    {
      if |itinerary.days| <= 1 {
        return;
      }
      var newDays := WithoutIndex(itinerary.days, index);
      itinerary := itinerary.(days := newDays);
      activeDay := 0;
    }

    /** addActivity: pushes the default activity onto the chosen day. The
        source throws when `dayIndex` names no day. */
    method AddActivity(dayIndex: nat, freshId: int)
      requires Valid() && dayIndex < |itinerary.days|
      modifies this
      ensures Valid()
      ensures itinerary == old(itinerary).(days := WithActivity(old(itinerary.days), dayIndex, freshId))
      ensures activeDay == old(activeDay)
    {
      var newAct := NewActivity(freshId);
      var newDays := itinerary.days;
      var day := newDays[dayIndex];
      day := day.(activities := day.activities + [newAct]);
      newDays := newDays[dayIndex := day];
      itinerary := itinerary.(days := newDays);
    }

    /** updateActivity: finds the first activity of the day with the id and
        overwrites the one field; an unknown id leaves the state alone. The
        source throws when `dayIndex` names no day. */
    method UpdateActivity(dayIndex: nat, actId: int, e: Edit)
      requires Valid() && dayIndex < |itinerary.days|
      modifies this
      ensures Valid()
      ensures itinerary == old(itinerary).(days := WithEdit(old(itinerary.days), dayIndex, actId, e))
      ensures activeDay == old(activeDay)
    {
      var newDays := itinerary.days;
      var acts := newDays[dayIndex].activities;
      var idx := FindIndex(acts, actId);
      if idx != -1 {
        acts := acts[idx := ApplyEdit(acts[idx], e)];
        newDays := newDays[dayIndex := newDays[dayIndex].(activities := acts)];
        itinerary := itinerary.(days := newDays);
      }
    }

    /** The activities the editor lists: those of the active day. */
    method ActiveActivities() returns (acts: seq<Activity>)
      requires Valid()
      ensures acts == itinerary.days[activeDay].activities
    {
      acts := itinerary.days[activeDay].activities;
    }
  }

  /** A session: the seed, a second day, an activity with a cost on it, then
      the second day deleted again. The total follows each step. */
  method Session()
  {
    var store := new Store();
    SeedTotals();
    ghost var seeded := store.itinerary.days;
    assert TotalCost(seeded) == 12800;
    store.AddDay(1711324800000);
    assert store.activeDay == 1;
    ghost var twoDays := store.itinerary.days;
    assert TotalCost(twoDays) == 12800 by {
      TotalAfterAddDay(seeded, 1711324800000);
    }
    store.AddActivity(store.activeDay, 1711324800001);
    ghost var withActivity := store.itinerary.days;
    assert withActivity[1].activities == [NewActivity(1711324800001)];
    assert TotalCost(withActivity) == 12800 by {
      TotalAfterAddActivity(twoDays, 1, 1711324800001);
    }
    store.UpdateActivity(1, 1711324800001, SetCost(Num(500)));
    assert FindIndex(withActivity[1].activities, 1711324800001) == 0;
    assert TotalCost(store.itinerary.days) == 12800 + 500 by {
      TotalAfterEdit(withActivity, 1, 1711324800001, SetCost(Num(500)));
    }
    assert store.itinerary.days[1].activities == [NewActivity(1711324800001).(cost := Num(500))];
    store.DeleteDay(1);
    assert store.itinerary.days == Seed().days && store.activeDay == 0;
    store.DeleteDay(0);
    assert |store.itinerary.days| == 1;
  }
}
