/**
 The cost aggregate App derives on every render: `totalCost`, a reduce over
 the days of a reduce over each day's activities of the coerced cost.
 */
module Costs {
  import opened Itinerary
  import opened Days

  /** `acts.reduce((ds, a) => ds + (Number(a.cost) || 0), 0)`, a left fold;
      it equals the plain sum of the day's coerced costs. */
  function DayTotal(acts: seq<Activity>): (total: int)
    ensures total == SumOfCosts(acts)
  {
    if acts == [] then 0
    else
      var init, last := acts[..|acts| - 1], acts[|acts| - 1];
      assert acts == init + [last];
      SumOfCostsAppend(init, [last]);
      DayTotal(init) + Coerce(last.cost)
  }

  /** `days.reduce((s, d) => s + DayTotal(d.activities), 0)`, a left fold;
      it equals the sum of the coerced cost of every activity of the trip,
      so empty and non-numeric costs contribute 0. */
  function TotalCost(days: seq<Day>): (total: int)
    ensures total == SumOfCosts(AllActivities(days))
  {
    if days == [] then 0
    else
      var init, last := days[..|days| - 1], days[|days| - 1];
      assert days == init + [last];
      AllActivitiesAppend(init, [last]);
      assert AllActivities([last]) == last.activities;
      SumOfCostsAppend(AllActivities(init), last.activities);
      TotalCost(init) + DayTotal(last.activities)
  }

  /** Reference definition: the sum of the coerced costs of a flat list. */
  function SumOfCosts(acts: seq<Activity>): (sum: int) {
    if acts == [] then 0 else Coerce(acts[0].cost) + SumOfCosts(acts[1..])
  }

  /** All activities of the trip, day after day, each day in its own order. */
  function AllActivities(days: seq<Day>): (acts: seq<Activity>) {
    if days == [] then [] else days[0].activities + AllActivities(days[1..])
  }

  lemma {:induction false} SumOfCostsAppend(a: seq<Activity>, b: seq<Activity>)
    ensures SumOfCosts(a + b) == SumOfCosts(a) + SumOfCosts(b)
    decreases |a|
  {
    if a != [] {
      assert (a + b)[1..] == a[1..] + b;
      SumOfCostsAppend(a[1..], b);
    } else {
      assert a + b == b;
    }
  }

  lemma {:induction false} DayTotalAppend(a: seq<Activity>, b: seq<Activity>)
    ensures DayTotal(a + b) == DayTotal(a) + DayTotal(b)
    decreases |b|
  {
    if b == [] {
      assert a + b == a;
    } else {
      var init := b[..|b| - 1];
      assert (a + b)[..|a + b| - 1] == a + init;
      DayTotalAppend(a, init);
    }
  }

  lemma {:induction false} TotalCostAppend(a: seq<Day>, b: seq<Day>)
    ensures TotalCost(a + b) == TotalCost(a) + TotalCost(b)
    decreases |b|
  {
    if b == [] {
      assert a + b == a;
    } else {
      var init := b[..|b| - 1];
      assert (a + b)[..|a + b| - 1] == a + init;
      TotalCostAppend(a, init);
    }
  }

  lemma {:induction false} AllActivitiesAppend(a: seq<Day>, b: seq<Day>)
    ensures AllActivities(a + b) == AllActivities(a) + AllActivities(b)
    decreases |a|
  {
    if a == [] {
      assert a + b == b;
    } else {
      assert (a + b)[1..] == a[1..] + b;
      AllActivitiesAppend(a[1..], b);
    }
  }

  lemma SingleDayTotal(d: Day)
    ensures TotalCost([d]) == DayTotal(d.activities)
  {
  }

  /** A new day brings no cost. */
  lemma TotalAfterAddDay(days: seq<Day>, id: int)
    ensures TotalCost(days + [Day(id, [])]) == TotalCost(days)
  {
  }

  /** Splitting the days around position k: the total is the sum of the parts. */
  lemma TotalAroundDay(days: seq<Day>, k: nat)
    requires k < |days|
    ensures TotalCost(days) == TotalCost(days[..k]) + DayTotal(days[k].activities) + TotalCost(days[k + 1..])
  {
    var pre, post := days[..k], days[k + 1..];
    assert days == pre + [days[k]] + post;
    TotalCostAppend(pre + [days[k]], post);
    TotalCostAppend(pre, [days[k]]);
    SingleDayTotal(days[k]);
  }

  /** Deleting a day takes exactly that day's total off the trip's total;
      a delete the guard or the range refuses changes nothing. */
  lemma TotalAfterDelete(days: seq<Day>, index: int)
    ensures 2 <= |days| && 0 <= index < |days| ==>
              TotalCost(AfterDelete(days, index)) == TotalCost(days) - DayTotal(days[index].activities)
    ensures |days| <= 1 || !(0 <= index < |days|) ==>
              TotalCost(AfterDelete(days, index)) == TotalCost(days)
  {
    if 2 <= |days| && 0 <= index < |days| {
      var pre, post := days[..index], days[index + 1..];
      assert AfterDelete(days, index) == pre + post;
      TotalAroundDay(days, index);
      TotalCostAppend(pre, post);
    }
  }

  /** Replacing one day changes the total by the difference of the day totals. */
  lemma TotalAfterReplaceDay(days: seq<Day>, k: nat, d: Day)
    requires k < |days|
    ensures TotalCost(days[k := d]) == TotalCost(days) - DayTotal(days[k].activities) + DayTotal(d.activities)
  {
    var r := days[k := d];
    assert r[..k] == days[..k] && r[k + 1..] == days[k + 1..];
    TotalAroundDay(days, k);
    TotalAroundDay(r, k);
  }

  /** Replacing one activity changes the day total by the difference of the
      coerced costs. */
  lemma DayTotalAfterReplace(acts: seq<Activity>, k: nat, a: Activity)
    requires k < |acts|
    ensures DayTotal(acts[k := a]) == DayTotal(acts) - Coerce(acts[k].cost) + Coerce(a.cost)
  {
    var pre, post := acts[..k], acts[k + 1..];
    assert acts == pre + [acts[k]] + post;
    assert acts[k := a] == pre + [a] + post;
    DayTotalAppend(pre + [acts[k]], post);
    DayTotalAppend(pre, [acts[k]]);
    DayTotalAppend(pre + [a], post);
    DayTotalAppend(pre, [a]);
    assert [a][..0] == [] && [acts[k]][..0] == [];
  }

  /** A new activity has an empty cost and leaves the total as it was. */
  lemma TotalAfterAddActivity(days: seq<Day>, dayIndex: nat, id: int)
    requires dayIndex < |days|
    ensures TotalCost(WithActivity(days, dayIndex, id)) == TotalCost(days)
  {
    var acts := days[dayIndex].activities;
    TotalAfterReplaceDay(days, dayIndex, days[dayIndex].(activities := acts + [NewActivity(id)]));
    DayTotalAppend(acts, [NewActivity(id)]);
    assert [NewActivity(id)][..0] == [];
  }

  /** Only a cost edit that finds its activity moves the total, and then by
      the coerced new cost minus the coerced old one. */
  lemma TotalAfterEdit(days: seq<Day>, dayIndex: nat, id: int, e: Edit)
    requires dayIndex < |days|
    ensures var acts := days[dayIndex].activities;
      var i := FindIndex(acts, id);
      TotalCost(WithEdit(days, dayIndex, id, e)) ==
        if i == -1 || !e.SetCost? then TotalCost(days)
        else TotalCost(days) - Coerce(acts[i].cost) + Coerce(e.cost)
  {
    var acts := days[dayIndex].activities;
    var i := FindIndex(acts, id);
    if i != -1 {
      var a := ApplyEdit(acts[i], e);
      DayTotalAfterReplace(acts, i, a);
      TotalAfterReplaceDay(days, dayIndex, days[dayIndex].(activities := acts[i := a]));
    }
  }

  /** The seeded trip costs 12000 + 800 + '' = 12800; with a second day
      costing 500 and '' the trip costs 13300. */
  lemma SeedTotals()
    ensures TotalCost(Seed().days) == 12800
    ensures TotalCost(Seed().days + [Day(2, [NewActivity(4).(cost := Num(500)), NewActivity(5)])]) == 13300
  {
    SingleDayTotal(Seed().days[0]);
    var second := Day(2, [NewActivity(4).(cost := Num(500)), NewActivity(5)]);
    TotalCostAppend(Seed().days, [second]);
    SingleDayTotal(second);
  }
}
