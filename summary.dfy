/**
 The read-only summary view: every day in order, every activity in order,
 with its time, a location label, its note, and its cost only when that cost
 is above zero.
 */
module Summary {
  import opened Itinerary
  import opened Costs

  /** Shown in place of an empty location. */
  const Placeholder: string := "未命名地點"

  /** `location || '未命名地點'`. */
  function LocationLabel(location: string): (text: string)
    ensures text != []
    ensures location != [] ==> text == location
    ensures location == [] ==> text == Placeholder
  {
    if location == "" then Placeholder else location
  }

  /** `cost > 0 && Number(cost)`: a cost is shown only when its numeric
      value is above zero, and then it is that value. */
  function ShownCost(c: Cost): (shown: Option<int>)
    ensures shown.Some? <==> Coerce(c) > 0
    ensures shown.Some? ==> shown.value == Coerce(c)
  {
    match c
    case Num(n) => if n > 0 then Some(n) else None
    case Empty => None
    case NonNumeric(_) => None
  }

  datatype Entry = Entry(time: string, place: string, note: string, shown: Option<int>)

  function EntryOf(a: Activity): (entry: Entry) {
    Entry(a.time, LocationLabel(a.location), a.note, ShownCost(a.cost))
  }

  function DaySummary(acts: seq<Activity>): (entries: seq<Entry>)
    ensures |entries| == |acts|
    ensures forall k :: 0 <= k < |acts| ==> entries[k] == EntryOf(acts[k])
  {
    if acts == [] then [] else [EntryOf(acts[0])] + DaySummary(acts[1..])
  }

  /** The summary of the whole trip, one list of entries per day. */
  function TripSummary(days: seq<Day>): (s: seq<seq<Entry>>)
    ensures |s| == |days|
    ensures forall i :: 0 <= i < |days| ==> s[i] == DaySummary(days[i].activities)
  {
    if days == [] then [] else [DaySummary(days[0].activities)] + TripSummary(days[1..])
  }

  /** The sum of the costs a list of entries shows. */
  function ShownSum(entries: seq<Entry>): (sum: int) {
    if entries == [] then 0
    else (if entries[0].shown.Some? then entries[0].shown.value else 0) + ShownSum(entries[1..])
  }

  function TripShownSum(summary: seq<seq<Entry>>): (sum: int) {
    if summary == [] then 0 else ShownSum(summary[0]) + TripShownSum(summary[1..])
  }

  predicate NoNegativeCost(acts: seq<Activity>) {
    forall k :: 0 <= k < |acts| ==> Coerce(acts[k].cost) >= 0
  }

  predicate TripHasNoNegativeCost(days: seq<Day>) {
    forall i :: 0 <= i < |days| ==> NoNegativeCost(days[i].activities)
  }

  lemma {:induction false} ShownSumCoversSum(acts: seq<Activity>)
    ensures ShownSum(DaySummary(acts)) >= SumOfCosts(acts)
    ensures NoNegativeCost(acts) ==> ShownSum(DaySummary(acts)) == SumOfCosts(acts)
    decreases |acts|
  {
    if acts != [] {
      assert DaySummary(acts)[1..] == DaySummary(acts[1..]);
      ShownSumCoversSum(acts[1..]);
      if NoNegativeCost(acts) {
        assert NoNegativeCost(acts[1..]) by {
          forall k | 0 <= k < |acts[1..]| ensures Coerce(acts[1..][k].cost) >= 0 {
            assert acts[1..][k] == acts[k + 1];
          }
        }
        assert Coerce(acts[0].cost) >= 0;
      }
    }
  }

  /** The costs a day's summary shows add up to at least the day's total,
      and to exactly the total when no cost is negative: a zero or empty
      cost that is hidden contributed nothing to the total, while a negative
      cost is hidden yet still lowers the total. */
  lemma DayShownCoversTotal(acts: seq<Activity>)
    ensures ShownSum(DaySummary(acts)) >= DayTotal(acts)
    ensures NoNegativeCost(acts) ==> ShownSum(DaySummary(acts)) == DayTotal(acts)
  {
    ShownSumCoversSum(acts);
  }

  /** The same over the whole trip, against totalCost. */
  lemma {:induction false} TripShownCoversTotal(days: seq<Day>)
    ensures TripShownSum(TripSummary(days)) >= TotalCost(days)
    ensures TripHasNoNegativeCost(days) ==> TripShownSum(TripSummary(days)) == TotalCost(days)
    decreases |days|
  {
    if days != [] {
      var rest := days[1..];
      TripShownSumUnfold(days);
      TotalCostFirstDay(days);
      TripShownCoversTotal(rest);
      DayShownCoversTotal(days[0].activities);
      if TripHasNoNegativeCost(days) {
        NoNegativeCostSplits(days);
      }
    }
  }

  lemma TripShownSumUnfold(days: seq<Day>)
    requires days != []
    ensures TripShownSum(TripSummary(days))
              == ShownSum(DaySummary(days[0].activities)) + TripShownSum(TripSummary(days[1..]))
  {
    assert TripSummary(days)[1..] == TripSummary(days[1..]);
  }

  lemma TotalCostFirstDay(days: seq<Day>)
    requires days != []
    ensures TotalCost(days) == DayTotal(days[0].activities) + TotalCost(days[1..])
  {
    assert days == [days[0]] + days[1..];
    TotalCostAppend([days[0]], days[1..]);
    SingleDayTotal(days[0]);
  }

  lemma NoNegativeCostSplits(days: seq<Day>)
    requires days != [] && TripHasNoNegativeCost(days)
    ensures NoNegativeCost(days[0].activities) && TripHasNoNegativeCost(days[1..])
  {
    var rest := days[1..];
    forall i | 0 <= i < |rest| ensures NoNegativeCost(rest[i].activities) {
      assert rest[i] == days[i + 1];
    }
  }

  /** A negative cost is left out of the summary but still counts in
      totalCost. */
  lemma NegativeCostHiddenButCounted()
    ensures var acts := [NewActivity(1).(cost := Num(-5))];
      && DaySummary(acts)[0].shown == None
      && DayTotal(acts) == -5
  {
  }
}
