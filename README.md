# Travel itinerary editor: the App state

A Dafny model of the state kept by the `App` component of a single-page trip
planner. The state has two parts:

- The **itinerary document**: a title, a description, a start date, an end
  date, and an ordered list of days. Each day holds an ordered list of
  activities. An activity has an id, a time, a location, a type (spot, food,
  transport or stay), a note and a cost.
- The **active day**: the index of the day whose activities the editor lists.

The operations are adding a day, deleting a day, adding an activity, updating
one field of an activity, selecting a day and editing the title. The model
also covers what is derived from the state: `totalCost`, and the summary view
(a placeholder for an empty location, and costs shown only when above zero).

Modules:

- `Itinerary` (itinerary.dfy): the document as datatypes, the seeded trip,
  the default new activity, cost coercion (`Number(cost) || 0`) and
  single-field edits.
- `Days` (days.dfy): the edits to the list of days as functions from the old
  list to the new one, with lemmas about what they change and what they keep.
- `Costs` (costs.dfy): `totalCost` as the nested left fold the source
  computes, a reference sum over all activities, and how each operation moves
  the total.
- `Summary` (summary.dfy): the summary view's display rules.
- `App` (store.dfy): the class `Store` holding the itinerary and the active
  day. Its methods are the operations, each one atomic state step. `Valid()`
  says there is at least one day and that the active day names one. Every
  method keeps `Valid()`.

Ids come from the wall clock in the source. Here each operation that creates a
day or an activity takes the fresh id as a parameter. The model assumes ids
are unique only where a lemma says so in its `requires` clause.
`Days.DuplicateIdEditsFirstOnly` shows what happens when two ids collide.

In these places the model follows the code where a reader might expect otherwise:

- After a successful `deleteDay`, the active day goes back to 0
  (src/main.jsx:85). It is not moved to the neighbouring index.
- There is no operation that deletes an activity.
- `addActivity` and `updateActivity` index the day list without a check
  (src/main.jsx:91, 97), so a day index that names no day is a precondition
  here and not a no-op.
- A negative cost is hidden in the summary (`cost > 0`) but still lowers
  `totalCost`. It does not count as 0 (`Summary.NegativeCostHiddenButCounted`).
- Only the title can be edited (src/main.jsx:144). The description and the
  dates keep their seeded values.

## Model

| member | source | states |
|---|---|---|
| Itinerary.Coerce | src/main.jsx:105 | a numeric cost counts as its amount; an empty or non-numeric cost counts as 0 |
| Itinerary.NewActivity | src/main.jsx:89 | the new activity has the given id, time 12:00, an empty location, type spot, an empty note and an empty cost, which counts as 0 |
| Itinerary.ApplyEdit | src/main.jsx:99 | the named field gets exactly the value written (a cost is not coerced); the id and every other field keep their values |
| Itinerary.Seed | src/main.jsx:26-41 | the seeded trip has one day of three activities with distinct ids, costing 12000, 800 and nothing |
| Days.WithoutIndex | src/main.jsx:83 | the filter keeps every day except the one at `index`, in order; an index that names no day removes nothing |
| Days.AfterDelete | src/main.jsx:81-83 | with one day left, deleting changes nothing; otherwise exactly the day at `index` goes, the days before it keep their positions and the days after it move up by one; the result always has at least one day |
| Days.DeleteAll | src/main.jsx:81-83 | after any run of deletes, a non-empty list of days is still non-empty and no longer than before |
| Days.FindIndex | src/main.jsx:97 | the result is -1 exactly when no activity has the id; otherwise it is the position of the first activity with that id |
| Days.WithActivity | src/main.jsx:88-92 | the new activity goes at the end of the chosen day, with no re-sorting; earlier activities, the day's id and all other days are unchanged |
| Days.WithEdit | src/main.jsx:95-101 | an id that no activity of the day carries leaves every day unchanged; otherwise only the first activity with that id is replaced by `ApplyEdit` of it, and the other activities, the day's id and the other days are unchanged |
| Days.AddThenDeleteRestores | src/main.jsx:75-86 | deleting the day addDay just appended gives back the previous list of days |
| Days.AddActivityKeepsIdsUnique | src/main.jsx:89-91 | if the fresh id is not already in the day, the day's ids stay unique and the new id is present |
| Days.EditWithUniqueIds | src/main.jsx:97-99 | when the day's ids are unique, the edit changes exactly the activity with that id and the ids stay unique |
| Days.DuplicateIdEditsFirstOnly | src/main.jsx:89-99 | two activities created with the same clock reading share an id, and an edit aimed at that id rewrites only the first one |
| Costs.DayTotal | src/main.jsx:105 | the per-day reduce equals `SumOfCosts`, the plain sum of the coerced costs of the day's activities |
| Costs.TotalCost | src/main.jsx:104-106 | totalCost equals `SumOfCosts(AllActivities(days))`, the sum of the coerced cost of every activity of the trip; empty and non-numeric costs contribute 0 |
| Costs.TotalAfterAddDay | src/main.jsx:77 | appending an empty day leaves totalCost unchanged |
| Costs.TotalAfterDelete | src/main.jsx:81-83 | a delete that removes a day lowers totalCost by exactly that day's total; a refused or out-of-range delete leaves it unchanged |
| Costs.TotalAfterAddActivity | src/main.jsx:89-91 | a new activity (empty cost) leaves totalCost unchanged |
| Costs.TotalAfterEdit | src/main.jsx:95-101 | only a cost edit that finds its activity changes totalCost, by the new coerced cost minus the old one |
| Costs.SeedTotals | src/main.jsx:31-41 | the seeded trip (12000, 800, '') totals 12800; adding a day with costs 500 and '' brings the total to 13300 |
| Summary.LocationLabel | src/main.jsx:205 | an empty location is shown as '未命名地點'; any other location is shown as it is; the label is never empty |
| Summary.ShownCost | src/main.jsx:208 | a cost is shown exactly when its numeric value is above zero, and then that value is shown |
| Summary.DaySummary | src/main.jsx:199-211 | a day's summary has one entry per activity, in order, each built from that activity |
| Summary.TripSummary | src/main.jsx:192-214 | the summary has one list of entries per day, in order |
| Summary.DayShownCoversTotal | src/main.jsx:208 | the costs a day's summary shows add up to at least the day's total, and exactly to it when no cost is negative |
| Summary.TripShownCoversTotal | src/main.jsx:192-214 | the costs the whole summary shows add up to at least totalCost, and exactly to it when no cost is negative |
| Summary.NegativeCostHiddenButCounted | src/main.jsx:208 | a cost of -5 is hidden in the summary but contributes -5 to the day total |
| App.Store.constructor | src/main.jsx:26-43 | the session starts with the seeded trip and day 0 active |
| App.Store.SetTitle | src/main.jsx:144 | only the title changes |
| App.Store.SelectDay | src/main.jsx:151-157 | the selected existing day becomes active; the itinerary is unchanged |
| App.Store.AddDay | src/main.jsx:75-79 | an empty day with the fresh id is appended, and the active day becomes the old day count, the new last index |
| App.Store.DeleteDay | src/main.jsx:81-86 | days become `AfterDelete` of the old days; the active day becomes 0 after a delete that was not refused, and is unchanged after a refused one; the active day always names a day |
| App.Store.AddActivity | src/main.jsx:88-93 | the chosen day gets the default activity appended (`WithActivity`); the active day is unchanged |
| App.Store.UpdateActivity | src/main.jsx:95-102 | days become `WithEdit` of the old days: the first activity with the id has its field overwritten, and nothing changes for an unknown id |
| App.Store.ActiveActivities | src/main.jsx:167 | the activities listed are those of the active day; the dereference is always defined because `Valid()` holds |

## Left out

- Loading html2canvas and `downloadAsImage` (src/main.jsx:45-73): DOM and network I/O, timers and a foreign library. The file name is the title followed by ".png".
- The `isViewMode` and `isDownloading` flags: two-state UI toggles with no invariant on the itinerary.
- JSX markup, styling, icons and `toLocaleString` formatting of costs: presentation only.
- Number parsing: a cost is abstracted as an integer, the empty string, or non-numeric text. Fractional amounts and IEEE floating point (`NaN`, rounding) are not modelled.
- `Date.now()`: new ids are parameters. Nothing in the model generates them, so uniqueness is assumed in lemmas and is not proved of the code.
- Aliasing: `addActivity` and `updateActivity` copy only the outer day list and then push onto, or assign into, the nested activity list and activity objects shared with the previous state. The model tracks only the current state as values, so the in-place change to the previous snapshot is not captured.
- React's batched and asynchronous `setState`, and stale closures: each operation is one atomic step on the latest state.
- `updateActivity` with a field name other than the five activity fields (the code would add a new property, or overwrite the id): the editor only passes time, location, type and cost.
- vite.config.js and tailwind.config.js: build and styling configuration with no logic.
