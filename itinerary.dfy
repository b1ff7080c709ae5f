/**
 The itinerary document held by the travel planner's App component: a trip
 with a title, a description, a date range and an ordered list of days, each
 holding an ordered list of activities.
 */
module Itinerary {

  datatype Option<T> = None | Some(value: T)

  /** A cost as the editor stores it: a number, the empty string (no cost
      recorded), or text that does not read as a number. */
  datatype Cost = Num(amount: int) | Empty | NonNumeric(text: string)

  /** The four categories offered by the activity type selector. */
  datatype Kind = Spot | Food | Transport | Stay

  datatype Activity = Activity(
    id: int,
    time: string,
    location: string,
    kind: Kind,
    note: string,
    cost: Cost)

  datatype Day = Day(id: int, activities: seq<Activity>)

  datatype Itinerary = Itinerary(
    title: string,
    description: string,
    startDate: string,
    endDate: string,
    days: seq<Day>)

  /** One field write of updateActivity: the field name and the value written,
      stored as given (no coercion at write time). */
  datatype Edit =
    | SetTime(time: string)
    | SetLocation(location: string)
    | SetKind(kind: Kind)
    | SetNote(note: string)
    | SetCost(cost: Cost)

  /** `Number(cost) || 0`: a number counts as itself, anything else as 0. */
  function Coerce(c: Cost): (n: int)
    ensures c.Num? ==> n == c.amount
    ensures !c.Num? ==> n == 0
  {
    match c
    case Num(n) => n
    case Empty => 0
    case NonNumeric(_) => 0
  }

  /** The activity addActivity creates: the given id, noon, no location,
      a sight-seeing spot, no note, and no cost recorded (which is not the
      same as a zero cost, but counts as 0). */
  function NewActivity(id: int): (a: Activity)
    ensures a.id == id && a.time == "12:00" && a.kind == Spot
    ensures a.location == [] && a.note == []
    ensures a.cost == Empty && Coerce(a.cost) == 0
  {
    Activity(id, "12:00", "", Spot, "", Empty)
  }

  /** The activity with the one field named by `e` overwritten: that field
      gets exactly the value given (a cost is not coerced when written), and
      the id and every other field keep their values. */
  function ApplyEdit(a: Activity, e: Edit): (b: Activity)
    ensures b.id == a.id
    ensures if e.SetTime? then b.time == e.time else b.time == a.time
    ensures if e.SetLocation? then b.location == e.location else b.location == a.location
    ensures if e.SetKind? then b.kind == e.kind else b.kind == a.kind
    ensures if e.SetNote? then b.note == e.note else b.note == a.note
    ensures if e.SetCost? then b.cost == e.cost else b.cost == a.cost
  {
    match e
    case SetTime(t) => a.(time := t)
    case SetLocation(l) => a.(location := l)
    case SetKind(k) => a.(kind := k)
    case SetNote(n) => a.(note := n)
    case SetCost(c) => a.(cost := c)
  }

  /** The trip the editor starts with: one day of three activities with
      distinct ids, two of them with a numeric cost and one with none. */
  function Seed(): (it: Itinerary)
    ensures |it.days| == 1 && |it.days[0].activities| == 3
    ensures UniqueIds(it.days[0].activities)
    ensures it.days[0].activities[0].cost == Num(12000)
    ensures it.days[0].activities[1].cost == Num(800)
    ensures it.days[0].activities[2].cost == Empty
  {
    Itinerary(
      "我的東京櫻花祭之旅",
      "期待已久的春季賞櫻行程，包含築地市場與新宿御苑。",
      "2024-03-25",
      "2024-03-29",
      [Day(1, [
        Activity(1, "09:00", "桃園國際機場", Transport, "搭乘 BR198 航班", Num(12000)),
        Activity(2, "14:30", "成田機場", Transport, "購買 Skyliner 套票", Num(800)),
        Activity(3, "16:00", "上野 Candeo Hotel", Stay, "辦理入住", Empty)
      ])])
  }

  /** No two activities of the list share an id. */
  predicate UniqueIds(acts: seq<Activity>) {
    forall i, j :: 0 <= i < j < |acts| ==> acts[i].id != acts[j].id
  }

  predicate HasId(acts: seq<Activity>, id: int) {
    exists k :: 0 <= k < |acts| && acts[k].id == id
  }
}
