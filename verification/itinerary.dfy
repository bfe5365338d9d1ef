/**
 * The itinerary shape both trip planners produce (`ItineraryDay` in
 * app/trip-planner/page.tsx, the same shape in app/api/trip-planner/route.ts),
 * with the measures the generators are judged by: a day's total cost, clock
 * times read as minutes after midnight, and day numbering.
 */
module Itinerary {
  import opened Js

  datatype Activity = Activity(time: string, title: string, description: string, location: string, cost: int)

  datatype ItineraryDay = ItineraryDay(day: int, activities: seq<Activity>)

  /** The sum of the activities' costs. */
  function DailyCost(activities: seq<Activity>): int {
    if activities == [] then 0 else activities[0].cost + DailyCost(activities[1..])
  }

  /** Minutes after midnight of a 12-hour clock time written "H:MM AM" or "HH:MM PM". */
  function ClockMinutes(t: string): Option<int> {
    var h := |t| - 6;
    if (h == 1 || h == 2) && t[h] == ':' && t[h + 3] == ' ' && t[h + 5] == 'M'
       && (t[h + 4] == 'A' || t[h + 4] == 'P')
       && IsDigitIn(t[h - 1], 10) && IsDigitIn(t[h + 1], 10) && IsDigitIn(t[h + 2], 10)
       && (h == 1 || IsDigitIn(t[0], 10))
    then
      var hours := (if h == 2 then DigitValue(t[0]) * 10 else 0) + DigitValue(t[h - 1]);
      var minutes := DigitValue(t[h + 1]) * 10 + DigitValue(t[h + 2]);
      Some(hours % 12 * 60 + minutes + (if t[h + 4] == 'P' then 720 else 0))
    else None
  }

  /** Every activity's time reads as a clock time, and the times strictly increase. */
  predicate Chronological(activities: seq<Activity>) {
    && (forall i :: 0 <= i < |activities| ==> ClockMinutes(activities[i].time).Some?)
    && (forall i :: 0 < i < |activities| ==>
          ClockMinutes(activities[i - 1].time).value < ClockMinutes(activities[i].time).value)
  }

  /** Times that read as strictly increasing minutes are chronological. */
  lemma ChronologicalByMinutes(activities: seq<Activity>, minutes: seq<int>)
    requires |activities| == |minutes|
    requires forall i :: 0 <= i < |activities| ==> ClockMinutes(activities[i].time) == Some(minutes[i])
    requires forall i :: 0 < i < |minutes| ==> minutes[i - 1] < minutes[i]
    ensures Chronological(activities)
  {
  }

  /** Entry i is day i + 1. */
  predicate NumberedFromOne(days: seq<ItineraryDay>) {
    forall i :: 0 <= i < |days| ==> days[i].day == i + 1
  }
}
