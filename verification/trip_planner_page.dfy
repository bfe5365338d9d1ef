/**
 * The trip planner page's demo generator (app/trip-planner/page.tsx): the
 * number of days it reads from the form, the sample itinerary it builds for
 * them, and the rule that enables the Generate button. The two-second delay
 * and the React state setters are plumbing and are not modelled.
 */
module TripPlannerPage {
  import opened Js
  import opened Itinerary

  datatype FormData = FormData(destination: string, duration: string, budget: string,
                               travelers: string, preferences: string)

  /** `parseInt(formData.duration) || 3`: NaN and 0 become 3; any other value is kept. */
  function DayCount(duration: string): (r: Number)
    ensures TruthyNumber(r)
    ensures r == Int(3) || r == ParseInt(duration)
    ensures TruthyNumber(ParseInt(duration)) ==> r == ParseInt(duration)
  {
    var parsed := ParseInt(duration);
    if TruthyNumber(parsed) then parsed else Int(3)
  }

  /** The five activities of day `dayNumber` at `destination`: only the first one's
      text depends on them. */
  function DemoActivities(dayNumber: nat, destination: string): seq<Activity> {
    [MorningExploration(dayNumber, destination)] + LaterDemoActivities
  }

  function MorningExploration(dayNumber: nat, destination: string): Activity {
    Activity("9:00 AM", "Morning Exploration",
             MorningLead + NatToString(dayNumber) + MorningTail + destination,
             "City Center", 30)
  }

  const MorningLead := "Start your day "
  const MorningTail := " exploring the local culture and main attractions in "

  const LaterDemoActivities: seq<Activity> := [
    Activity("12:30 PM", "Local Cuisine Lunch",
             "Enjoy authentic local dishes at a highly-rated restaurant", "Restaurant District", 25),
    Activity("2:30 PM", "Afternoon Sightseeing",
             "Visit museums, galleries, or take a guided tour of historical sites", "Main Attractions", 40),
    Activity("6:00 PM", "Sunset View",
             "Catch beautiful sunset views from a scenic viewpoint", "Viewpoint", 10),
    Activity("8:00 PM", "Dinner & Evening Activities",
             "Experience the nightlife and local dining scene", "Entertainment District", 35)
  ]

  /** The array built once its length is known: entry i is day i + 1. */
  function SampleItinerary(length: nat, destination: string): (r: seq<ItineraryDay>)
    ensures |r| == length && NumberedFromOne(r)
  {
    seq(length, i requires 0 <= i < length => ItineraryDay(i + 1, DemoActivities(i + 1, destination)))
  }

  /** The itinerary shown after `handleGenerate`: the sample one, or the previous one when
      `Array.from` throws (the error is caught and `setItinerary` is never reached). */
  function HandleGenerate(current: seq<ItineraryDay>, form: FormData): (r: seq<ItineraryDay>)
    ensures ToLength(DayCount(form.duration)) <= MaxArrayLength ==>
      |r| == ToLength(DayCount(form.duration)) && NumberedFromOne(r)
    ensures ToLength(DayCount(form.duration)) > MaxArrayLength ==> r == current
  {
    match ArrayFromLength(DayCount(form.duration))
    case Some(length) => SampleItinerary(length, form.destination)
    case None => current
  }

  /** The Generate button's `disabled` expression. */
  predicate GenerateDisabled(loading: bool, form: FormData) {
    loading || form.destination == "" || form.duration == ""
  }

  // ---------------------------------------------------------------------------
  // Properties
  // ---------------------------------------------------------------------------

  /** Every day has five activities at 9:00 AM, 12:30 PM, 2:30 PM, 6:00 PM and 8:00 PM
      costing 30, 25, 40, 10 and 35: 140 a day. */
  lemma DemoDayShape(dayNumber: nat, destination: string)
    ensures |DemoActivities(dayNumber, destination)| == 5
    ensures Chronological(DemoActivities(dayNumber, destination))
    ensures DailyCost(DemoActivities(dayNumber, destination)) == 140
  {
    DemoDayTimes(dayNumber, destination);
    var a := DemoActivities(dayNumber, destination);
    assert a[4..][1..] == [] && DailyCost(a[4..]) == 35;
    assert a[3..][1..] == a[4..] && DailyCost(a[3..]) == 45;
    assert a[2..][1..] == a[3..] && DailyCost(a[2..]) == 85;
    assert a[1..][1..] == a[2..] && DailyCost(a[1..]) == 110;
  }

  lemma DemoDayTimes(dayNumber: nat, destination: string)
    ensures Chronological(DemoActivities(dayNumber, destination))
  {
    var a := DemoActivities(dayNumber, destination);
    DemoClockReadings();
    assert [a[0].time, a[1].time, a[2].time, a[3].time, a[4].time]
        == ["9:00 AM", "12:30 PM", "2:30 PM", "6:00 PM", "8:00 PM"];
    ChronologicalByMinutes(a, [540, 750, 870, 1080, 1200]);
  }

  lemma DemoClockReadings()
    ensures ClockMinutes("9:00 AM") == Some(540)
    ensures ClockMinutes("12:30 PM") == Some(750)
    ensures ClockMinutes("2:30 PM") == Some(870)
    ensures ClockMinutes("6:00 PM") == Some(1080)
    ensures ClockMinutes("8:00 PM") == Some(1200)
  {
  }

  /** The first activity names the day number and the destination. */
  lemma FirstActivityNamesDayAndPlace(dayNumber: nat, destination: string)
    ensures Includes(DemoActivities(dayNumber, destination)[0].description, NatToString(dayNumber))
    ensures Includes(DemoActivities(dayNumber, destination)[0].description, destination)
  {
    IncludesSecondAndFourth(MorningLead, NatToString(dayNumber), MorningTail, destination);
  }

  /** `length` entries; entry i is day i + 1 with that day's activities. */
  lemma SampleItineraryShape(length: nat, destination: string)
    ensures |SampleItinerary(length, destination)| == length
    ensures NumberedFromOne(SampleItinerary(length, destination))
    ensures forall i :: 0 <= i < length ==>
      && |SampleItinerary(length, destination)[i].activities| == 5
      && DailyCost(SampleItinerary(length, destination)[i].activities) == 140
      && Includes(SampleItinerary(length, destination)[i].activities[0].description, NatToString(i + 1))
      && Includes(SampleItinerary(length, destination)[i].activities[0].description, destination)
  {
    var s := SampleItinerary(length, destination);
    forall i | 0 <= i < length
      ensures |s[i].activities| == 5
      ensures DailyCost(s[i].activities) == 140
      ensures Includes(s[i].activities[0].description, NatToString(i + 1))
      ensures Includes(s[i].activities[0].description, destination)
    {
      assert s[i].activities == DemoActivities(i + 1, destination);
      DemoDayShape(i + 1, destination);
      FirstActivityNamesDayAndPlace(i + 1, destination);
    }
  }

  /** The day count: a numeral `n >= 1` gives `n`; a negative one stays negative, so the
      itinerary is empty. */
  lemma DayCountOfNumeral(n: nat)
    requires n >= 1
    ensures DayCount(NatToString(n)) == Int(n)
    ensures ToLength(DayCount("-" + NatToString(n))) == 0
  {
    ParseIntOfNumeral(n);
    ParseIntOfNegativeNumeral(n);
  }

  /** An empty or zero duration, or one without a decimal digit ("five", "days"), gives 3 days. */
  lemma DayCountDefaultsToThree(duration: string)
    requires duration == "" || duration == "0" || forall i :: 0 <= i < |duration| ==> !('0' <= duration[i] <= '9')
    ensures DayCount(duration) == Int(3)
  {
    if duration == "0" {
      ParseIntOfNumeral(0);
    } else {
      NoDigitsIsNaN(duration);
    }
  }

  /** Generating with duration `n` (1 <= n <= the array limit) shows `n` days. */
  lemma GenerateRequestedDays(current: seq<ItineraryDay>, form: FormData, n: nat)
    requires 1 <= n <= MaxArrayLength && form.duration == NatToString(n)
    ensures HandleGenerate(current, form) == SampleItinerary(n, form.destination)
  {
    DayCountOfNumeral(n);
  }

  /** An empty duration gives 3 days. */
  lemma GenerateEmptyDuration(current: seq<ItineraryDay>, form: FormData)
    requires form.duration == ""
    ensures HandleGenerate(current, form) == SampleItinerary(3, form.destination)
  {
    DayCountDefaultsToThree("");
  }

  /** A duration too long for an array leaves the previous itinerary on screen. */
  lemma GenerateTooLong(current: seq<ItineraryDay>, form: FormData, n: nat)
    requires n > MaxArrayLength && form.duration == NatToString(n)
    ensures HandleGenerate(current, form) == current
  {
    DayCountOfNumeral(n);
  }

  /** Generate is enabled exactly when nothing is loading and both the destination and
      the duration are filled in. */
  lemma GenerateGuard(loading: bool, form: FormData)
    ensures !GenerateDisabled(loading, form) <==> !loading && |form.destination| > 0 && |form.duration| > 0
  {
  }
}
