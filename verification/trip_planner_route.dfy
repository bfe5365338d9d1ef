/**
 * The itinerary endpoint's decisions (app/api/trip-planner/route.ts): which
 * JSON text it takes out of the model's answer, and the fixed itinerary it
 * falls back to when there is none or anything throws. Building the prompt,
 * calling the model and parsing JSON are foreign; their outcomes are inputs.
 */
module TripPlannerRoute {
  import opened Js
  import opened Itinerary

  /** The four activities of every fallback day. */
  const FallbackActivities: seq<Activity> := [
    Activity("9:00 AM", "Morning Activity", "Start your day with local exploration", "City Center", 30),
    Activity("12:00 PM", "Lunch", "Try local cuisine", "Local Restaurant", 20),
    Activity("2:00 PM", "Afternoon Sightseeing", "Visit popular attractions", "Main Attractions", 40),
    Activity("7:00 PM", "Dinner", "Enjoy evening meal", "Restaurant District", 25)
  ]

  /** The array `generateFallbackItinerary` builds once its length is known. */
  function FallbackItinerary(length: nat): seq<ItineraryDay> {
    seq(length, i requires 0 <= i < length => ItineraryDay(i + 1, FallbackActivities))
  }

  /** `generateFallbackItinerary(days)`: None when `Array.from` throws a RangeError. */
  function GenerateFallbackItinerary(days: Number): (r: Option<seq<ItineraryDay>>)
    ensures r.Some? <==> ToLength(days) <= MaxArrayLength
    ensures r.Some? ==> |r.value| == ToLength(days) && NumberedFromOne(r.value)
  {
    match ArrayFromLength(days)
    case Some(length) => Some(FallbackItinerary(length))
    case None => None
  }

  /** `days` entries numbered from 1, each the same four activities at 9:00 AM, 12:00 PM,
      2:00 PM and 7:00 PM costing 30, 20, 40 and 25: 115 a day. */
  lemma FallbackItineraryShape(length: nat)
    ensures |FallbackItinerary(length)| == length
    ensures NumberedFromOne(FallbackItinerary(length))
    ensures forall i :: 0 <= i < length ==>
      && |FallbackItinerary(length)[i].activities| == 4
      && Chronological(FallbackItinerary(length)[i].activities)
      && DailyCost(FallbackItinerary(length)[i].activities) == 115
    ensures forall i, j :: 0 <= i < length && 0 <= j < length ==>
      FallbackItinerary(length)[i].activities == FallbackItinerary(length)[j].activities
  {
    FallbackDay();
  }

  lemma FallbackDay()
    ensures Chronological(FallbackActivities)
    ensures DailyCost(FallbackActivities) == 115
  {
    var a := FallbackActivities;
    FallbackClockReadings();
    assert [a[0].time, a[1].time, a[2].time, a[3].time] == ["9:00 AM", "12:00 PM", "2:00 PM", "7:00 PM"];
    ChronologicalByMinutes(a, [540, 720, 840, 1140]);
    assert a[3..][1..] == [] && DailyCost(a[3..]) == 25;
    assert a[2..][1..] == a[3..] && DailyCost(a[2..]) == 65;
    assert a[1..][1..] == a[2..] && DailyCost(a[1..]) == 85;
  }

  lemma FallbackClockReadings()
    ensures ClockMinutes("9:00 AM") == Some(540)
    ensures ClockMinutes("12:00 PM") == Some(720)
    ensures ClockMinutes("2:00 PM") == Some(840)
    ensures ClockMinutes("7:00 PM") == Some(1140)
  {
  }

  // ---------------------------------------------------------------------------
  // The JSON text in the model's answer: /\{[\s\S]*\}/
  // ---------------------------------------------------------------------------

  /** The greedy match runs from the first `{` to the last `}`; there is none unless some
      `}` comes after the first `{`. */
  function ExtractJson(content: string): (r: Option<string>)
    ensures r.Some? ==> |r.value| >= 2 && r.value[0] == '{' && r.value[|r.value| - 1] == '}'
  {
    match (IndexOf(content, '{'), LastIndexOf(content, '}'))
    case (Some(i), Some(j)) => if i < j then Some(content[i..j + 1]) else None
    case _ => None
  }

  function IndexOf(s: string, c: char): (r: Option<nat>)
    ensures r.Some? ==> r.value < |s| && s[r.value] == c && forall k :: 0 <= k < r.value ==> s[k] != c
    ensures r.None? ==> forall k :: 0 <= k < |s| ==> s[k] != c
  {
    if s == [] then None
    else if s[0] == c then Some(0)
    else match IndexOf(s[1..], c)
      case Some(k) => Some(k + 1)
      case None => None
  }

  function LastIndexOf(s: string, c: char): (r: Option<nat>)
    ensures r.Some? ==> r.value < |s| && s[r.value] == c && forall k :: r.value < k < |s| ==> s[k] != c
    ensures r.None? ==> forall k :: 0 <= k < |s| ==> s[k] != c
  {
    if s == [] then None
    else if s[|s| - 1] == c then Some(|s| - 1)
    else LastIndexOf(s[..|s| - 1], c)
  }

  /** `{` at i is the first `{`, `}` at j the last `}`, and i < j. */
  predicate FirstOpenLastClose(content: string, i: int, j: int) {
    && 0 <= i < j < |content| && content[i] == '{' && content[j] == '}'
    && (forall k :: 0 <= k < i ==> content[k] != '{')
    && (forall k :: j < k < |content| ==> content[k] != '}')
  }

  /** A match exists iff some `}` follows some `{`; it then starts at the first `{`,
      ends at the last `}`, and contains the whole answer between them. */
  lemma ExtractJsonMeaning(content: string)
    ensures ExtractJson(content).Some? <==>
      exists i, j :: 0 <= i < j < |content| && content[i] == '{' && content[j] == '}'
    ensures ExtractJson(content).Some? ==>
      exists i, j :: FirstOpenLastClose(content, i, j) && ExtractJson(content).value == content[i..j + 1]
  {
    if exists i, j :: 0 <= i < j < |content| && content[i] == '{' && content[j] == '}' {
      var i, j :| 0 <= i < j < |content| && content[i] == '{' && content[j] == '}';
      var first := IndexOf(content, '{');
      var last := LastIndexOf(content, '}');
      assert first.Some? && first.value <= i;
      assert last.Some? && last.value >= j;
      assert FirstOpenLastClose(content, first.value, last.value);
    }
  }

  // ---------------------------------------------------------------------------
  // The handler's answer
  // ---------------------------------------------------------------------------

  /** What the handler's `try` block got to: the model's text, or an exception thrown by
      reading the request or calling the model. */
  datatype ModelOutcome = Answered(content: string) | Threw

  datatype PlannerResponse = ParsedJson(json: string) | FallbackResponse(itinerary: seq<ItineraryDay>)

  /** `POST`: the extracted JSON when it parses; with no JSON in the answer, a fallback of
      `parseInt(duration)` days; on any exception (including a JSON text that does not parse
      and a RangeError from `Array.from`), a 3-day fallback. */
  function Respond(outcome: ModelOutcome, duration: string, parses: string -> bool): (r: PlannerResponse)
    ensures r.ParsedJson? ==> outcome.Answered? && ExtractJson(outcome.content) == Some(r.json) && parses(r.json)
    ensures r.FallbackResponse? ==> NumberedFromOne(r.itinerary)
  {
    match outcome
    case Threw => FallbackResponse(FallbackItinerary(3))
    case Answered(content) =>
      match ExtractJson(content)
      case Some(json) =>
        if parses(json) then ParsedJson(json) else FallbackResponse(FallbackItinerary(3))
      case None =>
        match GenerateFallbackItinerary(ParseInt(duration))
        case Some(days) => FallbackResponse(days)
        case None => FallbackResponse(FallbackItinerary(3))
  }

  /** Failures give the 3-day fallback. */
  lemma FailuresGiveThreeDays(outcome: ModelOutcome, duration: string, parses: string -> bool)
    requires outcome.Threw? || (ExtractJson(outcome.content).Some? && !parses(ExtractJson(outcome.content).value))
    ensures Respond(outcome, duration, parses) == FallbackResponse(FallbackItinerary(3))
    ensures |Respond(outcome, duration, parses).itinerary| == 3
  {
  }

  /** An answer without JSON and a numeric duration `n` give an `n`-day fallback. */
  lemma NoJsonGivesRequestedDays(content: string, n: nat, parses: string -> bool)
    requires ExtractJson(content).None?
    requires n <= MaxArrayLength
    ensures Respond(Answered(content), NatToString(n), parses) == FallbackResponse(FallbackItinerary(n))
  {
    ParseIntOfNumeral(n);
  }

  /** A duration without a decimal digit (empty, "five"), or a negative one, gives an empty fallback. */
  lemma UnreadableDurationGivesNoDays(content: string, duration: string, n: nat, parses: string -> bool)
    requires ExtractJson(content).None?
    requires forall i :: 0 <= i < |duration| ==> !('0' <= duration[i] <= '9')
    ensures Respond(Answered(content), duration, parses) == FallbackResponse([])
    ensures Respond(Answered(content), "-" + NatToString(n), parses) == FallbackResponse([])
  {
    NoDigitsIsNaN(duration);
    assert ArrayFromLength(NaN) == Some(0);
    assert FallbackItinerary(0) == [];
    assert GenerateFallbackItinerary(ParseInt(duration)) == Some([]);
    NegativeDurationGivesNoDays(n);
  }

  lemma NegativeDurationGivesNoDays(n: nat)
    ensures GenerateFallbackItinerary(ParseInt("-" + NatToString(n))) == Some([])
  {
    ParseIntOfNegativeNumeral(n);
    assert ArrayFromLength(Int(-(n as int))) == Some(0);
    assert FallbackItinerary(0) == [];
  }

  /** A parsable JSON text in the answer is returned as is. */
  lemma JsonAnswerPassedOn(content: string, duration: string, parses: string -> bool)
    requires ExtractJson(content).Some? && parses(ExtractJson(content).value)
    ensures Respond(Answered(content), duration, parses) == ParsedJson(ExtractJson(content).value)
  {
  }

  /** A duration too long for an array makes `Array.from` throw; the handler's catch gives 3 days. */
  lemma TooLongDurationGivesThreeDays(content: string, n: nat, parses: string -> bool)
    requires ExtractJson(content).None?
    requires n > MaxArrayLength
    ensures Respond(Answered(content), NatToString(n), parses) == FallbackResponse(FallbackItinerary(3))
  {
    ParseIntOfNumeral(n);
  }
}
