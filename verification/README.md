# GHUMO travel app: a Dafny model of its request handling and page logic

GHUMO is a Next.js travel-planning app. This project models the parts of it that make
decisions, and proves what those decisions guarantee:

- **The rate limiter** (`lib/rate-limit.ts`). A module-level store maps each identifier to a
  window `{count, resetTime}`. A check reuses the identifier's window, or opens one ending
  `interval` ms from now. It rolls the window over when the clock is strictly past its end,
  counts the request, and reports `success`, `limit`, `remaining` and `reset`. A periodic
  sweep deletes windows that ended before the sweep.
  - `RateLimit.Window` is the mutable window object.
  - `RateLimit.RateLimiter` owns the store as a `map<string, Window>`. It has the
    `RateLimit` and `Cleanup` methods.
  - Both methods are proved against value-level specification functions (`Consumed`,
    `Verdict`, `AfterCheck`, `Expire`). The properties of those functions are proved as
    lemmas: the per-window quota, independence of identifiers, and the invisibility of the
    sweep.
- **The route guard** (`middleware.ts`). Its matcher decides which paths reach it. It lets
  everything through in demo mode, or when the session lookup throws. Otherwise:
  - a protected page without a session is redirected to `/auth/login?redirectTo=<path>`;
  - a login or sign-up page with a session is redirected to `/dashboard`.

  The redirect URL is a clone of the request URL that is then changed. This is modelled
  with a small `NextUrl` class and `URLSearchParams.set`.
- **The chat endpoint** (`app/api/chat/route.ts`). It first counts the request against the
  limiter under the chat policy of 20 per minute, and answers 429 with headers if the
  request is denied. Then it:
  - validates `messages` (400);
  - answers a canned greeting when there is no API key;
  - hands the model a history (every message but the last, roles renamed) and a prompt
    (the last message, with the system prompt in front when it is the only one);
  - classifies exceptions by their message: "quota" gives 429, "invalid" gives 500, and
    anything else a 200 fallback.
- **The itinerary endpoint** (`app/api/trip-planner/route.ts`). It takes the greedy
  `{…}` match out of the model's answer. With no match it falls back to a fixed
  itinerary of `parseInt(duration)` days. On any exception it falls back to 3 days.
- **The trip planner page** (`app/trip-planner/page.tsx`). It builds a demo itinerary of
  `parseInt(duration) || 3` days. The Generate button is enabled only with a destination
  and a duration.
- **The explore page** (`app/explore/page.tsx`). Its catalogue is filtered by a
  case-insensitive search on name or country and by category.
- **The onboarding wizard** (`app/onboarding/page.tsx`). It is modelled as a state machine
  over the page's React state. Steps are gated by their Continue buttons, interests are
  toggled, and the simulated save ends on the dashboard.

The JavaScript semantics these depend on are modelled in module `Js`:
- `parseInt` (whitespace, sign, `0x` prefix, digit prefix, NaN);
- `||` truthiness;
- `String.prototype.includes` and `startsWith`;
- ASCII `toLowerCase`;
- the length rule of `Array.from({length})`, including the RangeError above 2^32 − 1.

The shared itinerary shape and its measures are in module `Itinerary`: the daily cost,
clock times read as minutes, and numbering from one.

Two details of the rate limiter worth knowing:
- A window rolls over only when `now > resetTime` (lib/rate-limit.ts:28). A check at
  exactly `resetTime` still counts against the old window (`RateLimit.Scenario`).
- The limiter's default rule is 10 requests per minute (lib/rate-limit.ts:20-23). The chat
  endpoint passes its own rule of 20 per minute (app/api/chat/route.ts:11-14).

Behaviour worth knowing that the proofs make explicit:
- The Back button stays enabled while the onboarding save is pending. A user can go back
  to step 1 and clear the name, and the timer still navigates to the dashboard
  (`Onboarding.BackDuringSave`).
- The guard's route tests are by prefix, so `/chatroom` passes the protection test
  (`Middleware.ProtectedByPrefix`). Which paths reach the guard is decided separately by
  the matcher (middleware.ts:54-64). It sends only `/chat` and the paths below it, so
  `/chatroom` is never redirected (`Middleware.ChatroomNotGuarded`). Likewise, it sends
  only the login and sign-up pages themselves (`Middleware.AuthSubPagesNotGuarded`).
- A negative trip duration gives an empty itinerary, not the 3-day default.

## Model

| member | source | states |
|---|---|---|
| RateLimit.Advanced | lib/rate-limit.ts:28-34 | a window not yet past its end gains one request and keeps its end; a window strictly past its end restarts as `{1, now + interval}` |
| RateLimit.Consumed | lib/rate-limit.ts:26-34 | the window a check leaves: the stored window, or a fresh `{0, now + interval}` one, advanced (its cases are stated by `RateLimit.CheckUpdatesWindow`) |
| RateLimit.Verdict | lib/rate-limit.ts:37-45 | admitted iff the count is within the limit; `remaining` is never negative and positive only when admitted |
| RateLimit.Expire | lib/rate-limit.ts:51-55 | the swept store keeps only stored windows, unchanged, none of which ended before `now` |
| RateLimit.Window.constructor | lib/rate-limit.ts:26 | a window with the given count and end |
| RateLimit.Window.Tick | lib/rate-limit.ts:28-34 | the window rolls over to `{0, now + interval}` only when the clock is strictly past its end, then counts one request |
| RateLimit.RateLimiter.constructor | lib/rate-limit.ts:11 | the store starts empty |
| RateLimit.RateLimiter.Lookup | lib/rate-limit.ts:26 | returns the identifier's stored window, or a fresh `{0, now + interval}` one that is not in the store |
| RateLimit.RateLimiter.RateLimit | lib/rate-limit.ts:18-46 | the store afterwards holds the identifier's advanced window and every other entry unchanged; the report is the verdict on the advanced window; no two identifiers share a window object |
| RateLimit.RateLimiter.Cleanup | lib/rate-limit.ts:49-56 | afterwards the store holds exactly the windows whose end is not before `now`, unchanged |
| RateLimit.CheckUpdatesWindow | lib/rate-limit.ts:26-35 | a check stores a window whose count is the previous live count plus one, or 1 after a rollover or for a new identifier |
| RateLimit.AfterCheck | lib/rate-limit.ts:26-35 | the store after a check: only the identifier's entry changes, to the window the check leaves (stated by `RateLimit.CheckUpdatesWindow` and `RateLimit.OthersUnaffected`) |
| RateLimit.VerdictMeaning | lib/rate-limit.ts:37-45 | success iff the count is within the limit; remaining is `max(0, limit − count)`, below the limit after a counted request, and positive only on success; reset is the window's end; limit is the rule's |
| RateLimit.ResetWithinOneInterval | lib/rate-limit.ts:26-31 | when no stored window ends more than one interval ahead, the window a check leaves ends between `now` and `now + interval` |
| RateLimit.ResetBoundPreserved | lib/rate-limit.ts:26-35 | once every window ends within one interval of `now`, that still holds at any later time, after a check or a sweep at that time |
| RateLimit.ReplayResetsWithinOneInterval | lib/rate-limit.ts:26-45 | from such a store (the empty one among them), checks at non-decreasing times each report a reset between the check's time and one interval after it |
| RateLimit.OthersUnaffected | lib/rate-limit.ts:35 | a check neither adds, removes nor changes another identifier's entry |
| RateLimit.Replay | lib/rate-limit.ts:18-46 | a run of checks gives one report per check |
| RateLimit.ChecksWithinWindow | lib/rate-limit.ts:28-38 | inside an open window, the j-th further check sees the count increased by j + 1 and the same reset |
| RateLimit.AdmitsExactlyLimitPerWindow | lib/rate-limit.ts:26-45 | for an identifier with no live window, of the checks within one interval of the first, exactly the first `uniqueTokenPerInterval` succeed, `remaining` counts down to 0, and all report the same reset |
| RateLimit.ReplayLeavesOthers | lib/rate-limit.ts:35 | any number of checks of one identifier leave every other entry as it was |
| RateLimit.ReplayDependsOnOwnEntry | lib/rate-limit.ts:26 | the reports for an identifier depend on its own entry only |
| RateLimit.IdentifiersIndependent | lib/rate-limit.ts:11-35 | exhausting one identifier does not change what another is told |
| RateLimit.Scenario | lib/rate-limit.ts:28-38 | with rule {1000 ms, 2}, checks at 0, 100, 200, 1000 and 1001 get admitted, admitted, rejected, rejected (not yet rolled over at exactly 1000), then admitted in a new window |
| RateLimit.ExpireRemovesExactlyExpired | lib/rate-limit.ts:51-55 | the sweep deletes exactly the windows that ended strictly before it and keeps the others unchanged |
| RateLimit.SweepInvisibleToChecks | lib/rate-limit.ts:28-32 | a sweep changes no later check's report or stored window: what it deletes would have rolled over anyway |
| RateLimit.SweptIdentifierStartsAfresh | lib/rate-limit.ts:26 | after a sweep past its window, an identifier's next check opens a fresh window with count 1 |
| Middleware.Decide | middleware.ts:8-51 | the guard's decision; a redirect happens only with the backend configured and a fetched session, and goes only to `/auth/login` or `/dashboard` |
| Middleware.Route | middleware.ts:54-64 | a request the matcher sends to the guard gets exactly the guard's decision; any other request passes untouched |
| Middleware.Matched | middleware.ts:54-64 | a path is matched iff it is one of the five sections or below one, or exactly the login or sign-up page (its consequences are stated by `Middleware.MatchedPathsAgreeWithTests`, `Middleware.ChatroomNotGuarded` and `Middleware.AuthSubPagesNotGuarded`) |
| Middleware.MatchedPathsAgreeWithTests | middleware.ts:25-30 | on paths the matcher sends to the guard, a path is protected iff it is in a matcher section, and an auth page iff it is exactly the login or sign-up page |
| Middleware.ChatroomNotGuarded | middleware.ts:54-64 | `/chatroom` is not matched, so it passes untouched whatever the session |
| Middleware.AuthSubPagesNotGuarded | middleware.ts:61-62 | a path below the sign-up page is not matched and passes untouched |
| Middleware.SomePrefix | middleware.ts:25-30 | true iff some listed route is a prefix of the path |
| Middleware.WithoutName | middleware.ts:36 | keeps exactly the query pairs with another name |
| Middleware.NextUrl.constructor | middleware.ts:34 | the URL has the given path and query |
| Middleware.NextUrl.Clone | middleware.ts:34 | a new URL with the same path and query |
| Middleware.NextUrl.SetSearchParam | middleware.ts:36 | the query becomes `URLSearchParams.set` applied to it; the path is kept |
| Middleware.HandleRequest | middleware.ts:8-51 | the response is the guard's decision on the request URL's path and query |
| Middleware.SetParamMeaning | middleware.ts:36 | after `set`, the name's only value is the one set, and the pairs with other names are unchanged, in order |
| Middleware.SetParam | middleware.ts:36 | `URLSearchParams.set`: the first pair with the name takes the value, later ones are dropped, or the pair is appended (its meaning is stated by `Middleware.SetParamMeaning`) |
| Middleware.PassThroughWithoutBackend | middleware.ts:8-13 | with a backend setting missing, or when getting the session throws, every request passes |
| Middleware.ProtectedByPrefix | middleware.ts:25-26 | the protection test accepts sub-paths and longer names (`/trips/42`, `/chatroom`) |
| Middleware.PublicPages | middleware.ts:25-26 | `/`, `/auth/login` and `/explore` are not protected |
| Middleware.AuthPagesByPrefix | middleware.ts:29-30 | the auth-page test accepts the login and sign-up pages and paths below them, and rejects `/auth/callback` |
| Middleware.RoutesDisjoint | middleware.ts:25-30 | no path is both protected and an auth page |
| Middleware.LoginRedirectCarriesPath | middleware.ts:33-38 | a protected page without a session redirects to `/auth/login` whose `redirectTo` is the original path, with the other query pairs kept |
| Middleware.SignedInLeavesAuthPages | middleware.ts:41-45 | a signed-in visitor of an auth page is redirected to `/dashboard` with the query kept |
| Middleware.RedirectExactlyWhenARuleApplies | middleware.ts:16-51 | a redirect happens iff the backend is configured, the session was fetched, and one of the two rules applies; it goes to the login page or the dashboard |
| ChatRoute.Identifier | app/api/chat/route.ts:10 | the identifier is never empty, and is one of the two header values or "anonymous" |
| ChatRoute.History | app/api/chat/route.ts:66-73 | one entry fewer than the conversation (none for an empty one) |
| ChatRoute.Prompt | app/api/chat/route.ts:81-84 | the text sent to the model (its meaning is stated by `ChatRoute.PromptMeaning`) |
| ChatRoute.CeilDiv1000 | app/api/chat/route.ts:20 | `Math.ceil(x / 1000)`: the least whole number of seconds covering x ms |
| ChatRoute.Caught | app/api/chat/route.ts:99-120 | a caught exception is answered 200, 429 or 500, without rate headers |
| ChatRoute.Respond | app/api/chat/route.ts:16-120 | the answer after the verdict: status 200, 400, 429 or 500; a denied request gets 429 with the verdict's headers and `retryAfter` the seconds to the reset, rounded up; any rate headers sent are the verdict's; an unreadable body, and a failed model call on a valid request with a key, are answered by the `catch` block; a valid request without a key gets the not-configured greeting with status 200 and no rate headers |
| ChatRoute.Post | app/api/chat/route.ts:7-121 | counts the request under its identifier with the 20-per-minute rule (store updated as a check does) and answers as the handler decides on that verdict |
| ChatRoute.IdentifierChoice | app/api/chat/route.ts:10 | the forwarded address if non-empty, else the real address if non-empty, else "anonymous"; never empty |
| ChatRoute.DeniedBeforeBody | app/api/chat/route.ts:16-31 | a denied request gets 429 with the limit, remaining and reset headers, whatever its body, key or model |
| ChatRoute.RetryAfterBounds | app/api/chat/route.ts:20 | `retryAfter` is at most 60 and covers the time left in the window, and is not negative when the clock has not moved |
| ChatRoute.MissingMessagesRejected | app/api/chat/route.ts:36-41 | an admitted request without a non-empty messages array gets 400 |
| ChatRoute.ReplyPassedOn | app/api/chat/route.ts:86-98 | the model's reply to the conversation's history and prompt is returned with status 200 and the rate headers |
| ChatRoute.ToContentMeaning | app/api/chat/route.ts:66-69 | "assistant" becomes "model" and every other role "user"; the content is the single text part |
| ChatRoute.ToContent | app/api/chat/route.ts:66-69 | one message in the model's form (its meaning is stated by `ChatRoute.ToContentMeaning`) |
| ChatRoute.ChatHistory | app/api/chat/route.ts:66-69 | `messages.map(...)`, one converted entry per message in order (stated entry by entry by `ChatRoute.HistoryMeaning`) |
| ChatRoute.HistoryMeaning | app/api/chat/route.ts:66-73 | the history is every message but the last, in order, each converted |
| ChatRoute.HistoryOfExtended | app/api/chat/route.ts:73 | the history of a conversation with one more message is the whole earlier conversation |
| ChatRoute.PromptMeaning | app/api/chat/route.ts:81-84 | the prompt ends with the last message; it is the system prompt, the "User:" header and the last message iff that message is the only one, and otherwise the last message alone |
| ChatRoute.ErrorClassification | app/api/chat/route.ts:99-120 | an error mentioning "quota" gives 429, one mentioning "invalid" but not "quota" gives 500, any other the 200 fallback |
| ChatRoute.QuotaBeforeInvalid | app/api/chat/route.ts:103-115 | an error mentioning both words is classified as a quota error |
| ChatRoute.TwentyPerMinute | app/api/chat/route.ts:11-31 | a fresh caller is admitted for its first 20 requests within a minute and answered 429 from the 21st on |
| TripPlannerRoute.GenerateFallbackItinerary | app/api/trip-planner/route.ts:70-71 | succeeds iff ToLength of the day count is within the array limit, and then has that many days numbered from 1 |
| TripPlannerRoute.ExtractJson | app/api/trip-planner/route.ts:51 | an extracted text starts with `{` and ends with `}` |
| TripPlannerRoute.Respond | app/api/trip-planner/route.ts:49-66 | JSON is returned only when the model answered, the text was extracted from the answer and it parses; every fallback itinerary is numbered from 1 |
| TripPlannerRoute.FallbackItineraryShape | app/api/trip-planner/route.ts:70-104 | `n` days numbered from 1, each the same four chronological activities costing 115 |
| TripPlannerRoute.FallbackItinerary | app/api/trip-planner/route.ts:70-104 | the array built once its length is known (its shape is stated by `TripPlannerRoute.FallbackItineraryShape`) |
| TripPlannerRoute.IndexOf | app/api/trip-planner/route.ts:51 | the position of the first occurrence, or none when there is none |
| TripPlannerRoute.LastIndexOf | app/api/trip-planner/route.ts:51 | the position of the last occurrence, or none when there is none |
| TripPlannerRoute.ExtractJsonMeaning | app/api/trip-planner/route.ts:51 | a match exists iff some `}` follows some `{`; it runs from the first `{` to the last `}` |
| TripPlannerRoute.FailuresGiveThreeDays | app/api/trip-planner/route.ts:53-66 | an exception or an extracted text that does not parse gives the 3-day fallback |
| TripPlannerRoute.NoJsonGivesRequestedDays | app/api/trip-planner/route.ts:59-61 | with no JSON in the answer, a duration of `n` days gives an `n`-day fallback |
| TripPlannerRoute.UnreadableDurationGivesNoDays | app/api/trip-planner/route.ts:59-61 | with no JSON, a duration without a decimal digit (empty, "five") or a negative one gives an empty fallback |
| TripPlannerRoute.NegativeDurationGivesNoDays | app/api/trip-planner/route.ts:59-60 | a negative duration builds an empty fallback itinerary |
| TripPlannerRoute.JsonAnswerPassedOn | app/api/trip-planner/route.ts:51-56 | an extracted text that parses is returned as is |
| TripPlannerRoute.TooLongDurationGivesThreeDays | app/api/trip-planner/route.ts:59-66 | a duration beyond the array limit makes `Array.from` throw, and the catch gives 3 days |
| TripPlannerPage.DayCount | app/trip-planner/page.tsx:41 | `parseInt(duration)`, or 3 when that is falsy: never NaN or 0; the parsed number when that is neither, and 3 otherwise |
| TripPlannerPage.SampleItinerary | app/trip-planner/page.tsx:42-81 | `length` days numbered from 1 |
| TripPlannerPage.HandleGenerate | app/trip-planner/page.tsx:41-88 | within the array limit, as many days as the day count, numbered from 1; beyond it, the previous itinerary |
| TripPlannerPage.GenerateDisabled | app/trip-planner/page.tsx:180 | the Generate button's `disabled` expression (stated by `TripPlannerPage.GenerateGuard`) |
| TripPlannerPage.DemoDayShape | app/trip-planner/page.tsx:42-81 | every demo day has five chronological activities costing 140 |
| TripPlannerPage.DemoActivities | app/trip-planner/page.tsx:44-80 | the five activities of demo day `n`, the first naming the day and the destination (stated by `TripPlannerPage.DemoDayShape` and `TripPlannerPage.FirstActivityNamesDayAndPlace`) |
| TripPlannerPage.FirstActivityNamesDayAndPlace | app/trip-planner/page.tsx:48 | the first activity's description contains the day number and the destination |
| TripPlannerPage.SampleItineraryShape | app/trip-planner/page.tsx:42-81 | `n` days numbered from 1, each with five activities costing 140 whose first names the day and place |
| TripPlannerPage.DayCountOfNumeral | app/trip-planner/page.tsx:41 | a numeral `n ≥ 1` gives `n` days; a negative one gives length 0 |
| TripPlannerPage.DayCountDefaultsToThree | app/trip-planner/page.tsx:41 | an empty or zero duration, or one without a decimal digit ("days"), gives 3 |
| TripPlannerPage.GenerateRequestedDays | app/trip-planner/page.tsx:41-83 | a duration of `n` days (within the array limit) shows the `n`-day demo itinerary |
| TripPlannerPage.GenerateEmptyDuration | app/trip-planner/page.tsx:41-83 | an empty duration shows the 3-day demo itinerary |
| TripPlannerPage.GenerateTooLong | app/trip-planner/page.tsx:42-88 | a duration beyond the array limit leaves the previous itinerary shown |
| TripPlannerPage.GenerateGuard | app/trip-planner/page.tsx:180 | Generate is enabled iff nothing is loading and both the destination and the duration are filled in |
| Explore.Shown | app/explore/page.tsx:101-104 | the filter's test: the search matches and the category matches (stated by `Explore.ShownEntriesMatch`) |
| Explore.FilterDestinations | app/explore/page.tsx:100-105 | a destination is shown iff it is in the catalogue and matches both the search and the category; never more than the catalogue |
| Explore.FilterKeepsOrder | app/explore/page.tsx:100-105 | the shown list keeps the catalogue's order |
| Explore.FilterConcat | app/explore/page.tsx:100-105 | filtering a concatenation filters each part |
| Explore.ShownEntriesMatch | app/explore/page.tsx:101-103 | every shown entry contains the lower-cased search text in its lower-cased name or country, and has the selected category unless "All" |
| Explore.NoFilterShowsEverything | app/explore/page.tsx:94-105 | with no search text and "All", the whole catalogue is shown |
| Explore.SearchIgnoresCase | app/explore/page.tsx:101-102 | search texts that agree when lower-cased show the same list |
| Explore.CategoryNarrows | app/explore/page.tsx:103 | a category never shows anything "All" would not, in the same order |
| Explore.EmptySearchFiltersByCategory | app/explore/page.tsx:100-105 | with no search text, exactly the catalogue's entries of the category are shown |
| Explore.CultureShowsTokyoThenParis | app/explore/page.tsx:11-105 | in the app's catalogue, "Culture" with no search text shows Tokyo, then Paris, and nothing else |
| Explore.EveryCategoryHasDestinations | app/explore/page.tsx:11-105 | with no search text, every category button shows at least one destination, and every destination's category has a button |
| Onboarding.TogglePreference | app/onboarding/page.tsx:44-51 | a toggle changes only the interests, and flips whether the toggled one is selected |
| Onboarding.ForwardDisabled | app/onboarding/page.tsx:98-205 | the forward buttons' `disabled` expressions (stated by `Onboarding.ForwardGuards`) |
| Onboarding.Step | app/onboarding/page.tsx:44-205 | one click or keystroke: nothing changes after navigation; an event changes either the step or the answers, not both; the step advances only through an enabled forward button; navigation happens only when a save ends |
| Onboarding.RemoveAll | app/onboarding/page.tsx:48 | keeps exactly the other interests, never more |
| Onboarding.ToggleFlipsOnlyThatInterest | app/onboarding/page.tsx:44-51 | a toggle flips whether the interest is selected, keeps every other interest's selection and order, and changes no other field |
| Onboarding.ToggleTwiceRestores | app/onboarding/page.tsx:44-51 | selecting an interest appends it; toggling it again restores the form |
| Onboarding.ReselectMovesToEnd | app/onboarding/page.tsx:47-49 | deselecting then reselecting an interest moves it to the end |
| Onboarding.ToggleNoDuplicates | app/onboarding/page.tsx:44-51 | toggling keeps the selection free of duplicates |
| Onboarding.ForwardGuards | app/onboarding/page.tsx:98-205 | each forward button is enabled iff its step's answer is given, and Complete only while not saving |
| Onboarding.InitialInvariant | app/onboarding/page.tsx:35-42 | the initial state satisfies the wizard's invariant |
| Onboarding.StepInvariant | app/onboarding/page.tsx:44-205 | every click or keystroke keeps the invariant: later steps need earlier answers, and answers are offered ids |
| Onboarding.RunInvariant | app/onboarding/page.tsx:44-205 | any sequence of events keeps the invariant |
| Onboarding.Run | app/onboarding/page.tsx:44-205 | the page's state after a sequence of clicks and keystrokes, applied in order (its invariant is stated by `Onboarding.RunInvariant`) |
| Onboarding.Invariant | app/onboarding/page.tsx:35-42 | the wizard state the page keeps: steps 1 to 4, later steps only with earlier answers, answers among the offered ids, no interest twice (kept by `Onboarding.StepInvariant`) |
| Onboarding.ReachableStates | app/onboarding/page.tsx:35-205 | from the start, the budget step needs a name, an interest and a style; the dashboard is reached only with an offered budget |
| Onboarding.BackDuringSave | app/onboarding/page.tsx:53-60 | going back and clearing the name while saving still ends on the dashboard |
| Onboarding.SavingReachable | app/onboarding/page.tsx:92-205 | answering every step and clicking Complete starts the save with those answers |
| Js.StartsWith | middleware.ts:26 | `startsWith`: the prefix test |
| Js.ParseInt | app/trip-planner/page.tsx:41 | `parseInt` without a radix (stated by `Js.ParseIntOfNumeral`, `Js.ParseIntOfNegativeNumeral` and `Js.NoDigitsIsNaN`) |
| Js.Includes | app/explore/page.tsx:101-102 | `includes` is true iff the text occurs at some position |
| Js.ToLowerCase | app/explore/page.tsx:101-102 | same length, each ASCII capital lowered and every other character kept |
| Js.ToLowerCaseIdempotent | app/explore/page.tsx:101-102 | lower-casing twice is lower-casing once |
| Js.ParseIntOfNumeral | app/trip-planner/page.tsx:41 | `parseInt` reads back a decimal numeral |
| Js.ParseIntOfNegativeNumeral | app/api/trip-planner/route.ts:59 | `parseInt` of a minus sign and a numeral is the negated number |
| Js.NoDigitsIsNaN | app/trip-planner/page.tsx:41 | text without a decimal digit parses to NaN |
| Js.ArrayFromLength | app/trip-planner/page.tsx:42 | the array length is ToLength of the number, and `Array.from` throws exactly when that exceeds 2^32 − 1 |

## Left out

- Numbers are unbounded integers, not IEEE doubles. Money and clock values are whole numbers, and ratings are kept in tenths (4.8 is 48). Precision loss on huge numbers is not modelled.
- The clock (`Date.now()`) is a parameter of every check and sweep. The `setInterval` scheduling of the sweep is left out: `RateLimiter.Cleanup` is the sweep's body, called at a given time.
- Concurrency: each check runs to completion before the next. This matches the single-threaded event loop, since `rateLimit` does not await anything.
- The matcher (middleware.ts:54-64) is modelled as plain path patterns. A trailing slash, locale prefixes and the framework's data routes are not modelled.
- Getting the Supabase session (the dynamic import, the client, `getSession`) is foreign. Its outcome is the `SessionLookup` parameter.
- The Gemini calls, `req.json()` and `JSON.parse` are foreign. Their outcomes are parameters: the chat model is a function of the history and prompt it is given, and whether a JSON text parses is a `string -> bool`.
- The trip-planner prompt text (app/api/trip-planner/route.ts:10-47) and its model call are left out; only the model's answer matters to the response.
- `toLowerCase` lowers ASCII capitals only. Unicode case mapping is not modelled.
- Rate-limit headers are kept as numbers. The `toString`/`toISOString` formatting is not modelled, and neither is the `-0` that `Math.ceil` can give.
- Non-string message roles and contents, and thrown values that are not `Error` objects, are not modelled. An exception is its optional message.
- The trip planner's `duration` arrives as text in the model. The JSON number case is its decimal numeral.
- Logging (`console.log` and `console.error` at middleware.ts:48, app/api/chat/route.ts:100, app/api/trip-planner/route.ts:63 and app/trip-planner/page.tsx:85) has no effect on any answer and is left out.
- React state setters, `setTimeout` and `router.push` are not modelled. The onboarding timer's firing is the `SaveFinished` event, and the trip planner page's two-second delay and loading flag are left out.
- Rendering is not modelled: icons, cards, the remaining UI files, and the catalogue's images and descriptions beyond holding them as data.
- RateLimit.RateLimiter.RateLimit: the store's keys are plain strings. Object-property quirks of the JavaScript store (such as the key `__proto__`) are not modelled.
