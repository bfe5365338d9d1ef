/**
 * The chat endpoint's decisions (app/api/chat/route.ts, `POST`).
 *
 * A request is first counted against the shared rate limiter under the
 * caller's address; a denied request gets a 429 answer before its body is
 * read. Otherwise the `messages` array must be present and non-empty (400
 * if not); without an API key a canned greeting is returned; otherwise the
 * conversation is handed to the model as a history (every message but the
 * last, with roles renamed) and a prompt (the last message, preceded by the
 * system prompt when it is the only one). Any exception is classified by
 * its message: "quota" gives 429, "invalid" gives 500, anything else a
 * friendly 200 fallback.
 *
 * Parsing the body, the model call and the clock are foreign: their outcomes
 * are parameters. The model is a function from the history and the prompt it
 * is given to what it does, so the reply is tied to what was sent.
 */
module ChatRoute {
  import opened Js
  import opened RateLimit

  /** The chat policy: 20 requests per minute. */
  const ChatPolicy := RateLimitConfig(60 * 1000, 20)

  /** `x-forwarded-for || x-real-ip || 'anonymous'`: the first header present and non-empty. */
  function Identifier(forwardedFor: Option<string>, realIp: Option<string>): (r: string)
    ensures |r| > 0
    ensures r == "anonymous" || (forwardedFor.Some? && r == forwardedFor.value) || (realIp.Some? && r == realIp.value)
  {
    if Truthy(forwardedFor) then forwardedFor.value
    else if Truthy(realIp) then realIp.value
    else "anonymous"
  }

  // ---------------------------------------------------------------------------
  // Messages and what the model is given
  // ---------------------------------------------------------------------------

  datatype Message = Message(role: string, content: string)

  /** The `messages` property of a parsed, non-null body: an array, or anything else
      (missing, `null`, a string, an object). */
  datatype MessagesField = NotAnArray | MessageArray(messages: seq<Message>)

  /** `const { messages } = await req.json()`: a parsed body, or the message of the exception
      thrown when the body is not JSON or is `null` (destructuring `null` throws a TypeError,
      which the `catch` block classifies like any other exception). */
  datatype Body = Parsed(field: MessagesField) | Unparsable(error: Option<string>)

  datatype Part = Part(text: string)

  /** One entry of the model's chat history. */
  datatype Content = Content(role: string, parts: seq<Part>)

  /** `{ role: msg.role === 'assistant' ? 'model' : 'user', parts: [{ text: msg.content }] }`. */
  function ToContent(m: Message): Content {
    Content(if m.role == "assistant" then "model" else "user", [Part(m.content)])
  }

  /** `messages.map(...)`, the whole conversation in the model's form. */
  function ChatHistory(ms: seq<Message>): seq<Content> {
    seq(|ms|, i requires 0 <= i < |ms| => ToContent(ms[i]))
  }

  /** `slice(0, -1)`: everything but the last entry (nothing for an empty list). */
  function DropLast<T>(s: seq<T>): seq<T> {
    if |s| == 0 then [] else s[..|s| - 1]
  }

  /** The history the chat is started with. */
  function History(ms: seq<Message>): (r: seq<Content>)
    ensures |r| == if |ms| == 0 then 0 else |ms| - 1
  {
    DropLast(ChatHistory(ms))
  }

  const SystemPrompt: string :=
    "You are GHUMO, an expert AI travel assistant. Your role is to:\n"
    + "    - Help users plan personalized trips based on their preferences and budget\n"
    + "    - Suggest destinations, activities, restaurants, and accommodations\n"
    + "    - Provide travel tips, cultural insights, and safety information\n"
    + "    - Answer questions about visa requirements, weather, and best times to visit\n"
    + "    - Help with itinerary planning and optimization\n"
    + "    - Offer budget-friendly alternatives and money-saving tips\n"
    + "    - Provide real-time travel advice and local recommendations\n"
    + "    \n"
    + "    Be friendly, helpful, and concise. Always consider the user's budget and preferences.\n"
    + "    If you don't have specific information, acknowledge it and provide general guidance."

  /** The message sent: the last message's content, preceded by the system prompt when the
      conversation has only that one message. */
  function Prompt(ms: seq<Message>): string
    requires |ms| > 0
  {
    var last := ms[|ms| - 1];
    if |ms| == 1 then SystemPrompt + "\n\nUser: " + last.content else last.content
  }

  // ---------------------------------------------------------------------------
  // Answers
  // ---------------------------------------------------------------------------

  /** `Math.ceil(x / 1000)`; for a positive divisor Dafny's `/` rounds down. */
  function CeilDiv1000(x: int): (r: int)
    ensures r * 1000 >= x
    ensures (r - 1) * 1000 < x
  {
    -((-x) / 1000)
  }

  /** The X-RateLimit-Limit, -Remaining and -Reset headers, as numbers. */
  datatype RateHeaders = RateHeaders(limit: int, remaining: int, reset: int)

  function HeadersOf(verdict: RateLimitResult): RateHeaders {
    RateHeaders(verdict.limit, verdict.remaining, verdict.reset)
  }

  datatype ResponseBody =
    | RateLimited(retryAfter: int)
    | InvalidRequest
    | Reply(message: string)
    | ErrorReply(error: string, message: string)

  datatype Response = Response(status: int, body: ResponseBody, headers: Option<RateHeaders>)

  const NotConfiguredMessage: string :=
    "Hi! I'm GHUMO, your AI travel assistant. I'm here to help you plan amazing trips! However, the API is "
    + "not configured yet. Ask me about destinations, budgets, itineraries, or any travel advice you need. "
    + "\U{1F30D}\U{2708}\U{FE0F}"

  const FallbackMessage: string :=
    "Hi! I'm GHUMO, your AI travel assistant. I'm here to help you plan amazing trips! Ask me about "
    + "destinations, budgets, itineraries, or any travel advice you need. \U{1F30D}\U{2708}\U{FE0F}"

  const QuotaError: string := "API quota exceeded. Please try again later."
  const QuotaMessage: string := "I'm currently experiencing high demand. Please try again in a few moments. \U{1F60A}"
  const ConfigError: string := "Invalid API configuration"
  const ConfigMessage: string := "There's a configuration issue. Please contact support."

  /** What the model call did: a reply text, or an exception with its message. */
  datatype ModelOutcome = Replied(text: string) | Failed(error: Option<string>)

  /** The `catch` block: classified by the exception's message, "quota" first. */
  function Caught(error: Option<string>): (r: Response)
    ensures r.status in {200, 429, 500} && r.headers.None?
  {
    if error.Some? && Includes(error.value, "quota") then
      Response(429, ErrorReply(QuotaError, QuotaMessage), None)
    else if error.Some? && Includes(error.value, "invalid") then
      Response(500, ErrorReply(ConfigError, ConfigMessage), None)
    else
      Response(200, Reply(FallbackMessage), None)
  }

  /** Everything after the rate-limit verdict. `replyTime` is the clock when the 429 answer
      is built; `chat` says what the model does with a history and a prompt. */
  function Respond(verdict: RateLimitResult, replyTime: int, body: Body, apiKey: Option<string>,
                   chat: (seq<Content>, string) -> ModelOutcome): (r: Response)
    ensures r.status in {200, 400, 429, 500}
    ensures !verdict.success ==> r.status == 429 && r.headers == Some(HeadersOf(verdict))
    ensures r.headers.Some? ==> r.headers == Some(HeadersOf(verdict))
    ensures !verdict.success ==> r.body == RateLimited(CeilDiv1000(verdict.reset - replyTime))
    ensures verdict.success && body.Unparsable? ==> r == Caught(body.error)
    ensures verdict.success && body.Parsed? && body.field.MessageArray? && |body.field.messages| > 0 ==>
      if !Truthy(apiKey) then r == Response(200, Reply(NotConfiguredMessage), None)
      else chat(History(body.field.messages), Prompt(body.field.messages)).Failed? ==>
        r == Caught(chat(History(body.field.messages), Prompt(body.field.messages)).error)
  {
    if !verdict.success then
      Response(429, RateLimited(CeilDiv1000(verdict.reset - replyTime)), Some(HeadersOf(verdict)))
    else match body
      case Unparsable(error) => Caught(error)
      case Parsed(field) =>
        if field.NotAnArray? || |field.messages| == 0 then Response(400, InvalidRequest, None)
        else if !Truthy(apiKey) then Response(200, Reply(NotConfiguredMessage), None)
        else match chat(History(field.messages), Prompt(field.messages))
          case Replied(text) => Response(200, Reply(text), Some(HeadersOf(verdict)))
          case Failed(error) => Caught(error)
  }

  /** `POST`: counts the request on `limiter` at `checkTime`, then answers as `Respond` says. */
  method Post(limiter: RateLimiter, forwardedFor: Option<string>, realIp: Option<string>,
              checkTime: int, replyTime: int, body: Body, apiKey: Option<string>,
              chat: (seq<Content>, string) -> ModelOutcome)
    returns (res: Response)
    requires limiter.Valid()
    modifies limiter, limiter.store.Values
    ensures limiter.Valid()
    ensures limiter.Windows()
         == AfterCheck(old(limiter.Windows()), Identifier(forwardedFor, realIp), checkTime, ChatPolicy)
    ensures res == Respond(Verdict(Consumed(old(limiter.Windows()), Identifier(forwardedFor, realIp),
                                            checkTime, ChatPolicy), ChatPolicy),
                           replyTime, body, apiKey, chat)
  {
    var identifier := Identifier(forwardedFor, realIp);
    var rateLimitResult := limiter.RateLimit(identifier, checkTime, ChatPolicy);
    if !rateLimitResult.success {
      var retryAfter := CeilDiv1000(rateLimitResult.reset - replyTime);
      return Response(429, RateLimited(retryAfter), Some(HeadersOf(rateLimitResult)));
    }
    if body.Unparsable? {
      return Caught(body.error);
    }
    var field := body.field;
    if field.NotAnArray? || |field.messages| == 0 {
      return Response(400, InvalidRequest, None);
    }
    if !Truthy(apiKey) {
      return Response(200, Reply(NotConfiguredMessage), None);
    }
    var messages := field.messages;
    var outcome := chat(History(messages), Prompt(messages));
    if outcome.Failed? {
      return Caught(outcome.error);
    }
    res := Response(200, Reply(outcome.text), Some(HeadersOf(rateLimitResult)));
  }

  // ---------------------------------------------------------------------------
  // Properties
  // ---------------------------------------------------------------------------

  /** The forwarded address wins, then the real address, then "anonymous"; never empty. */
  lemma IdentifierChoice(forwardedFor: Option<string>, realIp: Option<string>)
    ensures forwardedFor.Some? && forwardedFor.value != "" ==> Identifier(forwardedFor, realIp) == forwardedFor.value
    ensures (forwardedFor.None? || forwardedFor.value == "") && realIp.Some? && realIp.value != "" ==>
      Identifier(forwardedFor, realIp) == realIp.value
    ensures (forwardedFor.None? || forwardedFor.value == "") && (realIp.None? || realIp.value == "") ==>
      Identifier(forwardedFor, realIp) == "anonymous"
    ensures |Identifier(forwardedFor, realIp)| > 0
  {
  }

  /** A denied request is answered 429 with the verdict's headers whatever its body, key
      or model: the body is never read. */
  lemma DeniedBeforeBody(verdict: RateLimitResult, replyTime: int, body1: Body, body2: Body,
                         key1: Option<string>, key2: Option<string>,
                         chat1: (seq<Content>, string) -> ModelOutcome,
                         chat2: (seq<Content>, string) -> ModelOutcome)
    requires !verdict.success
    ensures Respond(verdict, replyTime, body1, key1, chat1) == Respond(verdict, replyTime, body2, key2, chat2)
    ensures Respond(verdict, replyTime, body1, key1, chat1).status == 429
    ensures Respond(verdict, replyTime, body1, key1, chat1).headers
         == Some(RateHeaders(verdict.limit, verdict.remaining, verdict.reset))
  {
  }

  /** With the clock read at the check and again for the answer, a denied request is told to
      wait at most a minute, and no less than the time left in its window. */
  lemma RetryAfterBounds(store: Store, identifier: string, checkTime: int, replyTime: int)
    requires forall k :: k in store ==> store[k].resetTime <= checkTime + ChatPolicy.interval
    requires checkTime <= replyTime
    ensures var verdict := Verdict(Consumed(store, identifier, checkTime, ChatPolicy), ChatPolicy);
      var retryAfter := CeilDiv1000(verdict.reset - replyTime);
      && retryAfter <= 60
      && retryAfter * 1000 >= verdict.reset - replyTime
      && (replyTime == checkTime ==> retryAfter >= 0)
  {
    ResetWithinOneInterval(store, identifier, checkTime, ChatPolicy);
  }

  /** An admitted request without a non-empty `messages` array gets 400, whatever the key
      or the model. */
  lemma MissingMessagesRejected(verdict: RateLimitResult, replyTime: int, field: MessagesField,
                                apiKey: Option<string>, chat: (seq<Content>, string) -> ModelOutcome)
    requires verdict.success
    requires field.NotAnArray? || field.messages == []
    ensures Respond(verdict, replyTime, Parsed(field), apiKey, chat) == Response(400, InvalidRequest, None)
  {
  }

  /** The model's reply is returned with the verdict's headers; the model is given the
      conversation's history and prompt. */
  lemma ReplyPassedOn(verdict: RateLimitResult, replyTime: int, ms: seq<Message>, apiKey: Option<string>,
                      chat: (seq<Content>, string) -> ModelOutcome)
    requires verdict.success && |ms| > 0 && Truthy(apiKey)
    requires chat(History(ms), Prompt(ms)).Replied?
    ensures Respond(verdict, replyTime, Parsed(MessageArray(ms)), apiKey, chat)
         == Response(200, Reply(chat(History(ms), Prompt(ms)).text), Some(HeadersOf(verdict)))
  {
  }

  /** Roles: "assistant" becomes "model", every other role "user"; the content is the one
      text part. */
  lemma ToContentMeaning(m: Message)
    ensures ToContent(m).role == "model" <==> m.role == "assistant"
    ensures ToContent(m).role == "user" <==> m.role != "assistant"
    ensures |ToContent(m).parts| == 1 && ToContent(m).parts[0].text == m.content
  {
  }

  /** The history is the conversation minus its last message, in order, each converted. */
  lemma HistoryMeaning(ms: seq<Message>)
    requires |ms| > 0
    ensures |History(ms)| == |ms| - 1
    ensures forall i :: 0 <= i < |ms| - 1 ==>
      History(ms)[i].role == (if ms[i].role == "assistant" then "model" else "user")
      && History(ms)[i].parts == [Part(ms[i].content)]
  {
  }

  /** The history of a conversation extended by one message is the whole earlier
      conversation: each turn's history is the previous turn's messages. */
  lemma HistoryOfExtended(ms: seq<Message>, m: Message)
    ensures History(ms + [m]) == ChatHistory(ms)
  {
    assert ChatHistory(ms + [m])[..|ms|] == ChatHistory(ms);
  }

  /** The last message always ends the prompt; the prompt is the system prompt, the "User:"
      header and the last message exactly when that message is the only one. */
  lemma PromptMeaning(ms: seq<Message>)
    requires |ms| > 0
    ensures |Prompt(ms)| >= |ms[|ms| - 1].content|
    ensures Prompt(ms)[|Prompt(ms)| - |ms[|ms| - 1].content|..] == ms[|ms| - 1].content
    ensures Prompt(ms) == SystemPrompt + "\n\nUser: " + ms[|ms| - 1].content <==> |ms| == 1
    ensures |ms| > 1 ==> Prompt(ms) == ms[|ms| - 1].content
  {
    var c := ms[|ms| - 1].content;
    if |ms| == 1 {
      var head := SystemPrompt + "\n\nUser: ";
      assert Prompt(ms) == head + c;
      assert (head + c)[|head|..] == c;
    } else {
      assert |SystemPrompt + "\n\nUser: " + c| > |c|;
    }
  }

  /** An exception mentioning "quota" gives 429 even when it also mentions "invalid"; one
      mentioning only "invalid" gives 500; any other gives the 200 fallback. */
  lemma ErrorClassification(error: Option<string>)
    ensures Caught(error).status == 429 <==> error.Some? && Includes(error.value, "quota")
    ensures Caught(error).status == 500 <==>
      error.Some? && !Includes(error.value, "quota") && Includes(error.value, "invalid")
    ensures Caught(error).status == 200 <==>
      error.None? || (!Includes(error.value, "quota") && !Includes(error.value, "invalid"))
    ensures Caught(error).status == 200 ==> Caught(error).body == Reply(FallbackMessage)
  {
  }

  /** The quota check comes first. */
  lemma QuotaBeforeInvalid()
    ensures Caught(Some("invalid quota")).status == 429
  {
    var error := "invalid quota";
    IncludesInfix("invalid ", "quota", "");
    assert error == "invalid " + "quota" + "";
    assert Includes(error, "quota");
  }

  /** A caller starting afresh, all of whose requests fall within a minute of the first,
      gets its first 20 admitted and is answered 429 from the 21st on, whatever it sends. */
  lemma TwentyPerMinute(store: Store, identifier: string, times: seq<int>, replyTime: int,
                        body: Body, apiKey: Option<string>, chat: (seq<Content>, string) -> ModelOutcome)
    requires |times| > 0
    requires identifier !in store || store[identifier].resetTime < times[0]
    requires forall j :: 0 <= j < |times| ==> times[j] <= times[0] + ChatPolicy.interval
    ensures forall j :: 0 <= j < |times| ==>
      (Replay(store, identifier, times, ChatPolicy)[j].success <==> j < 20)
    ensures forall j :: 20 <= j < |times| ==>
      Respond(Replay(store, identifier, times, ChatPolicy)[j], replyTime, body, apiKey, chat).status == 429
  {
    AdmitsExactlyLimitPerWindow(store, identifier, times, ChatPolicy);
  }
}
