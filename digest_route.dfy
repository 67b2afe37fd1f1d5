/** The streaming endpoint `POST /api/digest` (app/api/digest/route.ts):
    the guards that run before any search client or model call, and the
    lookback window the search tool filters by. */
module DigestRoute {
  import opened Optional
  import opened JsText
  import SystemPrompt

  /** Longest string content accepted in the last message. */
  const MaxQueryLength: nat := 500

  const MissingAnthropicKey: string := "Server configuration error: Missing Anthropic API key"
  const MissingExaKey: string := "Server configuration error: Missing Exa API key"
  const InvalidJson: string := "Invalid JSON in request body"
  const MessagesRequired: string := "Messages array is required and must not be empty"
  const QueryTooLong: string := "Query exceeds maximum length of 500 characters"

  /** The two provider credentials, as read from the environment. */
  datatype Env = Env(anthropicApiKey: Option<string>, exaApiKey: Option<string>)

  /** One element of `messages`. `content` is `None` when the element has
      no string content (structured parts, no content, not an object). */
  datatype RequestMessage = RequestMessage(role: string, content: Option<string>)

  /** A parsed request body. `messages` is `None` when the field is absent,
      falsy or not an array; `timeframe` is `None` when it is absent or not
      a string. */
  datatype Body = Body(messages: Option<seq<RequestMessage>>, timeframe: Option<string>)

  /** What the guards decide: an error response, or the go-ahead with the
      messages for the model and the search lookback in days. */
  datatype Outcome =
    | Reject(status: nat, error: string)
    | Proceed(messages: seq<RequestMessage>, lookbackDays: nat)

  predicate KeysConfigured(env: Env) {
    IsTruthy(env.anthropicApiKey) && IsTruthy(env.exaApiKey)
  }

  /** The last message carries string content over the limit. */
  predicate LastTooLong(messages: seq<RequestMessage>) {
    |messages| > 0 && messages[|messages| - 1].content.Some?
    && Utf16Length(messages[|messages| - 1].content.value) > MaxQueryLength
  }

  /** How far back search results may reach: a week, a quarter, and
      thirty days for anything else. */
  function LookbackDays(timeframe: Option<string>): (days: nat)
    ensures days == 7 <==> timeframe == Some("week")
    ensures days == 90 <==> timeframe == Some("quarter")
    ensures days == 30 <==> timeframe != Some("week") && timeframe != Some("quarter")
  {
    if timeframe == Some("week") then 7
    else if timeframe == Some("quarter") then 90
    else 30
  }

  /** The guards of `POST`, in source order; the first that fails decides
      the response. `body` is `None` when the body is not valid JSON. */
  function Post(env: Env, body: Option<Body>): (r: Outcome)
    ensures !IsTruthy(env.anthropicApiKey) ==> r == Reject(500, MissingAnthropicKey)
    ensures IsTruthy(env.anthropicApiKey) && !IsTruthy(env.exaApiKey) ==> r == Reject(500, MissingExaKey)
    ensures KeysConfigured(env) && body.None? ==> r == Reject(400, InvalidJson)
    ensures KeysConfigured(env) && body.Some? && (body.value.messages.None? || body.value.messages.value == [])
            ==> r == Reject(400, MessagesRequired)
    ensures r.Reject? ==> (r.status == 500 <==> !KeysConfigured(env)) && (r.status == 400 || r.status == 500)
    ensures r.Proceed? <==>
      && KeysConfigured(env) && body.Some?
      && body.value.messages.Some? && body.value.messages.value != []
      && !LastTooLong(body.value.messages.value)
    ensures r.Proceed? ==>
      r.messages == body.value.messages.value && r.lookbackDays == LookbackDays(body.value.timeframe)
  {
    if !IsTruthy(env.anthropicApiKey) then Reject(500, MissingAnthropicKey)
    else if !IsTruthy(env.exaApiKey) then Reject(500, MissingExaKey)
    else if body.None? then Reject(400, InvalidJson)
    else if body.value.messages.None? || |body.value.messages.value| == 0 then Reject(400, MessagesRequired)
    else if LastTooLong(body.value.messages.value) then Reject(400, QueryTooLong)
    else Proceed(body.value.messages.value, LookbackDays(body.value.timeframe))
  }

  /** The search window and the prompt's timeframe label agree: seven
      days with "past week", ninety with "past 3 months", thirty with
      "past 30 days", for every timeframe string. */
  lemma LookbackMatchesLabel(timeframe: string)
    ensures var text := SystemPrompt.TimeframeLabel(timeframe);
      LookbackDays(Some(timeframe)) ==
        if text == SystemPrompt.WeekLabel then 7
        else if text == SystemPrompt.QuarterLabel then 90
        else 30
  {
  }

  /** A missing credential is reported whatever the body holds. */
  lemma MissingKeyIgnoresBody(env: Env, b1: Option<Body>, b2: Option<Body>)
    requires !KeysConfigured(env)
    ensures Post(env, b1) == Post(env, b2)
    ensures Post(env, b1).Reject? && Post(env, b1).status == 500
  {
  }

  /** The length limit is on the last message only: earlier messages, of
      any length, do not change the outcome. */
  lemma OnlyLastMessageChecked(env: Env, earlier1: seq<RequestMessage>, earlier2: seq<RequestMessage>,
                               last: RequestMessage, timeframe: Option<string>)
    ensures Post(env, Some(Body(Some(earlier1 + [last]), timeframe))).Proceed?
        <==> Post(env, Some(Body(Some(earlier2 + [last]), timeframe))).Proceed?
    ensures Post(env, Some(Body(Some(earlier1 + [last]), timeframe))).Reject? ==>
            Post(env, Some(Body(Some(earlier1 + [last]), timeframe)))
              == Post(env, Some(Body(Some(earlier2 + [last]), timeframe)))
  {
  }

  /** With both keys set, a non-empty list whose last content is a string
      is accepted exactly when that string has at most 500 UTF-16 units
      (so 500 passes and 501 fails); other last contents always pass. */
  lemma LengthLimit(env: Env, earlier: seq<RequestMessage>, last: RequestMessage, timeframe: Option<string>)
    requires KeysConfigured(env)
    ensures var r := Post(env, Some(Body(Some(earlier + [last]), timeframe)));
      && (last.content.None? ==> r.Proceed?)
      && (last.content.Some? ==>
            (r.Proceed? <==> Utf16Length(last.content.value) <= MaxQueryLength)
            && (r.Reject? ==> r == Reject(400, QueryTooLong)))
  {
  }

  /** The start of the search window, found the way the route moves a
      date back in place: start from today and step back by the window.
      Days are counted as integers; calendar dates are not modelled. */
  method StartDay(today: int, timeframe: Option<string>) returns (start: int)
    ensures start == today - LookbackDays(timeframe)
    ensures today - 90 <= start < today
  {
    start := today;
    if timeframe == Some("week") {
      start := start - 7;
    } else if timeframe == Some("quarter") {
      start := start - 90;
    } else {
      start := start - 30;
    }
  }
}
