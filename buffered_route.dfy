/** The buffered variant of the endpoint (route.ts): it validates a single
    query and a timeframe, calls the model once, and answers with a JSON
    envelope `{success, data?, error?}`; anything thrown on the way is
    turned into a status by the `catch` block. */
module BufferedRoute {
  import opened Optional
  import opened JsText

  const MaxQueryLength: nat := 500
  const DefaultTimeframe: string := "month"
  const ValidTimeframes: seq<string> := ["week", "month", "quarter"]

  const QueryRequired: string := "Query is required"
  const QueryEmpty: string := "Query cannot be empty"
  const QueryTooLong: string := "Query must be 500 characters or less"
  const InvalidTimeframe: string := "Invalid timeframe"
  const ConfigurationError: string := "Server configuration error"
  const TooManyRequests: string := "Too many requests. Please try again later."
  const ProcessingFailed: string := "Failed to process request"

  /** A field of the request body: absent (`undefined`), a string, or any
      other JSON value (`null`, a number, an object, ...). */
  datatype Field = Undefined | Str(s: string) | OtherValue

  datatype Request = Request(query: Field, timeframe: Field)

  /** What a `catch` receives: an `Error` with its message, or anything
      else that was thrown. */
  datatype Thrown = ErrorWithMessage(message: string) | NonError

  /** Reading the body: a request, or what parsing or destructuring threw
      (invalid JSON, a `null` body). */
  datatype BodyRead = Parsed(request: Request) | Unreadable(thrown: Thrown)

  /** How the model call ended. */
  datatype DigestCall = Returned(text: string) | Threw(thrown: Thrown)

  /** The JSON envelope and its HTTP status. */
  datatype Reply = Reply(status: nat, success: bool, data: Option<string>, error: Option<string>)

  /** The input and configuration guards: a rejection, or the trimmed
      query and the timeframe to hand to the model call. */
  datatype Checked = Rejected(reply: Reply) | Accepted(query: string, timeframe: string)

  /** Every error envelope: `success: false`, an error message, no data,
      and a status other than 200. */
  predicate IsFailureReply(r: Reply) {
    !r.success && r.data.None? && r.error.Some? && r.status != 200
  }

  function Failure(status: nat, error: string): Reply {
    Reply(status, false, None, Some(error))
  }

  /** The timeframe after the `= "month"` default, which applies to an
      absent field only. */
  function EffectiveTimeframe(f: Field): Field {
    if f.Undefined? then Str(DefaultTimeframe) else f
  }

  predicate IsValidTimeframe(f: Field) {
    f.Str? && f.s in ValidTimeframes
  }

  /** The guards in order: the query's presence and type, its blankness and
      its length, the timeframe whitelist, and only then the API key. */
  function Check(req: Request, apiKey: Option<string>): (c: Checked)
    ensures c.Accepted? <==>
      && req.query.Str? && !IsBlank(req.query.s) && Utf16Length(req.query.s) <= MaxQueryLength
      && IsValidTimeframe(EffectiveTimeframe(req.timeframe))
      && IsTruthy(apiKey)
    ensures c.Accepted? ==>
      && c.query == Trim(req.query.s) && c.query != ""
      && c.timeframe == EffectiveTimeframe(req.timeframe).s && c.timeframe in ValidTimeframes
    ensures c.Rejected? ==>
      && IsFailureReply(c.reply)
      && (c.reply.status == 400 || c.reply.status == 500)
      && (c.reply.status == 500 <==> c.reply.error == Some(ConfigurationError))
  {
    var tf := EffectiveTimeframe(req.timeframe);
    if !req.query.Str? || req.query.s == "" then Rejected(Failure(400, QueryRequired))
    else if Trim(req.query.s) == "" then Rejected(Failure(400, QueryEmpty))
    else if Utf16Length(req.query.s) > MaxQueryLength then Rejected(Failure(400, QueryTooLong))
    else if !IsValidTimeframe(tf) then Rejected(Failure(400, InvalidTimeframe))
    else if !IsTruthy(apiKey) then Rejected(Failure(500, ConfigurationError))
    else
      TrimEmptyIffBlank(req.query.s);
      Accepted(Trim(req.query.s), tf.s)
  }

  /** The `catch` block: an authentication failure is masked as a
      configuration error, a rate limit becomes 429, anything else is a
      generic failure. */
  function Classify(e: Thrown): (reply: Reply)
    ensures IsFailureReply(reply)
    ensures reply.status == 429 || reply.status == 500
  {
    if e.ErrorWithMessage? && Includes(e.message, "authentication") then Failure(500, ConfigurationError)
    else if e.ErrorWithMessage? && Includes(e.message, "rate limit") then Failure(429, TooManyRequests)
    else Failure(500, ProcessingFailed)
  }

  /** The whole handler. `callDigest` stands for the model call, which is
      outside this model. */
  function Post(body: BodyRead, apiKey: Option<string>, callDigest: (string, string) -> DigestCall): (reply: Reply)
    ensures reply.success <==> reply.status == 200
    ensures reply.success ==> reply.data.Some? && reply.error.None?
    ensures !reply.success ==> IsFailureReply(reply)
    ensures reply.status == 200 || reply.status == 400 || reply.status == 429 || reply.status == 500
    ensures body.Unreadable? ==> reply == Classify(body.thrown)
    ensures body.Parsed? && Check(body.request, apiKey).Rejected? ==>
      reply == Check(body.request, apiKey).reply
  {
    match body
    case Unreadable(e) => Classify(e)
    case Parsed(req) =>
      match Check(req, apiKey)
      case Rejected(r) => r
      case Accepted(q, tf) =>
        match callDigest(q, tf)
        case Returned(text) => Reply(200, true, Some(text), None)
        case Threw(e) => Classify(e)
  }

  /** The classifier's three outcomes and their precedence: "authentication"
      is looked for first, then "rate limit". */
  lemma ClassifyOutcomes(e: Thrown)
    ensures Classify(e).status == 429 <==>
      e.ErrorWithMessage? && !Includes(e.message, "authentication") && Includes(e.message, "rate limit")
    ensures Classify(e).error == Some(ConfigurationError) <==>
      e.ErrorWithMessage? && Includes(e.message, "authentication")
    ensures Classify(e).error == Some(ProcessingFailed) <==>
      !(e.ErrorWithMessage? && (Includes(e.message, "authentication") || Includes(e.message, "rate limit")))
  {
  }

  /** A body that cannot be read never reaches validation: it is answered
      by the classifier, with a generic 500 unless the thrown message
      happens to name one of the two provider conditions. */
  lemma UnreadableBody(e: Thrown, apiKey: Option<string>, callDigest: (string, string) -> DigestCall)
    requires !e.ErrorWithMessage? || (!Includes(e.message, "authentication") && !Includes(e.message, "rate limit"))
    ensures Post(Unreadable(e), apiKey, callDigest) == Failure(500, ProcessingFailed)
  {
  }

  /** Invalid input is reported the same way whether or not the key is
      configured: all input guards come before the key check. */
  lemma InputBeforeKey(req: Request, key1: Option<string>, key2: Option<string>)
    requires Check(req, Some("configured")).Rejected?
    ensures Check(req, key1) == Check(req, key2)
    ensures Check(req, key1).reply.status == 400
  {
  }

  /** A missing key is reported only for otherwise valid input. */
  lemma MissingKeyOnlyForValidInput(req: Request, apiKey: Option<string>)
    requires !IsTruthy(apiKey)
    ensures Check(req, apiKey).Rejected?
    ensures Check(req, apiKey).reply.status == 500 <==> Check(req, Some("configured")).Accepted?
  {
  }

  /** The individual input guards and their messages. */
  lemma InputGuards(req: Request, apiKey: Option<string>)
    ensures !req.query.Str? || req.query.s == "" ==> Check(req, apiKey) == Rejected(Failure(400, QueryRequired))
    ensures req.query.Str? && req.query.s != "" && IsBlank(req.query.s) ==>
      Check(req, apiKey) == Rejected(Failure(400, QueryEmpty))
    ensures req.query.Str? && !IsBlank(req.query.s) && Utf16Length(req.query.s) > MaxQueryLength ==>
      Check(req, apiKey) == Rejected(Failure(400, QueryTooLong))
    ensures (req.query.Str? && !IsBlank(req.query.s) && Utf16Length(req.query.s) <= MaxQueryLength
             && !IsValidTimeframe(EffectiveTimeframe(req.timeframe))) ==>
      Check(req, apiKey) == Rejected(Failure(400, InvalidTimeframe))
  {
  }

  /** On success the model is called with the trimmed query and the
      validated timeframe, and its text is returned as `data`. */
  lemma SuccessForwardsTrimmedQuery(q: string, timeframe: Field, apiKey: Option<string>,
                                    callDigest: (string, string) -> DigestCall)
    requires !IsBlank(q) && Utf16Length(q) <= MaxQueryLength
    requires IsValidTimeframe(EffectiveTimeframe(timeframe)) && IsTruthy(apiKey)
    ensures var call := callDigest(Trim(q), EffectiveTimeframe(timeframe).s);
      Post(Parsed(Request(Str(q), timeframe)), apiKey, callDigest) ==
        if call.Returned? then Reply(200, true, Some(call.text), None) else Classify(call.thrown)
  {
  }
}
