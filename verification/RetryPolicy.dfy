/** Deadlines, the classification of replies and the decision to retry (deadline.ts, retry.ts, chat-attempt-loop.ts). */
module RetryPolicy {
  import opened Wrappers
  import opened EventStream
  import opened Json
  import opened ChatChunks
  import EventRendering

  datatype Classification =
    | Success
    | BodyLevelError(code: Text, message: Text, retryable: bool)
    | MalformedSuccess(retryable: bool)
    | UpstreamError(httpStatus: int, retryable: bool)
    | NetworkError
    | TooLarge

  /** Attempts are counted from one. */
  type AttemptNo = n: int | n >= 1 witness 1

  datatype Policy = Policy(maxAttempts: nat, attemptTimeoutMs: nat, minRemainingMs: nat)

  datatype Deadline = Deadline(startedAt: int, deadlineAt: int, minRemainingMs: nat) {
    function Remaining(now: int): int {
      deadlineAt - now
    }

    predicate HasTimeFor(now: int, ms: nat) {
      now + ms + minRemainingMs <= deadlineAt
    }

    /** At least one millisecond, at most what is left. */
    function AttemptTimeout(now: int, attemptMaxMs: nat): (ms: nat)
      ensures 1 <= ms && (ms > 1 ==> ms <= attemptMaxMs && now + ms <= deadlineAt)
      ensures ms == attemptMaxMs || now + ms == deadlineAt || attemptMaxMs < 1 || deadlineAt < now + 1
    {
      var least := if attemptMaxMs <= deadlineAt - now then attemptMaxMs else deadlineAt - now;
      if least >= 1 then least else 1
    }
  }

  function CreateDeadline(now: int, totalBudgetMs: nat, minRemainingMs: nat): Deadline {
    Deadline(now, now + totalBudgetMs, minRemainingMs)
  }

  const TOOL_CALLS := Ascii("tool_calls")
  const REFUSAL := Ascii("refusal")
  const CONTENT := Ascii("content")

  const PROVIDER_UNAVAILABLE := Ascii("provider_unavailable")
  const PROVIDER_TIMEOUT := Ascii("provider_timeout")
  const TIMEOUT := Ascii("timeout")
  const INTERNAL_ERROR := Ascii("internal_error")
  const SERVICE_UNAVAILABLE := Ascii("service_unavailable")
  const TEMPORARILY_UNAVAILABLE := Ascii("temporarily_unavailable")
  const RATE_LIMIT_EXCEEDED := Ascii("rate_limit_exceeded")

  /** isRetryableBodyCode */
  predicate IsRetryableBodyCode(code: Text) {
    code in [PROVIDER_UNAVAILABLE, PROVIDER_TIMEOUT, TIMEOUT, INTERNAL_ERROR, SERVICE_UNAVAILABLE,
             TEMPORARILY_UNAVAILABLE, UPSTREAM_ERROR, RATE_LIMIT_EXCEEDED]
  }

  const HTTP_RETRYABLE_STATUSES: set<int> := {408, 425, 429, 500, 502, 503, 504}
  const HTTP_TERMINAL_STATUSES: set<int> := {400, 401, 402, 403, 404, 405, 409, 422}

  /** `a ?? b`: null and undefined give way. */
  function Either(a: Option<Json>, b: Option<Json>): Option<Json> {
    if a.Some? && !a.value.Null? then a else b
  }

  /** The first choice lacks a content, tool calls and a refusal. */
  predicate EmptyContent(first: Json) {
    var message := Field(first, MESSAGE);
    var content := if IsObject(message) then Field(message.value, CONTENT) else None;
    && (content.None? || content.value.Null? || content.value == Str([]))
    && (!IsObject(message) || (Field(message.value, TOOL_CALLS).None? && Field(message.value, REFUSAL).None?))
  }

  /** The code of an error in a reply, by which its repetition is decided. */
  function ReplyCode(error: Json, text: Option<Json> -> Text): Text {
    text(Either(Either(Field(error, CODE), Field(error, TYPE)), Some(Str(Ascii("unknown")))))
  }

  /** classifyHttp; `text` is String(value), `parsed` is None when the body is not JSON. */
  function ClassifyHttp(statusCode: int, parsed: Option<Json>, text: Option<Json> -> Text): Classification {
    if 200 <= statusCode < 300 then
      var error := if parsed.Some? then Field(parsed.value, ERROR) else None;
      var choices := if parsed.Some? then AsItems(Field(parsed.value, CHOICES)) else [];
      if IsObject(error) then
        var code := ReplyCode(error.value, text);
        var message := Either(Field(error.value, MESSAGE), Some(Str([])));
        BodyLevelError(code, text(message), IsRetryableBodyCode(code))
      else if choices == [] then MalformedSuccess(true)
      else if Field(choices[0], FINISH_REASON) == Some(Str(ERROR)) then MalformedSuccess(true)
      else if EmptyContent(choices[0]) then MalformedSuccess(false)
      else Success
    else if statusCode in HTTP_RETRYABLE_STATUSES then UpstreamError(statusCode, true)
    else if statusCode in HTTP_TERMINAL_STATUSES then UpstreamError(statusCode, false)
    else UpstreamError(statusCode, statusCode >= 500)
  }

  /** The classes of reply that a repetition may improve. */
  predicate Retryable(c: Classification) {
    match c {
      case Success => false
      case BodyLevelError(_, _, retryable) => retryable
      case MalformedSuccess(retryable) => retryable
      case UpstreamError(_, retryable) => retryable
      case NetworkError => true
      case TooLarge => false
    }
  }

  /** shouldRetry, decided at `now` with the external signal aborted or not. */
  predicate ShouldRetry(c: Classification, attempt: AttemptNo, now: int, deadline: Deadline, policy: Policy, aborted: bool) {
    && !aborted && attempt < policy.maxAttempts
    && deadline.Remaining(now) > policy.minRemainingMs
    && Retryable(c)
  }

  function Pow2(n: nat): nat {
    if n == 0 then 1 else 2 * Pow2(n - 1)
  }

  /** computeBackoffMs: doubled from two seconds up to ten. */
  function ComputeBackoffMs(attempt: AttemptNo): nat
  {
    var ms := 2000 * Pow2(attempt - 1);
    if ms <= 10000 then ms else 10000
  }

  /** retryWaitMs: a Retry-After of a 429 or 503 replaces the backoff. */
  function RetryWaitMs(c: Classification, retryAfter: Option<nat>, attempt: AttemptNo): nat
  {
    if c.UpstreamError? && (c.httpStatus == 429 || c.httpStatus == 503) && retryAfter.Some? then retryAfter.value
    else ComputeBackoffMs(attempt)
  }

  /** The lists of statuses come down to this: server errors and three others are repeated, no other status is. */
  lemma RetriedStatuses(statusCode: int, parsed: Option<Json>, text: Option<Json> -> Text)
    requires !(200 <= statusCode < 300)
    ensures Retryable(ClassifyHttp(statusCode, parsed, text)) <==> statusCode >= 500 || statusCode in {408, 425, 429}
    ensures !ClassifyHttp(statusCode, parsed, text).Success?
  {
  }

  /** The message says something: a content that is neither null nor empty, tool calls or a refusal. */
  predicate Says(message: Json) {
    || (Field(message, Ascii("content")).Some? && Field(message, Ascii("content")).value != Null && Field(message, Ascii("content")).value != Str([]))
    || Field(message, Ascii("tool_calls")).Some? || Field(message, Ascii("refusal")).Some?
  }

  /** The first choice has a message, which says something. */
  predicate FirstSays(body: Json) {
    && HasChoice(body)
    && var message := Field(Field(body, Ascii("choices")).value.items[0], Ascii("message"));
       message.Some? && (message.value.Obj? || message.value.Arr?) && Says(message.value)
  }

  /** The reply has a first choice that is finished without an error. */
  predicate HasChoice(body: Json) {
    && var choices := Field(body, Ascii("choices"));
       choices.Some? && choices.value.Arr? && |choices.value.items| > 0
       && Field(choices.value.items[0], Ascii("finish_reason")) != Some(Str(Ascii("error")))
  }

  predicate HasError(body: Json) {
    var error := Field(body, Ascii("error"));
    error.Some? && (error.value.Obj? || error.value.Arr?)
  }

  /**
   Which 2xx replies are successes, and what the others are: a reply with an error, one without a
   choice that is finished, one whose first choice says nothing.
   */
  lemma SuccessExactly(statusCode: int, parsed: Option<Json>, text: Option<Json> -> Text)
    requires 200 <= statusCode < 300
    ensures var c := ClassifyHttp(statusCode, parsed, text);
            var choice := parsed.Some? && !HasError(parsed.value) && HasChoice(parsed.value);
            && (c.BodyLevelError? <==> parsed.Some? && HasError(parsed.value))
            && (c == MalformedSuccess(true) <==> parsed.None? || (!HasError(parsed.value) && !HasChoice(parsed.value)))
            && (c == Success <==> choice && FirstSays(parsed.value))
            && (c == MalformedSuccess(false) <==> choice && !FirstSays(parsed.value))
  {
    hide Ascii, ReplyCode;
  }

  /** The two conversions agree: String of a string is the string, String of a number is the codec's. */
  ghost predicate SameStrings(codec: Codec, text: Option<Json> -> Text) {
    && (forall t: Text :: text(Some(Str(t))) == t)
    && (forall x: real :: text(Some(Number(x))) == codec.show(x))
  }

  predicate Missing(v: Option<Json>) {
    v.None? || v.value.Null?
  }

  /** The code of an error in a reply is its code, without one its type, without both "unknown". */
  lemma ReplyErrorTells(statusCode: int, body: Json, text: Option<Json> -> Text, codec: Codec)
    requires 200 <= statusCode < 300 && HasError(body) && SameStrings(codec, text)
    ensures var c, error := ClassifyHttp(statusCode, Some(body), text), Field(body, ERROR).value;
            && c.BodyLevelError?
            && (!Missing(Field(error, CODE)) ==> c.code == text(Field(error, CODE)))
            && (Missing(Field(error, CODE)) && !Missing(Field(error, TYPE)) ==> c.code == text(Field(error, TYPE)))
            && (Missing(Field(error, CODE)) && Missing(Field(error, TYPE)) ==> c.code == Ascii("unknown"))
            && (!Missing(Field(error, MESSAGE)) ==> c.message == text(Field(error, MESSAGE)))
            && (Missing(Field(error, MESSAGE)) ==> c.message == [])
            && (c.retryable <==> IsRetryableBodyCode(c.code))
  {
    hide Ascii;
  }

  /**
   The proxy reads an object in two places, as the body of a reply and as an event of a stream. A success
   there is a chunk with choices here, and an error here is an error there; but an error beside choices,
   or one that is an array, is an error only in a reply.
   */
  lemma ReadBothWays(ev: SseEvent, obj: Json, codec: Codec, text: Option<Json> -> Text)
    requires SameObject(ev, obj, codec)
    ensures var reply, event := ClassifyHttp(200, Some(obj), text), InterpretChatChunk(ev, codec);
            && (reply.Success? ==> event.Chunk? && event.hasChoices && event.finishReason != Some(ERROR))
            && (event.Error? ==> reply.BodyLevelError?)
            && (reply.BodyLevelError? && !event.Error? <==>
                IsObject(Field(obj, ERROR)) && (Field(obj, ERROR).value.Arr? || AsItems(Field(obj, CHOICES)) != []))
  {
  }

  /** The error object has a code that a stream reads. */
  predicate HasCode(error: Json) {
    var code := Field(error, CODE);
    code.Some? && (code.value.Str? || code.value.Number?)
  }

  /**
   Such an error has the same code in both places if its code is a string or a number. It is repeated
   alike in both places if and only if it has such a code, or one that a reply is repeated for: a stream
   always repeats an error without a code, a reply looks for a type first.
   */
  lemma ErrorReadBothWays(ev: SseEvent, obj: Json, codec: Codec, text: Option<Json> -> Text)
    requires SameObject(ev, obj, codec) && SameStrings(codec, text) && InterpretChatChunk(ev, codec).Error?
    ensures Field(obj, ERROR).Some?
    ensures var reply, event, error := ClassifyHttp(200, Some(obj), text), InterpretChatChunk(ev, codec), Field(obj, ERROR).value;
            && reply.BodyLevelError?
            && (event.code.Some? <==> HasCode(error)) && (event.code.Some? ==> reply.code == event.code.value)
            && (reply.retryable == IsRetryableBodyCode(ErrorOf(event).value.code) <==>
                HasCode(error) || IsRetryableBodyCode(ReplyCode(error, text)))
  {
    ReadBothWays(ev, obj, codec, text);
    hide Ascii, Trim;
    UpstreamErrorIsRepeated();
  }

  /** It happens: an empty error object is repeated when it comes in a stream and not when it is a reply. */
  lemma CodelessErrorDiffers(ev: SseEvent, codec: Codec, text: Option<Json> -> Text)
    requires SameObject(ev, Obj(map[ERROR := Obj(map[])]), codec) && SameStrings(codec, text)
    ensures var reply, event := ClassifyHttp(200, Some(Obj(map[ERROR := Obj(map[])])), text), InterpretChatChunk(ev, codec);
            event.Error? && IsRetryableBodyCode(ErrorOf(event).value.code) && reply.BodyLevelError? && !reply.retryable
  {
    FieldNamesDiffer();
    UpstreamErrorIsRepeated();
    UnknownIsFinal();
    hide IsRetryableBodyCode, Trim;
    var obj := Obj(map[ERROR := Obj(map[])]);
    assert Field(obj, ERROR) == Some(Obj(map[])) && Field(obj, CHOICES) == None;
  }

  lemma UnknownIsFinal()
    ensures !IsRetryableBodyCode(Ascii("unknown"))
  {
    var u := Ascii("unknown");
    assert u[0] == 0x75 && u[1] == 0x6e;
    assert PROVIDER_UNAVAILABLE[0] != u[0] && PROVIDER_TIMEOUT[0] != u[0] && TIMEOUT[0] != u[0];
    assert INTERNAL_ERROR[0] != u[0] && SERVICE_UNAVAILABLE[0] != u[0] && TEMPORARILY_UNAVAILABLE[0] != u[0];
    assert RATE_LIMIT_EXCEEDED[0] != u[0] && UPSTREAM_ERROR[1] != u[1];
  }

  lemma UpstreamErrorIsRepeated()
    ensures IsRetryableBodyCode(UPSTREAM_ERROR)
  {
  }

  /** The waits double from two seconds until they stay at ten. */
  lemma BackoffDoubles(attempt: AttemptNo)
    ensures ComputeBackoffMs(1) == 2000
    ensures ComputeBackoffMs(attempt + 1) == (if 2 * ComputeBackoffMs(attempt) <= 10000 then 2 * ComputeBackoffMs(attempt) else 10000)
    ensures attempt >= 4 ==> ComputeBackoffMs(attempt) == 10000
  {
    assert Pow2(0) == 1;
    if attempt >= 4 {
      PowersGrow(attempt - 1);
    }
  }

  /** Only a 429 or 503 that says when to come back sets the wait; otherwise it is two, four, eight or ten seconds. */
  lemma WaitExactly(c: Classification, retryAfter: Option<nat>, attempt: AttemptNo)
    ensures RetryWaitMs(c, retryAfter, attempt) ==
            match (c, retryAfter)
            case (UpstreamError(429, _), Some(ms)) => ms
            case (UpstreamError(503, _), Some(ms)) => ms
            case _ => if attempt == 1 then 2000 else if attempt == 2 then 4000 else if attempt == 3 then 8000 else 10000
  {
    BackoffDoubles(1);
    BackoffDoubles(2);
    BackoffDoubles(attempt);
  }

  lemma {:induction false} PowersGrow(n: nat)
    requires n >= 3
    ensures Pow2(n) >= 8
  {
    if n > 3 {
      PowersGrow(n - 1);
    } else {
      assert Pow2(3) == 2 * Pow2(2) && Pow2(2) == 2 * Pow2(1) && Pow2(1) == 2 * Pow2(0);
    }
  }
}
