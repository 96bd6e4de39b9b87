/**
 Streaming calls of src/upstream/openai-compatible-client.ts: attempts until one commits, the head
 and the bytes of the committed one relayed to the client, and its events read on the way.
 */
module StreamProxy {
  import opened Wrappers
  import opened EventStream
  import opened Json
  import opened ChatChunks
  import opened RetryPolicy
  import opened SseParsing
  import opened StreamSinks

  const PRE_COMMIT_LIMIT_BYTES: nat := 1_048_576
  const PARSER_LIMIT_BYTES: nat := 1_048_576

  /** A chunk of the provider's body: its bytes, what the decoder makes of them, and what their write meets. */
  datatype Chunk = Chunk(bytes: seq<Byte>, text: Text, write: WriteEnv)

  /** How the body ends: at EOF the decoder still gives `rest`, otherwise reading throws. */
  datatype End = Eof(rest: Text) | Broken(error: Error)

  /** The signals when an exception is caught, or when an attempt has failed. */
  datatype Signals = Signals(clientClosed: bool, call: Option<Reason>, own: Option<TimeoutCode>, any: Option<Reason>)

  datatype Body = Body(chunks: seq<Chunk>, end: End, firstWrite: WriteEnv, errorWrite: WriteEnv)

  datatype Reply =
    | NoReply(error: Error)
    | NotAStream(status: int, parsed: Option<Json>, retryAfter: Option<nat>, readError: Option<Error>)
    | Streaming(body: Body)

  /** One attempt's surroundings: when it starts and fails, the reply, and the signals when it fails. */
  datatype Attempt = Attempt(startedAt: int, failedAt: int, reply: Reply, signals: Signals)

  datatype StreamClass =
    | StreamSuccess
    | StreamUpstreamError
    | StreamIncomplete
    | ClientAborted
    | StreamNetworkError
    | StreamTooLarge

  datatype StreamOutcome = StreamOutcome(classification: StreamClass, attemptCount: AttemptNo, responseBytes: nat,
                                         facts: Facts, errorCode: Option<Text>)

  /** A reply without a committed stream: an ordinary JSON error. */
  datatype FailedResult =
    | FailedResult(statusCode: int, classification: Classification, attemptCount: nat)
    | DeadlineExceeded(attemptCount: nat)

  datatype StreamStep = Finished(outcome: StreamOutcome) | Failed(result: FailedResult, retry: bool, waitMs: nat)

  datatype StreamExecution = NotCommitted(result: FailedResult) | Committed(outcome: StreamOutcome)

  /** What the journal is told of an attempt. */
  datatype Observed = ObservedFailure(classification: Classification) | ObservedStream(outcome: StreamOutcome)
  datatype Observation = Observation(attemptNo: AttemptNo, observed: Observed)

  /** The client's settings, the language's conversions, and sseErrorEvent in bytes with the message of a code. */
  datatype Client = Client(policy: Policy, streamLimitBytes: nat, codec: Codec, text: Option<Json> -> Text,
                           errorEvent: Text -> seq<Byte>)

  function BytesOf(chunks: seq<Chunk>): seq<Byte> {
    if chunks == [] then [] else BytesOf(chunks[..|chunks| - 1]) + chunks[|chunks| - 1].bytes
  }

  function Received(chunks: seq<Chunk>): Text {
    if chunks == [] then [] else Received(chunks[..|chunks| - 1]) + chunks[|chunks| - 1].text
  }

  /** The text of a body, all that is read of it. */
  function TextOf(body: Body): Text {
    StripBom(Received(body.chunks)) + if body.end.Eof? then body.end.rest else []
  }

  /** The verdict on a stream as a whole, from the reference's events alone. */
  datatype Verdict =
    | Empty
    | Rejected(code: Text, message: Text, statusCode: int)
    | Relayed(classification: StreamClass, facts: Facts, errorCode: Option<Text>)

  function VerdictOf(events: seq<SseEvent>, codec: Codec): Verdict {
    if events == [] then Empty
    else
      var first := InterpretChatChunk(events[0], codec);
      if first.Error? then
        var e := ErrorOf(first).value;
        Rejected(e.code, e.message, if first.httpCode.Some? then first.httpCode.value else 502)
      else
        var f := FactsOf(events, codec);
        Relayed(ClassOf(f), f, CodeOf(f))
  }

  const STREAM_INCOMPLETE := Ascii("stream_incomplete")
  const EOF_WITHOUT_DONE := Ascii("eof_without_done")

  /** The error code of a stream that ended by itself. */
  function CodeOf(f: Facts): Option<Text> {
    if f.error.Some? then Some(f.error.value.code) else if f.sawDone then None else Some(EOF_WITHOUT_DONE)
  }

  /** How a stream that ended by itself is classified. */
  function ClassOf(f: Facts): StreamClass {
    if f.error.Some? then StreamUpstreamError else if f.sawDone then StreamSuccess else StreamIncomplete
  }

  predicate EndedByItself(c: StreamClass) {
    c.StreamSuccess? || c.StreamUpstreamError? || c.StreamIncomplete?
  }

  lemma OneMoreChunk(chunks: seq<Chunk>, i: nat)
    requires i < |chunks|
    ensures BytesOf(chunks[..i + 1]) == BytesOf(chunks[..i]) + chunks[i].bytes
    ensures Received(chunks[..i + 1]) == Received(chunks[..i]) + chunks[i].text
  {
    assert chunks[..i + 1][..i] == chunks[..i];
  }

  /** The parts of a body are prefixes of the whole. */
  lemma {:induction false} PartOfBody(chunks: seq<Chunk>, i: nat)
    requires i <= |chunks|
    ensures BytesOf(chunks[..i]) <= BytesOf(chunks) && Received(chunks[..i]) <= Received(chunks)
    decreases |chunks| - i
  {
    if i == |chunks| {
      assert chunks[..i] == chunks;
    } else {
      OneMoreChunk(chunks, i);
      PartOfBody(chunks, i + 1);
    }
  }

  lemma LessOfBody(chunks: seq<Chunk>, n: nat, i: nat)
    requires n <= |chunks| && i <= |chunks|
    ensures n <= i ==> |BytesOf(chunks[..n])| <= |BytesOf(chunks[..i])|
  {
    if n <= i {
      PartOfBody(chunks[..i], n);
      assert chunks[..i][..n] == chunks[..n];
    }
  }

  lemma StripBomAppend(a: Text, b: Text)
    ensures StripBom(a + b) == if a != [] then StripBom(a) + b else StripBom(b)
  {
    if a != [] {
      assert (a + b)[1..] == a[1..] + b;
    } else {
      assert a + b == b;
    }
  }

  /** The events of a part of the body are the first events of the whole. */
  lemma EarlierEvents(body: Body, i: nat)
    requires i <= |body.chunks|
    ensures Delivered(StripBom(Received(body.chunks[..i]))) <= Parse(TextOf(body))
  {
    hide Received, Step, EndLine, ApplyLine, Dispatched;
    PartOfBody(body.chunks, i);
    var part, all := Received(body.chunks[..i]), Received(body.chunks);
    if part == [] {
      assert Delivered(StripBom(part)) == [];
    } else {
      StripBomAppend(part, all[|part|..]);
      assert all == part + all[|part|..];
      var rest := TextOf(body)[|StripBom(part)|..];
      assert TextOf(body) == StripBom(part) + rest;
      RunAppend(START, StripBom(part), rest);
      RunKeepsEvents(Run(START, StripBom(part)), rest);
    }
  }

  /** The parser has been fed the first `i` chunks of the body. */
  ghost predicate Fed(parser: SseParser, body: Body, i: nat)
    reads parser
  {
    && i <= |body.chunks| && parser.Valid() && parser.maxBufferedBytes == PARSER_LIMIT_BYTES
    && (parser.started <==> Received(body.chunks[..i]) != [])
    && parser.Seen() == StripBom(Received(body.chunks[..i]))
  }

  /** The parser has been flushed after the whole body: nothing is left in it. */
  ghost predicate Flushed(parser: SseParser)
    reads parser
  {
    parser.Valid() && parser.Seen() == [] && parser.maxBufferedBytes == PARSER_LIMIT_BYTES
  }

  /** Feeding the next chunk: its events, or an overflow, possible only if the event under way is longer than a third of the cap. */
  method FeedChunk(parser: SseParser, body: Body, i: nat) returns (r: PushResult)
    requires i < |body.chunks| && Fed(parser, body, i)
    modifies parser
    ensures Fed(parser, body, i + 1)
    ensures r.Events? ==>
      Delivered(StripBom(Received(body.chunks[..i + 1]))) == Delivered(StripBom(Received(body.chunks[..i]))) + r.events
    ensures r.Overflow? ==> !ShortEvents(body, i)
  {
    OneMoreChunk(body.chunks, i);
    StripBomAppend(Received(body.chunks[..i]), body.chunks[i].text);
    r := parser.Push(body.chunks[i].text);
    if r.Overflow? {
      parser.RetainedSize();
    }
  }

  /** Every chunk needed for the first event fits into the small limit that holds before the commit. */
  predicate StartsInTime(body: Body) {
    forall i :: 0 <= i < |body.chunks| && Delivered(StripBom(Received(body.chunks[..i]))) == [] ==>
      |BytesOf(body.chunks[..i + 1])| <= PRE_COMMIT_LIMIT_BYTES
  }

  /** Nothing interrupts the stream: no fault, no slow or lost client, no limit reached. */
  predicate Undisturbed(body: Body, limit: nat) {
    && body.end.Eof? && Flows(body.firstWrite) && (forall i :: 0 <= i < |body.chunks| ==> Flows(body.chunks[i].write))
    && StartsInTime(body) && |BytesOf(body.chunks)| <= limit
    && (forall i :: 0 <= i < |body.chunks| ==> ShortEvents(body, i))
  }

  /** After chunk `i`, what has come of an event not yet finished is at most a third of the parser's cap. */
  predicate ShortEvents(body: Body, i: nat)
    requires i < |body.chunks|
  {
    3 * Backlog(StripBom(Received(body.chunks[..i + 1]))) <= PARSER_LIMIT_BYTES
  }

  lemma UndisturbedEnd(body: Body)
    ensures Undisturbed(body, |BytesOf(body.chunks)|) ==> body.end.Eof?
  {
    hide Backlog;
  }

  lemma NothingRead(body: Body)
    ensures BytesOf(body.chunks[..0]) == [] && Delivered(StripBom(Received(body.chunks[..0]))) == []
  {
  }

  lemma UndisturbedChunk(body: Body, i: nat, limit: nat)
    requires i < |body.chunks|
    ensures Undisturbed(body, limit) ==>
      && Flows(body.chunks[i].write) && |BytesOf(body.chunks[..i + 1])| <= limit && ShortEvents(body, i)
      && (Delivered(StripBom(Received(body.chunks[..i]))) == [] ==>
            |BytesOf(body.chunks[..i + 1])| <= PRE_COMMIT_LIMIT_BYTES)
  {
    hide Backlog;
    PartOfBody(body.chunks, i + 1);
  }

  /** The reading loop before the commit: up to the first event, or to the end of the body. */
  method AwaitFirstEvent(body: Body, parser: SseParser)
    returns (events: seq<SseEvent>, i: nat, ended: bool, thrown: Option<Error>)
    requires Fed(parser, body, 0)
    modifies parser
    ensures thrown.None? && !ended ==>
      Fed(parser, body, i) && events != [] && events == Delivered(StripBom(Received(body.chunks[..i])))
    ensures thrown.None? && ended ==>
      Flushed(parser) && i == |body.chunks| && body.end.Eof? && events == Parse(TextOf(body))
    ensures thrown.None? ==> i <= |body.chunks| && |BytesOf(body.chunks[..i])| <= PRE_COMMIT_LIMIT_BYTES
    ensures thrown == Some(ResponseTooLarge) && body.end.Eof? ==>
      i < |body.chunks| && |BytesOf(body.chunks[..i + 1])| > PRE_COMMIT_LIMIT_BYTES
    ensures Undisturbed(body, |BytesOf(body.chunks)|) ==> thrown.None?
  {
    hide Undisturbed, ShortEvents, BytesOf, Received, Run, Fed, Flushed, Parse, TextOf, Delivered;
    events, i, ended := [], 0, false;
    NothingRead(body);
    var bytes := 0;
    while events == []
      invariant i <= |body.chunks| && Fed(parser, body, i)
      invariant bytes == |BytesOf(body.chunks[..i])| <= PRE_COMMIT_LIMIT_BYTES && !ended
      invariant events == Delivered(StripBom(Received(body.chunks[..i])))
      decreases |body.chunks| - i, events == []
    {
      if i == |body.chunks| {
        if body.end.Broken? {
          UndisturbedEnd(body);
          return events, i, ended, Some(body.end.error);
        }
        assert body.chunks[..i] == body.chunks;
        ended := true;
        break;
      }
      OneMoreChunk(body.chunks, i);
      UndisturbedChunk(body, i, |BytesOf(body.chunks)|);
      bytes := bytes + |body.chunks[i].bytes|;
      if bytes > PRE_COMMIT_LIMIT_BYTES {
        return events, i, ended, Some(ResponseTooLarge);
      }
      var pushed := FeedChunk(parser, body, i);
      i := i + 1;
      if pushed.Overflow? {
        return events, i, ended, Some(BufferOverflow);
      }
      events := pushed.events;
    }
    if ended {
      events := FlushWhole(parser, body);
    }
    thrown := None;
  }

  method FlushWhole(parser: SseParser, body: Body) returns (events: seq<SseEvent>)
    requires Fed(parser, body, |body.chunks|) && body.end.Eof? && Delivered(StripBom(Received(body.chunks))) == []
    modifies parser
    ensures Flushed(parser) && events == Parse(TextOf(body))
  {
    assert body.chunks[..|body.chunks|] == body.chunks;
    events := parser.Flush(body.end.rest);
  }

  /** The parser and the state after the first `i` chunks, or after the end of the body. */
  ghost predicate Reading(parser: SseParser, state: StreamState, body: Body, i: nat, ended: bool)
    reads parser, state
  {
    if ended then
      && Flushed(parser) && i == |body.chunks| && body.end.Eof?
      && state.View() == FactsOf(Parse(TextOf(body)), state.codec)
    else
      Fed(parser, body, i) && state.View() == FactsOf(Delivered(StripBom(Received(body.chunks[..i]))), state.codec)
  }

  /** These are the facts of some first events of the stream: of what was read of it before it stopped. */
  ghost predicate ReadPart(f: Facts, body: Body, codec: Codec) {
    exists k: nat :: k <= |Parse(TextOf(body))| && f == FactsOf(Parse(TextOf(body))[..k], codec)
  }

  lemma ReadingIsPart(parser: SseParser, state: StreamState, body: Body, i: nat, ended: bool)
    requires Reading(parser, state, body, i, ended)
    ensures ReadPart(state.View(), body, state.codec)
  {
    var all := Parse(TextOf(body));
    if ended {
      assert all[..|all|] == all;
    } else {
      EarlierEvents(body, i);
      var k := |Delivered(StripBom(Received(body.chunks[..i])))|;
      assert all[..k] == Delivered(StripBom(Received(body.chunks[..i])));
    }
  }

  lemma WholeIsPart(body: Body, codec: Codec)
    ensures ReadPart(FactsOf(Parse(TextOf(body)), codec), body, codec)
  {
    var all := Parse(TextOf(body));
    assert all[..|all|] == all;
  }

  lemma UndisturbedStart(body: Body, limit: nat)
    ensures Undisturbed(body, limit) ==> Flows(body.firstWrite) && body.end.Eof?
  {
    hide Backlog;
  }

  /** The size of the first chunks, of those handed over at least. */
  ghost predicate CountedFrom(bytes: nat, body: Body, n: nat) {
    exists m: nat :: n <= m <= |body.chunks| && bytes == |BytesOf(body.chunks[..m])|
  }

  /** One round of the relaying loop: the chunk goes to the client before its events are read. */
  method RelayChunk(sink: ReplyStreamSink, body: Body, i: nat, parser: SseParser, state: StreamState)
    returns (thrown: Option<Error>, ghost handed: bool)
    requires i < |body.chunks| && Reading(parser, state, body, i, false)
    modifies sink`closed, sink`sent, parser, state
    ensures sink.sent == old(sink.sent) + if handed then body.chunks[i].bytes else []
    ensures thrown.None? ==> handed && Reading(parser, state, body, i + 1, false)
    ensures thrown.None? ==> Flows(body.chunks[i].write) && !sink.closed
    ensures thrown.Some? ==> state.View() == old(state.View())
    ensures thrown != Some(ResponseTooLarge)
    ensures thrown.Some? && !old(sink.closed) && Flows(body.chunks[i].write) ==>
      !sink.closed && !ShortEvents(body, i)
  {
    handed := !sink.closed && !body.chunks[i].write.closedFirst;
    thrown := sink.Write(body.chunks[i].bytes, body.chunks[i].write);
    if thrown.Some? {
      return;
    }
    var pushed := FeedChunk(parser, body, i);
    if pushed.Overflow? {
      return Some(BufferOverflow), handed;
    }
    state.Apply(pushed.events, Delivered(StripBom(Received(body.chunks[..i]))));
  }

  lemma NotYetEnded(parser: SseParser, state: StreamState, body: Body, i: nat, ended: bool)
    requires i < |body.chunks| && Reading(parser, state, body, i, ended)
    ensures !ended
  {
  }

  /** The relaying loop, from chunk `start` on; what went before it has been handed to the client. */
  method RelayChunks(sink: ReplyStreamSink, body: Body, start: nat, ended: bool, parser: SseParser, state: StreamState,
                     limit: nat, ghost base: seq<Byte>)
    returns (thrown: Option<Error>, bytes: nat, ghost n: nat)
    requires start <= |body.chunks| && Reading(parser, state, body, start, ended)
    requires !sink.closed && sink.sent == base + BytesOf(body.chunks[..start])
    modifies sink`closed, sink`sent, parser, state
    ensures n <= |body.chunks| && sink.sent == base + BytesOf(body.chunks[..n])
    ensures thrown.None? ==>
      && n == |body.chunks| && bytes == |BytesOf(body.chunks)| && !sink.closed
      && Reading(parser, state, body, n, ended)
    ensures CountedFrom(bytes, body, n) && ReadPart(state.View(), body, state.codec)
    ensures start <= n && (n > start ==> |BytesOf(body.chunks[..n])| <= limit)
    ensures thrown == Some(ResponseTooLarge) ==> n < |body.chunks| && |BytesOf(body.chunks[..n + 1])| > limit
    ensures Undisturbed(body, limit) ==> thrown.None?
  {
    hide Reading, Undisturbed, BytesOf, Received, Flows, ReadPart, StreamState.View;
    bytes, n, thrown := |BytesOf(body.chunks[..start])|, start, None;
    var i := start;
    while i < |body.chunks|
      invariant start <= i == n <= |body.chunks| && Reading(parser, state, body, i, ended) && thrown.None?
      invariant bytes == |BytesOf(body.chunks[..i])| && !sink.closed
      invariant sink.sent == base + BytesOf(body.chunks[..i])
      invariant i > start ==> bytes <= limit
    {
      OneMoreChunk(body.chunks, i);
      UndisturbedChunk(body, i, limit);
      ReadingIsPart(parser, state, body, i, ended);
      bytes := bytes + |body.chunks[i].bytes|;
      if bytes > limit {
        return Some(ResponseTooLarge), bytes, n;
      }
      NotYetEnded(parser, state, body, i, ended);
      ghost var handed;
      thrown, handed := RelayChunk(sink, body, i, parser, state);
      if thrown.Some? {
        n := if handed then i + 1 else i;
        return;
      }
      i, n := i + 1, i + 1;
    }
    assert body.chunks[..n] == body.chunks;
    ReadingIsPart(parser, state, body, n, ended);
  }

  lemma StartOfRelay(parser: SseParser, state: StreamState, body: Body, start: nat, ended: bool, limit: nat)
    requires start <= |body.chunks| && Reading(parser, state, body, start, ended)
    ensures ReadPart(state.View(), body, state.codec) && ReadPart(FactsOf(Parse(TextOf(body)), state.codec), body, state.codec)
    ensures Undisturbed(body, limit) ==> Flows(body.firstWrite) && body.end.Eof?
    ensures var bytes := |BytesOf(body.chunks[..start])|; CountedFrom(bytes, body, start) && CountedFrom(bytes, body, 0)
  {
    ReadingIsPart(parser, state, body, start, ended);
    WholeIsPart(body, state.codec);
    UndisturbedStart(body, limit);
    hide Undisturbed, ReadPart, Reading, Parse, TextOf, FactsOf, BytesOf;
  }

  /** What was read before the commit goes to the client in one write. */
  method WriteFirst(sink: ReplyStreamSink, body: Body, start: nat) returns (thrown: Option<Error>, ghost n: nat)
    requires start <= |body.chunks|
    modifies sink`closed, sink`sent
    ensures (n == 0 || n == start) && sink.sent == old(sink.sent) + BytesOf(body.chunks[..n])
    ensures thrown.None? ==> n == start && !sink.closed
    ensures thrown != Some(ResponseTooLarge)
    ensures !old(sink.closed) && Flows(body.firstWrite) ==> thrown.None?
  {
    n := if sink.closed || body.firstWrite.closedFirst then 0 else start;
    thrown := sink.Write(BytesOf(body.chunks[..start]), body.firstWrite);
  }

  /**
   The guarded part of pump: what was read before the commit, then chunk by chunk, then the end of
   the body. The first `n` chunks have been handed to the client.
   */
  method Relay(sink: ReplyStreamSink, body: Body, start: nat, ended: bool, parser: SseParser, state: StreamState, limit: nat)
    returns (thrown: Option<Error>, bytes: nat, ghost n: nat)
    requires start <= |body.chunks| && Reading(parser, state, body, start, ended)
    modifies sink`closed, sink`sent, parser, state
    ensures n <= |body.chunks| && sink.sent == old(sink.sent) + BytesOf(body.chunks[..n])
    ensures thrown.None? ==>
      && body.end.Eof? && n == |body.chunks| && bytes == |BytesOf(body.chunks)| && !sink.closed
      && state.View() == FactsOf(Parse(TextOf(body)), state.codec)
    ensures CountedFrom(bytes, body, n) && ReadPart(state.View(), body, state.codec)
    ensures n > start ==> |BytesOf(body.chunks[..n])| <= limit
    ensures thrown == Some(ResponseTooLarge) && body.end.Eof? ==> n < |body.chunks| && |BytesOf(body.chunks[..n + 1])| > limit
    ensures !old(sink.closed) && Undisturbed(body, limit) ==> thrown.None?
  {
    hide Reading, FactsOf, TextOf, Parse, ReadPart, Undisturbed, Flows, CountedFrom, BytesOf, StreamState.View;
    StartOfRelay(parser, state, body, start, ended, limit);
    bytes := |BytesOf(body.chunks[..start])|;
    thrown, n := WriteFirst(sink, body, start);
    if thrown.Some? {
      return;
    }
    thrown, bytes, n := RelayChunks(sink, body, start, ended, parser, state, limit, old(sink.sent));
    if thrown.Some? {
      return;
    }
    if body.end.Broken? {
      return Some(body.end.error), bytes, n;
    }
    FinishReading(body, ended, parser, state);
  }

  /** The flush at the end of the body: the second one, when the body ended before the commit, adds nothing. */
  method FinishReading(body: Body, ended: bool, parser: SseParser, state: StreamState)
    requires body.end.Eof? && Reading(parser, state, body, |body.chunks|, ended)
    modifies parser, state
    ensures state.View() == FactsOf(Parse(TextOf(body)), state.codec)
  {
    assert body.chunks[..|body.chunks|] == body.chunks;
    ghost var before := if ended then Parse(TextOf(body)) else Delivered(StripBom(Received(body.chunks)));
    var last := parser.Flush(if ended then [] else body.end.rest);
    assert ended ==> Parse([] + []) == Delivered([]) + last;
    state.Apply(last, before);
    assert ended ==> before + [] == before;
  }

  const CLIENT_CLOSED := Ascii("client_closed")
  const RESPONSE_TOO_LARGE := Ascii("upstream_response_too_large")
  const FIRST_EVENT_TIMEOUT := Ascii("first_event_timeout")
  const DEADLINE_EXCEEDED := Ascii("deadline_exceeded")
  const STREAM_IDLE_TIMEOUT := Ascii("stream_idle_timeout")
  const ABORTED := Ascii("aborted")
  const NETWORK_ERROR := Ascii("network_error")

  function TimeoutText(t: TimeoutCode): Text {
    if t.FirstEventTimeout? then FIRST_EVENT_TIMEOUT else DEADLINE_EXCEEDED
  }

  /** The catch branch of pump: the class of an interruption and its error code. */
  function Interruption(err: Error, clientClosed: bool, signals: Signals): (StreamClass, Text) {
    if err == Aborted(ClientClosed) || clientClosed || signals.call == Some(ClientClosed) then
      (ClientAborted, CLIENT_CLOSED)
    else if err.ResponseTooLarge? then (StreamTooLarge, RESPONSE_TOO_LARGE)
    else if signals.any.Some? && signals.any.value.StreamTimeout? then
      (StreamNetworkError, TimeoutText(signals.any.value.timeout))
    else if err.BodyTimeout? then (StreamNetworkError, STREAM_IDLE_TIMEOUT)
    else if signals.call.Some? then
      (StreamNetworkError, if signals.call.value.ProxyAbort? then signals.call.value.code else ABORTED)
    else (StreamNetworkError, NETWORK_ERROR)
  }

  /** No two of these codes are equal: they differ in length or in the first letter. */
  lemma CodesDiffer()
    ensures |CLIENT_CLOSED| == 13 == |NETWORK_ERROR| && CLIENT_CLOSED[0] != NETWORK_ERROR[0]
    ensures |FIRST_EVENT_TIMEOUT| == 19 == |STREAM_IDLE_TIMEOUT| && FIRST_EVENT_TIMEOUT[0] != STREAM_IDLE_TIMEOUT[0]
    ensures |RESPONSE_TOO_LARGE| == 27 && |DEADLINE_EXCEEDED| == 17 && |ABORTED| == 7
  {
  }

  /**
   What each class and code of an interruption stands for, unless the proxy aborted the call with a code
   of its own: the client's departure above all, then the size limit, a timer, the idle limit of the
   network, another abort of the call, and a network failure if there was none of these.
   */
  lemma InterruptionExactly(err: Error, clientClosed: bool, signals: Signals)
    requires !(signals.call.Some? && signals.call.value.ProxyAbort?)
    ensures var (classification, code) := Interruption(err, clientClosed, signals);
            var left := err == Aborted(ClientClosed) || clientClosed || signals.call == Some(ClientClosed);
            var large := err == ResponseTooLarge;
            var timer := signals.any.Some? && signals.any.value.StreamTimeout?;
            && (code == CLIENT_CLOSED <==> left) && (classification == ClientAborted <==> left)
            && (code == RESPONSE_TOO_LARGE <==> large && !left) && (classification == StreamTooLarge <==> large && !left)
            && (classification == StreamNetworkError <==> !left && !large)
            && (code == FIRST_EVENT_TIMEOUT <==> signals.any == Some(StreamTimeout(FirstEventTimeout)) && !left && !large)
            && (code == DEADLINE_EXCEEDED <==> signals.any == Some(StreamTimeout(DeadlineTimeout)) && !left && !large)
            && (code == STREAM_IDLE_TIMEOUT <==> err == BodyTimeout && !left && !timer)
            && (code == ABORTED <==> signals.call.Some? && !left && !large && !timer && err != BodyTimeout)
            && (code == NETWORK_ERROR <==> signals.call.None? && !left && !large && !timer && err != BodyTimeout)
  {
    CodesDiffer();
    hide Ascii;
  }

  /** The proxy's own abort is told by its code. */
  lemma ProxyAbortIsNamed(err: Error, signals: Signals, code: Text)
    requires signals.call == Some(ProxyAbort(code)) && !(signals.any.Some? && signals.any.value.StreamTimeout?)
    ensures Interruption(err, false, signals).1 == code <==>
            || (err != Aborted(ClientClosed) && err != ResponseTooLarge && err != BodyTimeout)
            || (err == Aborted(ClientClosed) && code == CLIENT_CLOSED)
            || (err == ResponseTooLarge && code == RESPONSE_TOO_LARGE)
            || (err == BodyTimeout && code == STREAM_IDLE_TIMEOUT)
  {
    hide Ascii;
  }

  /** tryWrite: the proxy's own error event, unless the client is known to have left. */
  method TryWrite(sink: ReplyStreamSink, text: seq<Byte>, env: WriteEnv) returns (ghost notice: seq<Byte>)
    modifies sink`closed, sink`sent
    ensures sink.sent == old(sink.sent) + notice && (notice == [] || notice == text)
    ensures !sink.closed ==> notice == text
    ensures !old(sink.closed) && Flows(env) ==> !sink.closed
  {
    notice := [];
    if sink.closed {
      return;
    }
    notice := if env.closedFirst then [] else text;
    var _ := sink.Write(text, env);
  }

  /** What follows the relayed bytes: only some endings are told to the client, with one error event. */
  predicate NoticeFits(notice: seq<Byte>, outcome: StreamOutcome, clientClosed: bool, client: Client) {
    match outcome.classification {
      case StreamSuccess => notice == []
      case StreamUpstreamError => notice == []
      case ClientAborted => notice == []
      case StreamIncomplete => notice == client.errorEvent(STREAM_INCOMPLETE) || (notice == [] && clientClosed)
      case _ =>
        && outcome.errorCode.Some?
        && (notice == client.errorEvent(outcome.errorCode.value) || (notice == [] && clientClosed))
    }
  }

  /** The end of pump after an interruption. */
  method Interrupted(client: Client, sink: ReplyStreamSink, err: Error, signals: Signals, body: Body, bytes: nat,
                     facts: Facts, attempt: AttemptNo)
    returns (outcome: StreamOutcome, ghost notice: seq<Byte>)
    modifies sink`closed, sink`sent
    ensures sink.sent == old(sink.sent) + notice && NoticeFits(notice, outcome, sink.closed, client)
    ensures !EndedByItself(outcome.classification) && outcome.attemptCount == attempt
    ensures outcome.facts == facts && outcome.responseBytes == bytes
    ensures outcome.errorCode.Some? &&
            (outcome.classification, outcome.errorCode.value) == Interruption(err, old(sink.closed) || signals.clientClosed, signals)
  {
    if signals.clientClosed {
      sink.OnClose();
    }
    var (classification, code) := Interruption(err, sink.closed, signals);
    notice := [];
    if classification != ClientAborted {
      notice := TryWrite(sink, client.errorEvent(code), body.errorWrite);
    }
    outcome := StreamOutcome(classification, attempt, bytes, facts, Some(code));
  }

  /** The end of pump at the end of the body. */
  method Complete(client: Client, sink: ReplyStreamSink, body: Body, facts: Facts, attempt: AttemptNo)
    returns (outcome: StreamOutcome, ghost notice: seq<Byte>)
    modifies sink`closed, sink`sent
    ensures sink.sent == old(sink.sent) + notice && NoticeFits(notice, outcome, sink.closed, client)
    ensures outcome.classification == ClassOf(facts) && outcome.facts == facts && outcome.attemptCount == attempt
    ensures outcome.responseBytes == |BytesOf(body.chunks)|
    ensures outcome.errorCode == CodeOf(facts)
    ensures !old(sink.closed) && Flows(body.errorWrite) ==> !sink.closed
  {
    var errorCode: Option<Text> := None;
    notice := [];
    if facts.error.Some? {
      errorCode := Some(facts.error.value.code);
    } else if !facts.sawDone {
      errorCode := Some(EOF_WITHOUT_DONE);
      notice := TryWrite(sink, client.errorEvent(STREAM_INCOMPLETE), body.errorWrite);
    }
    outcome := StreamOutcome(ClassOf(facts), attempt, |BytesOf(body.chunks)|, facts, errorCode);
  }

  /**
   pump: after the commit the client gets a part of the body, all of it if the body ends by itself,
   and then at most one error event of the proxy.
   */
  method Pump(client: Client, sink: ReplyStreamSink, body: Body, start: nat, ended: bool, parser: SseParser,
              state: StreamState, signals: Signals, attempt: AttemptNo)
    returns (outcome: StreamOutcome, ghost n: nat, ghost notice: seq<Byte>)
    requires start <= |body.chunks| && Reading(parser, state, body, start, ended) && state.codec == client.codec
    modifies sink`closed, sink`sent, sink`ended, parser, state
    ensures n <= |body.chunks| && sink.sent == old(sink.sent) + BytesOf(body.chunks[..n]) + notice
    ensures NoticeFits(notice, outcome, sink.closed, client) && outcome.attemptCount == attempt
    ensures sink.ended || sink.closed
    ensures CountedFrom(outcome.responseBytes, body, n) && ReadPart(outcome.facts, body, client.codec)
    ensures n > start ==> |BytesOf(body.chunks[..n])| <= client.streamLimitBytes
    ensures outcome.classification.StreamTooLarge? && body.end.Eof? ==>
      n < |body.chunks| && |BytesOf(body.chunks[..n + 1])| > client.streamLimitBytes
    ensures EndedByItself(outcome.classification) ==>
      && body.end.Eof? && n == |body.chunks| && outcome.responseBytes == |BytesOf(body.chunks)|
      && outcome.facts == FactsOf(Parse(TextOf(body)), client.codec)
      && outcome.classification == ClassOf(outcome.facts) && outcome.errorCode == CodeOf(outcome.facts)
      && (Flows(body.errorWrite) ==> !sink.closed)
    ensures !old(sink.closed) && Undisturbed(body, client.streamLimitBytes) ==> EndedByItself(outcome.classification)
  {
    hide Reading, FactsOf, TextOf, Undisturbed, Parse, BytesOf, CodeOf, ReadPart, CountedFrom;
    var thrown, bytes;
    thrown, bytes, n := Relay(sink, body, start, ended, parser, state, client.streamLimitBytes);
    var facts := Facts(state.usage, state.modelUsed, state.upstreamId, state.error, state.sawDone);
    if thrown.Some? {
      outcome, notice := Interrupted(client, sink, thrown.value, signals, body, bytes, facts, attempt);
    } else {
      outcome, notice := Complete(client, sink, body, facts, attempt);
    }
    sink.End();
  }

  /** preCommitFailure: an exception before the commit; only an oversized reply and the deadline are final. */
  function PreCommitFailure(client: Client, deadline: Deadline, err: Error, attempt: AttemptNo, env: Attempt): StreamStep {
    var timedOut := env.signals.own.Some? || err.HeadersTimeout?;
    var result :=
      if !timedOut && err.ResponseTooLarge? then FailedResult(502, TooLarge, attempt)
      else FailedResult(504, NetworkError, attempt);
    var retry :=
      && !result.classification.TooLarge? && env.signals.own != Some(DeadlineTimeout)
      && ShouldRetry(NetworkError, attempt, env.failedAt, deadline, client.policy, env.signals.call.Some?);
    Failed(result, retry, if retry then ComputeBackoffMs(attempt) else 0)
  }

  /** A classified reply that commits nothing. */
  function Unstreamed(client: Client, deadline: Deadline, result: FailedResult, waitMs: nat, attempt: AttemptNo, env: Attempt): StreamStep
    requires result.FailedResult?
  {
    var retry := ShouldRetry(result.classification, attempt, env.failedAt, deadline, client.policy, env.signals.call.Some?);
    Failed(result, retry, if retry then waitMs else 0)
  }

  /** nonStreamResponse: a 200 that is not a stream has been paid for and is not repeated. */
  function NonStreamResponse(client: Client, deadline: Deadline, attempt: AttemptNo, env: Attempt): StreamStep
    requires env.reply.NotAStream?
  {
    var r := env.reply;
    if r.readError.Some? then PreCommitFailure(client, deadline, r.readError.value, attempt, env)
    else if r.status == 200 then Failed(FailedResult(502, MalformedSuccess(false), attempt), false, 0)
    else
      var c := ClassifyHttp(r.status, r.parsed, client.text);
      Unstreamed(client, deadline, FailedResult(r.status, c, attempt), RetryWaitMs(c, r.retryAfter, attempt), attempt, env)
  }

  /** The decision after the first event of a stream has been awaited; `None` means to commit. */
  function BeforeCommit(client: Client, deadline: Deadline, events: seq<SseEvent>, attempt: AttemptNo, env: Attempt): Option<StreamStep> {
    if events == [] then
      Some(Unstreamed(client, deadline, FailedResult(502, MalformedSuccess(true), attempt), ComputeBackoffMs(attempt), attempt, env))
    else
      var meaning := InterpretChatChunk(events[0], client.codec);
      if meaning.Error? then
        var code := if meaning.code.Some? then meaning.code.value else UPSTREAM_ERROR;
        var c := BodyLevelError(code, meaning.message, IsRetryableBodyCode(code));
        var status := if meaning.httpCode.Some? then meaning.httpCode.value else 502;
        Some(Unstreamed(client, deadline, FailedResult(status, c, attempt), ComputeBackoffMs(attempt), attempt, env))
      else None
  }

  /** Another attempt is possible: one is left, the call is not cancelled, and more than the reserved time is left. */
  predicate AnotherPossible(client: Client, deadline: Deadline, attempt: AttemptNo, env: Attempt) {
    && attempt < client.policy.maxAttempts && env.signals.call.None?
    && env.failedAt < deadline.deadlineAt - client.policy.minRemainingMs
  }

  /**
   A failure before the commit: a 502 for an oversized reply, unless the attempt's own timer ended it, and
   otherwise a 504. It is repeated after the backoff unless the reply was too large or the deadline over.
   */
  lemma PreCommitExactly(client: Client, deadline: Deadline, err: Error, attempt: AttemptNo, env: Attempt)
    ensures var step := PreCommitFailure(client, deadline, err, attempt, env);
            var large := err == ResponseTooLarge && env.signals.own == None;
            && step.Failed? && step.result.FailedResult? && step.result.attemptCount == attempt
            && (large ==> step.result.statusCode == 502 && step.result.classification == TooLarge)
            && (!large ==> step.result.statusCode == 504 && step.result.classification == NetworkError)
            && (step.retry <==>
                !large && env.signals.own != Some(DeadlineTimeout) && AnotherPossible(client, deadline, attempt, env))
            && step.waitMs == (if step.retry then ComputeBackoffMs(attempt) else 0)
  {
  }

  /**
   A reply that is no stream: one that cannot be read is a failure before the commit, a 200 is final, any
   other is answered with its own status and repeated by its class.
   */
  lemma NonStreamExactly(client: Client, deadline: Deadline, attempt: AttemptNo, env: Attempt)
    requires env.reply.NotAStream?
    ensures var step, r := NonStreamResponse(client, deadline, attempt, env), env.reply;
            if r.readError.Some? then step == PreCommitFailure(client, deadline, r.readError.value, attempt, env)
            else
            && step.Failed? && step.result.FailedResult? && step.result.attemptCount == attempt
            && (r.status == 200 ==>
                  step.result.statusCode == 502 && step.result.classification == MalformedSuccess(false) && !step.retry && step.waitMs == 0)
            && (r.status != 200 ==>
                  && step.result.statusCode == r.status
                  && step.result.classification == ClassifyHttp(r.status, r.parsed, client.text)
                  && (step.retry <==> Retryable(step.result.classification) && AnotherPossible(client, deadline, attempt, env))
                  && step.waitMs == (if step.retry then RetryWaitMs(step.result.classification, r.retryAfter, attempt) else 0))
  {
    hide ClassifyHttp, RetryWaitMs, PreCommitFailure;
  }

  /** A stream without any event is answered with a 502 and repeated after the backoff. */
  lemma EmptyStreamExactly(client: Client, deadline: Deadline, attempt: AttemptNo, env: Attempt)
    ensures var again := AnotherPossible(client, deadline, attempt, env);
            BeforeCommit(client, deadline, [], attempt, env) ==
            Some(Failed(FailedResult(502, MalformedSuccess(true), attempt), again, if again then ComputeBackoffMs(attempt) else 0))
  {
  }

  /**
   A stream that starts with an error is answered with that error: with its status if it tells one and a
   502 otherwise, and repeated after the backoff if its code is on the list.
   */
  lemma FirstErrorExactly(client: Client, deadline: Deadline, ev: SseEvent, more: seq<SseEvent>, obj: Json, attempt: AttemptNo, env: Attempt)
    requires SameObject(ev, obj, client.codec) && IsErrorObject(obj.fields)
    ensures var step, error := BeforeCommit(client, deadline, [ev] + more, attempt, env), FactsOf([ev], client.codec).error;
            && step.Some? && step.value.Failed? && step.value.result.FailedResult? && error.Some?
            && var result := step.value.result;
               && result.attemptCount == attempt
               && result.classification == BodyLevelError(error.value.code, error.value.message, IsRetryableBodyCode(error.value.code))
               && (forall n :: TellsStatus(obj.fields[ERROR], n) ==> result.statusCode == n)
               && ((forall n :: !TellsStatus(obj.fields[ERROR], n)) ==> result.statusCode == 502)
               && (step.value.retry <==>
                   IsRetryableBodyCode(error.value.code) && AnotherPossible(client, deadline, attempt, env))
               && step.value.waitMs == (if step.value.retry then ComputeBackoffMs(attempt) else 0)
  {
    OneEventTells(ev, client.codec);
    ErrorStatus(ev, obj, client.codec);
    hide FactsOf, InterpretChatChunk, IsStatus, IsErrorObject, SameObject, IsRetryableBodyCode, ComputeBackoffMs;
    var m := InterpretChatChunk(ev, client.codec);
    assert m.httpCode.Some? ==> TellsStatus(obj.fields[ERROR], m.httpCode.value);
  }

  /** The result of an attempt that did not commit agrees with the verdict on its whole body. */
  predicate AgreesUncommitted(result: FailedResult, verdict: Verdict) {
    && result.FailedResult?
    && match result.classification {
         case MalformedSuccess(_) => verdict == Empty
         case BodyLevelError(code, message, _) => verdict == Rejected(code, message, result.statusCode)
         case c => c == NetworkError || c == TooLarge
       }
  }

  /** So does the outcome of a committed stream: completely if the body ended by itself. */
  predicate AgreesCommitted(outcome: StreamOutcome, body: Body, client: Client) {
    var verdict := VerdictOf(Parse(TextOf(body)), client.codec);
    && verdict.Relayed?
    && (EndedByItself(outcome.classification) ==>
          && verdict == Relayed(outcome.classification, outcome.facts, outcome.errorCode)
          && outcome.responseBytes == |BytesOf(body.chunks)|)
  }

  /** The step of an attempt that reads a whole stream of these events: retry, wait and outcome included. */
  function WholeStep(client: Client, deadline: Deadline, events: seq<SseEvent>, bytes: nat, attempt: AttemptNo, env: Attempt): StreamStep {
    var decided := BeforeCommit(client, deadline, events, attempt, env);
    var f := FactsOf(events, client.codec);
    if decided.Some? then decided.value
    else Finished(StreamOutcome(ClassOf(f), attempt, bytes, f, CodeOf(f)))
  }

  /** An attempt that was not interrupted ended with that step. */
  predicate FollowsFromText(step: StreamStep, client: Client, deadline: Deadline, body: Body, attempt: AttemptNo, env: Attempt) {
    Conclusive(step) ==>
      step == WholeStep(client, deadline, Parse(TextOf(body)), |BytesOf(body.chunks)|, attempt, env)
  }

  /** The attempt went through without an interruption. */
  predicate Conclusive(step: StreamStep) {
    match step {
      case Finished(outcome) => EndedByItself(outcome.classification)
      case Failed(result, _, _) =>
        result.FailedResult? && (result.classification.MalformedSuccess? || result.classification.BodyLevelError?)
    }
  }

  function RetryAfterOf(reply: Reply): Option<nat> {
    if reply.NotAStream? then reply.retryAfter else None
  }

  /** A failure of this class is repeated if another attempt is possible: if it may pass and was not the deadline's. */
  predicate Repeats(c: Classification, client: Client, deadline: Deadline, attempt: AttemptNo, env: Attempt) {
    && Retryable(c) && AnotherPossible(client, deadline, attempt, env)
    && !(c.NetworkError? && env.signals.own == Some(DeadlineTimeout))
  }

  /** The step is repeated exactly then, after the wait that Retry-After or the backoff sets. */
  predicate RetriesFit(client: Client, deadline: Deadline, step: StreamStep, attempt: AttemptNo, env: Attempt)
    requires step.Failed? && step.result.FailedResult?
  {
    var c := step.result.classification;
    && (step.retry <==> Repeats(c, client, deadline, attempt, env))
    && step.waitMs == if step.retry then RetryWaitMs(c, RetryAfterOf(env.reply), attempt) else 0
  }

  /** The first events decide about the commit as all of them would. */
  lemma FirstEventsDecide(client: Client, deadline: Deadline, some: seq<SseEvent>, all: seq<SseEvent>, attempt: AttemptNo, env: Attempt)
    requires some <= all && (some == [] ==> all == [])
    ensures var step := BeforeCommit(client, deadline, some, attempt, env);
            var verdict := VerdictOf(all, client.codec);
            var f := FactsOf(all, client.codec);
            && step == BeforeCommit(client, deadline, all, attempt, env)
            && (step.None? ==> some != [] && verdict == Relayed(ClassOf(f), f, CodeOf(f)))
            && (step.Some? ==>
                  && step.value.Failed? && step.value.result.attemptCount == attempt
                  && AgreesUncommitted(step.value.result, verdict) && Conclusive(step.value)
                  && RetriesFit(client, deadline, step.value, attempt, env))
  {
    if some != [] {
      assert some[0] == all[0];
    }
  }

  /** Exactly `n` chunks of the committed body reached the client, then the notice that fits the outcome. */
  ghost predicate Delivers(sent: seq<Byte>, before: seq<Byte>, n: nat, notice: seq<Byte>, outcome: StreamOutcome,
                     clientClosed: bool, body: Body, client: Client) {
    && n <= |body.chunks| && sent == before + BytesOf(body.chunks[..n]) + notice
    && (EndedByItself(outcome.classification) ==> n == |body.chunks|)
    && NoticeFits(notice, outcome, clientClosed, client) && AgreesCommitted(outcome, body, client)
    && CountedFrom(outcome.responseBytes, body, n) && ReadPart(outcome.facts, body, client.codec)
    && (|BytesOf(body.chunks[..n])| <= PRE_COMMIT_LIMIT_BYTES || |BytesOf(body.chunks[..n])| <= client.streamLimitBytes)
    && (EndedByItself(outcome.classification) && Flows(body.errorWrite) ==> !clientClosed)
  }

  /** A stream's attempt: nothing reaches the client unless it commits, and then one head and a part of the body. */
  method StreamBody(client: Client, deadline: Deadline, sink: ReplyStreamSink, attempt: AttemptNo, env: Attempt)
    returns (step: StreamStep, ghost n: nat, ghost notice: seq<Byte>)
    requires env.reply.Streaming? && !sink.isCommitted
    modifies sink
    ensures step.Failed? ==>
      && !sink.isCommitted && sink.heads == old(sink.heads) && sink.sent == old(sink.sent) && sink.ended == old(sink.ended)
      && step.result.FailedResult? && step.result.attemptCount == attempt && RetriesFit(client, deadline, step, attempt, env)
      && AgreesUncommitted(step.result, VerdictOf(Parse(TextOf(env.reply.body)), client.codec))
    ensures step.Finished? ==>
      && sink.isCommitted && sink.heads == old(sink.heads) + 1 && (sink.ended || sink.closed)
      && step.outcome.attemptCount == attempt
      && Delivers(sink.sent, old(sink.sent), n, notice, step.outcome, sink.closed, env.reply.body, client)
    ensures FollowsFromText(step, client, deadline, env.reply.body, attempt, env)
    ensures !old(sink.closed) && Undisturbed(env.reply.body, client.streamLimitBytes) ==> Conclusive(step)
  {
    hide FactsOf, TextOf, Parse, BytesOf, Received, ClassOf, CodeOf, NoticeFits, InterpretChatChunk, BeforeCommit, VerdictOf,
         ReadPart, CountedFrom, AgreesUncommitted, RetriesFit, Received, Delivered, Run, StripBom, Flows, ShortEvents, StartsInTime, PreCommitFailure;
    var body := env.reply.body;
    n, notice := 0, [];
    var parser := new SseParser(PARSER_LIMIT_BYTES);
    StartOfBody(parser, body);
    var events, i, ended, thrown := AwaitFirstEvent(body, parser);
    if thrown.Some? {
      FailureFits(client, deadline, thrown.value, attempt, env, VerdictOf(Parse(TextOf(body)), client.codec));
      return PreCommitFailure(client, deadline, thrown.value, attempt, env), n, notice;
    }
    EarlierEvents(body, i);
    FirstEventsDecide(client, deadline, events, Parse(TextOf(body)), attempt, env);
    var decided := BeforeCommit(client, deadline, events, attempt, env);
    if decided.Some? {
      return decided.value, n, notice;
    }
    var state := new StreamState(client.codec);
    state.Apply(events, []);
    assert [] + events == events;
    sink.Commit();
    var outcome;
    outcome, n, notice := Pump(client, sink, body, i, ended, parser, state, env.signals, attempt);
    LessOfBody(body.chunks, n, i);
    step := Finished(outcome);
  }

  /** A failure before the commit fits any verdict and concludes nothing. */
  lemma FailureFits(client: Client, deadline: Deadline, err: Error, attempt: AttemptNo, env: Attempt, verdict: Verdict)
    ensures var step := PreCommitFailure(client, deadline, err, attempt, env);
            && step.Failed? && step.result.FailedResult? && step.result.attemptCount == attempt
            && RetriesFit(client, deadline, step, attempt, env) && AgreesUncommitted(step.result, verdict) && !Conclusive(step)
  {
  }

  lemma StartOfBody(parser: SseParser, body: Body)
    requires parser.Valid() && parser.Seen() == [] && !parser.started && parser.maxBufferedBytes == PARSER_LIMIT_BYTES
    ensures Fed(parser, body, 0)
  {
    assert Received(body.chunks[..0]) == [];
  }

  /** An attempt up to its observation: a reply without a stream, or a stream. */
  method StreamAttempt(client: Client, deadline: Deadline, sink: ReplyStreamSink, attempt: AttemptNo, env: Attempt)
    returns (step: StreamStep, seen: Observation, ghost n: nat, ghost notice: seq<Byte>)
    requires !sink.isCommitted
    modifies sink
    ensures step.Failed? ==>
      && !sink.isCommitted && sink.heads == old(sink.heads) && sink.sent == old(sink.sent) && sink.ended == old(sink.ended)
      && step.result.FailedResult? && step.result.attemptCount == attempt && RetriesFit(client, deadline, step, attempt, env)
      && seen == Observation(attempt, ObservedFailure(step.result.classification))
    ensures step.Finished? ==>
      && sink.isCommitted && sink.heads == old(sink.heads) + 1 && (sink.ended || sink.closed)
      && seen == Observation(attempt, ObservedStream(step.outcome)) && step.outcome.attemptCount == attempt
      && env.reply.Streaming? && Delivers(sink.sent, old(sink.sent), n, notice, step.outcome, sink.closed, env.reply.body, client)
    ensures env.reply.Streaming? && step.Failed? ==>
      AgreesUncommitted(step.result, VerdictOf(Parse(TextOf(env.reply.body)), client.codec))
    ensures env.reply.Streaming? ==> FollowsFromText(step, client, deadline, env.reply.body, attempt, env)
    ensures env.reply.Streaming? && !old(sink.closed) && Undisturbed(env.reply.body, client.streamLimitBytes) ==>
      Conclusive(step)
  {
    hide Delivers, Conclusive, Undisturbed, AgreesUncommitted, VerdictOf, WholeStep, FollowsFromText;
    n, notice := 0, [];
    match env.reply {
      case NoReply(error) => step := PreCommitFailure(client, deadline, error, attempt, env);
      case NotAStream(_, _, _, _) => step := NonStreamResponse(client, deadline, attempt, env);
      case Streaming(_) => step, n, notice := StreamBody(client, deadline, sink, attempt, env);
    }
    seen := Observation(attempt, if step.Finished? then ObservedStream(step.outcome) else ObservedFailure(step.result.classification));
  }

  /** After this attempt comes another: it failed in a way that is repeated, and there is time for the wait. */
  predicate GoesOnAfter(o: Observation, client: Client, deadline: Deadline, env: Attempt) {
    && o.observed.ObservedFailure? && Repeats(o.observed.classification, client, deadline, o.attemptNo, env)
    && deadline.HasTimeFor(env.failedAt, RetryWaitMs(o.observed.classification, RetryAfterOf(env.reply), o.attemptNo))
  }

  /** One observation per attempt, numbered from one and started in time; exactly the last is one after which none comes. */
  predicate Numbered(observed: seq<Observation>, client: Client, deadline: Deadline, attempts: AttemptNo -> Attempt) {
    && (forall i :: 0 <= i < |observed| ==>
          observed[i].attemptNo == i + 1 && deadline.HasTimeFor(attempts(i + 1).startedAt, 0))
    && (forall i :: 0 <= i < |observed| - 1 ==> GoesOnAfter(observed[i], client, deadline, attempts(i + 1)))
  }

  /**
   executeStreaming: over all attempts the client gets nothing unless one commits; that one is the
   last, gives the only head, and its body is what the client gets, up to an interruption and
   followed by at most one error event of the proxy.
   */
  method ExecuteStreaming(client: Client, deadline: Deadline, sink: ReplyStreamSink, attempts: AttemptNo -> Attempt)
    returns (exec: StreamExecution, observed: seq<Observation>, ghost n: nat, ghost notice: seq<Byte>)
    requires !sink.isCommitted
    modifies sink
    ensures Numbered(observed, client, deadline, attempts) && |observed| <= client.policy.maxAttempts
    ensures exec.NotCommitted? ==>
      && !sink.isCommitted && sink.heads == old(sink.heads) && sink.sent == old(sink.sent) && sink.ended == old(sink.ended)
      && exec.result.attemptCount == |observed|
      && (|observed| > 0 ==> observed[|observed| - 1].observed.ObservedFailure?)
      && (exec.result.DeadlineExceeded? ==>
            client.policy.maxAttempts == 0 || !deadline.HasTimeFor(attempts(|observed| + 1).startedAt, 0))
      && (exec.result.FailedResult? ==>
            && |observed| > 0 && observed[|observed| - 1].observed.classification == exec.result.classification
            && !GoesOnAfter(observed[|observed| - 1], client, deadline, attempts(|observed|)))
    ensures exec.Committed? ==>
      && sink.isCommitted && sink.heads == old(sink.heads) + 1 && (sink.ended || sink.closed)
      && exec.outcome.attemptCount == |observed| && observed[|observed| - 1].observed == ObservedStream(exec.outcome)
      && attempts(|observed|).reply.Streaming?
      && Delivers(sink.sent, old(sink.sent), n, notice, exec.outcome, sink.closed, attempts(|observed|).reply.body, client)
  {
    hide Delivers, Conclusive, Undisturbed, AgreesUncommitted, VerdictOf, FollowsFromText;
    n, notice := 0, [];
    observed := [];
    var lastResult: Option<FailedResult> := None;
    var attempt: AttemptNo := 1;
    while attempt <= client.policy.maxAttempts
      invariant |observed| == attempt - 1 <= client.policy.maxAttempts
      invariant Numbered(observed, client, deadline, attempts)
      invariant observed != [] ==> GoesOnAfter(observed[|observed| - 1], client, deadline, attempts(|observed|))
      invariant !sink.isCommitted && sink.heads == old(sink.heads) && sink.sent == old(sink.sent) && sink.ended == old(sink.ended)
      invariant observed == [] <==> lastResult.None?
      invariant attempt > client.policy.maxAttempts ==> observed == []
    {
      if !deadline.HasTimeFor(attempts(attempt).startedAt, 0) {
        return NotCommitted(DeadlineExceeded(attempt - 1)), observed, n, notice;
      }
      var step, seen;
      step, seen, n, notice := StreamAttempt(client, deadline, sink, attempt, attempts(attempt));
      observed := observed + [seen];
      if step.Finished? {
        return Committed(step.outcome), observed, n, notice;
      }
      lastResult := Some(step.result);
      if !step.retry || !deadline.HasTimeFor(attempts(attempt).failedAt, step.waitMs) {
        return NotCommitted(step.result), observed, n, notice;
      }
      attempt := attempt + 1;
    }
    // Reached only when no attempt is allowed at all.
    exec := NotCommitted(lastResult.GetOr(DeadlineExceeded(client.policy.maxAttempts)));
  }

  /** The decoder gives, chunk by chunk and at the end, what it would give for all bytes at once. */
  ghost predicate Decodes(body: Body, decode: seq<Byte> -> Text) {
    && body.end.Eof? && (Received(body.chunks) == [] ==> body.end.rest == [] || body.end.rest[0] != BOM)
    && Received(body.chunks) + body.end.rest == decode(BytesOf(body.chunks))
  }

  /** Two cuttings of the same bytes have the same text. */
  lemma SameText(a: Body, b: Body, decode: seq<Byte> -> Text)
    requires Decodes(a, decode) && Decodes(b, decode) && BytesOf(a.chunks) == BytesOf(b.chunks)
    ensures TextOf(a) == TextOf(b) == StripBom(decode(BytesOf(a.chunks)))
  {
    StripBomAppend(Received(a.chunks), a.end.rest);
    StripBomAppend(Received(b.chunks), b.end.rest);
  }

  /** What reached the client of a stream that ended by itself, the notice having been taken. */
  lemma SentOfWhole(sent: seq<Byte>, n: nat, notice: seq<Byte>, outcome: StreamOutcome, closed: bool, body: Body, client: Client)
    requires EndedByItself(outcome.classification) && Flows(body.errorWrite)
    ensures Delivers(sent, [], n, notice, outcome, closed, body, client) ==>
      sent == BytesOf(body.chunks) +
              if outcome.classification.StreamIncomplete? then client.errorEvent(STREAM_INCOMPLETE) else []
  {
    hide AgreesCommitted, CountedFrom, ReadPart;
    if Delivers(sent, [], n, notice, outcome, closed, body, client) {
      assert body.chunks[..n] == body.chunks;
      assert [] + BytesOf(body.chunks) == BytesOf(body.chunks);
    }
  }

  /**
   Two executions of an attempt on the same bytes, cut differently: barring faults and limits they
   commit or fail alike, with the same result, retry and wait or the same outcome (class, error code,
   error, usage, id, model and size), and send the client the same bytes.
   */
  method RunTwoCuttings(client: Client, deadline: Deadline, attempt: AttemptNo, env: Attempt, a: Body, b: Body,
                        ghost decode: seq<Byte> -> Text)
    returns (stepA: StreamStep, stepB: StreamStep, sentA: seq<Byte>, sentB: seq<Byte>)
    requires Decodes(a, decode) && Decodes(b, decode) && BytesOf(a.chunks) == BytesOf(b.chunks)
    requires Undisturbed(a, client.streamLimitBytes) && Undisturbed(b, client.streamLimitBytes)
    ensures Conclusive(stepA) && stepA == stepB
    ensures Flows(a.errorWrite) && Flows(b.errorWrite) ==> sentA == sentB
  {
    hide Decodes, Undisturbed, AgreesUncommitted, AgreesCommitted, VerdictOf, TextOf, Parse, BytesOf, FactsOf, BeforeCommit, Delivers;
    SameText(a, b, decode);
    var sinkA := new ReplyStreamSink();
    var sinkB := new ReplyStreamSink();
    var seen;
    ghost var n, notice, m, told;
    stepA, seen, n, notice := StreamAttempt(client, deadline, sinkA, attempt, env.(reply := Streaming(a)));
    stepB, seen, m, told := StreamAttempt(client, deadline, sinkB, attempt, env.(reply := Streaming(b)));
    SameStep(client, deadline, Parse(TextOf(a)), |BytesOf(a.chunks)|, attempt, env, Streaming(a), Streaming(b));
    sentA, sentB := sinkA.sent, sinkB.sent;
    if stepA.Finished? && Flows(a.errorWrite) && Flows(b.errorWrite) {
      SentOfWhole(sentA, n, notice, stepA.outcome, sinkA.closed, a, client);
      SentOfWhole(sentB, m, told, stepB.outcome, sinkB.closed, b, client);
    }
  }

  /** The step on a whole text looks at no other part of the reply. */
  lemma SameStep(client: Client, deadline: Deadline, events: seq<SseEvent>, bytes: nat, attempt: AttemptNo, env: Attempt,
                 a: Reply, b: Reply)
    ensures WholeStep(client, deadline, events, bytes, attempt, env.(reply := a)) ==
            WholeStep(client, deadline, events, bytes, attempt, env.(reply := b))
  {
  }
}
