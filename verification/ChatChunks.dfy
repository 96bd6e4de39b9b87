/**
 What one event of a chat stream means (interpretChatChunk of src/upstream/sse-parser.ts) and what
 is kept of all of them (StreamState of src/upstream/openai-compatible-client.ts).
 */
module ChatChunks {
  import opened Wrappers
  import opened EventStream
  import opened Json
  import EventRendering

  /** The two conversions of the language: JSON.parse (`None` when it throws) and String(number). */
  datatype Codec = Codec(parse: Text -> Option<Json>, show: real -> Text)

  datatype ChunkMeaning =
    | Done
    | Error(code: Option<Text>, message: Text, httpCode: Option<int>)
    | Chunk(id: Option<Text>, model: Option<Text>, usage: Option<Json>, finishReason: Option<Text>, hasChoices: bool)
    | Opaque

  const ID := Ascii("id")
  const CODE := Ascii("code")
  const TYPE := Ascii("type")
  const USAGE := Ascii("usage")
  const MODEL := Ascii("model")
  const ERROR := Ascii("error")
  const PARAM := Ascii("param")
  const STATUS := Ascii("status")
  const MESSAGE := Ascii("message")
  const CHOICES := Ascii("choices")
  const FINISH_REASON := Ascii("finish_reason")
  const UPSTREAM_ERROR := Ascii("upstream_error")
  const NO_MESSAGE := Ascii("upstream error")
  const SERVER_ERROR := Ascii("server_error")

  /** The white space and line terminators that String.prototype.trim removes. */
  predicate IsBlank(c: CodeUnit) {
    || 0x09 <= c <= 0x0d || c == 0x20 || c == 0xa0 || c == 0x1680 || 0x2000 <= c <= 0x200a
    || c == 0x2028 || c == 0x2029 || c == 0x202f || c == 0x205f || c == 0x3000 || c == 0xfeff
  }

  function TrimStart(t: Text): Text {
    if t != [] && IsBlank(t[0]) then TrimStart(t[1..]) else t
  }

  function TrimEnd(t: Text): Text {
    if t != [] && IsBlank(t[|t| - 1]) then TrimEnd(t[..|t| - 1]) else t
  }

  function Trim(t: Text): Text {
    TrimEnd(TrimStart(t))
  }

  predicate IsDigit(c: CodeUnit) {
    0x30 <= c <= 0x39
  }

  /** asHttpCode: an integer from 400 to 599, as a number or as three digits. */
  function AsHttpCode(v: Option<Json>): Option<int> {
    var n :=
      if v.Some? && v.value.Number? && v.value.number == v.value.number.Floor as real then v.value.number.Floor
      else if v.Some? && v.value.Str? && |v.value.text| == 3 && (forall i :: 0 <= i < 3 ==> IsDigit(v.value.text[i]))
      then (v.value.text[0] - 0x30) * 100 + (v.value.text[1] - 0x30) * 10 + (v.value.text[2] - 0x30)
      else 0;
    if 400 <= n <= 599 then Some(n) else None
  }

  /** The three decimal digits of a number. */
  function Digits(n: int): Text
    requires 100 <= n <= 999
  {
    [0x30 + n / 100, 0x30 + n / 10 % 10, 0x30 + n % 10]
  }

  /** Three digits are those of the number they add up to. */
  lemma DigitsOfThree(a: int, b: int, c: int)
    requires 1 <= a <= 9 && 0 <= b <= 9 && 0 <= c <= 9
    ensures var n := a * 100 + b * 10 + c; 100 <= n <= 999 && n / 100 == a && n / 10 % 10 == b && n % 10 == c
  {
  }

  /** A status is read exactly from a number or from its three digits, and only from 400 to 599. */
  lemma HttpCodeReadsBack(v: Option<Json>, n: int)
    ensures AsHttpCode(v) == Some(n) <==> 400 <= n <= 599 && (v == Some(Number(n as real)) || v == Some(Str(Digits(n))))
  {
    if 400 <= n <= 599 {
      assert (n as real).Floor == n;
      assert n / 100 * 100 + n / 10 % 10 * 10 + n % 10 == n;
    }
    if AsHttpCode(v) == Some(n) && v.value.Str? {
      var t := v.value.text;
      assert 4 <= t[0] - 0x30 <= 5;
      DigitsOfThree(t[0] - 0x30, t[1] - 0x30, t[2] - 0x30);
      assert t == Digits(n);
    }
  }

  function InterpretError(error: Json, show: real -> Text): ChunkMeaning {
    var code := Field(error, CODE);
    var text :=
      if code.Some? && code.value.Str? then Some(code.value.text)
      else if code.Some? && code.value.Number? then Some(show(code.value.number))
      else None;
    var message := AsText(Field(error, MESSAGE));
    var http := AsHttpCode(code);
    Error(text, if message.Some? then message.value else NO_MESSAGE,
          if http.Some? then http else AsHttpCode(Field(error, STATUS)))
  }

  /** interpretChatChunk */
  function InterpretChatChunk(ev: SseEvent, codec: Codec): ChunkMeaning {
    var data := Trim(ev.data);
    if data == EventRendering.DONE then Done
    else
      var parsed := AsRecord(codec.parse(data));
      if parsed.None? then Opaque
      else
        var obj := parsed.value;
        var choices := AsItems(Field(obj, CHOICES));
        var error := AsRecord(Field(obj, ERROR));
        if error.Some? && choices == [] then InterpretError(error.value, codec.show)
        else
          var first := if choices != [] then AsRecord(Some(choices[0])) else None;
          Chunk(AsText(Field(obj, ID)), AsText(Field(obj, MODEL)), AsRecord(Field(obj, USAGE)),
                if first.Some? then AsText(Field(first.value, FINISH_REASON)) else None, choices != [])
  }

  predicate AllBlank(t: Text) {
    forall i :: 0 <= i < |t| ==> IsBlank(t[i])
  }

  lemma {:induction false} TrimStartBlank(blank: Text, t: Text)
    requires AllBlank(blank)
    ensures TrimStart(blank + t) == TrimStart(t)
    decreases |blank|
  {
    if blank == [] {
      assert blank + t == t;
    } else {
      assert (blank + t)[1..] == blank[1..] + t;
      TrimStartBlank(blank[1..], t);
    }
  }

  lemma {:induction false} TrimEndBlank(t: Text, blank: Text)
    requires AllBlank(blank)
    ensures TrimEnd(t + blank) == TrimEnd(t)
    decreases |blank|
  {
    if blank == [] {
      assert t + blank == t;
    } else {
      assert (t + blank)[..|t + blank| - 1] == t + blank[..|blank| - 1];
      TrimEndBlank(t, blank[..|blank| - 1]);
    }
  }

  /** What is appended to a text with some character stays behind it; of blanks nothing is left. */
  lemma {:induction false} TrimStartKeepsEnd(t: Text, blank: Text)
    requires AllBlank(blank)
    ensures TrimStart(t + blank) == if TrimStart(t) == [] then [] else TrimStart(t) + blank
    decreases |t|
  {
    if t == [] {
      assert t + blank == blank + [];
      TrimStartBlank(blank, []);
    } else if IsBlank(t[0]) {
      assert (t + blank)[1..] == t[1..] + blank;
      TrimStartKeepsEnd(t[1..], blank);
    }
  }

  /** White space around an event's data does not matter, also around [DONE]. */
  lemma BlanksDoNotMatter(ev: SseEvent, before: Text, after: Text, codec: Codec)
    requires AllBlank(before) && AllBlank(after)
    ensures InterpretChatChunk(ev.(data := before + ev.data + after), codec) == InterpretChatChunk(ev, codec)
  {
    assert before + ev.data + after == before + (ev.data + after);
    TrimStartBlank(before, ev.data + after);
    TrimStartKeepsEnd(ev.data, after);
    TrimEndBlank(TrimStart(ev.data), after);
    hide TrimStart, TrimEnd;
  }

  function Meanings(events: seq<SseEvent>, codec: Codec): (ms: seq<ChunkMeaning>)
    ensures |ms| == |events|
    ensures forall i :: 0 <= i < |ms| ==> ms[i] == InterpretChatChunk(events[i], codec)
  {
    seq(|events|, i requires 0 <= i < |events| => InterpretChatChunk(events[i], codec))
  }

  datatype StreamError = StreamError(code: Text, message: Text)

  /** What a stream told: the last usage, the first model and id, the first error, whether [DONE] came. */
  datatype Facts = Facts(usage: Option<Json>, modelUsed: Option<Text>, upstreamId: Option<Text>,
                         error: Option<StreamError>, sawDone: bool)

  function ErrorOf(m: ChunkMeaning): Option<StreamError> {
    if m.Error? then Some(StreamError(if m.code.Some? then m.code.value else UPSTREAM_ERROR, m.message)) else None
  }

  function IdOf(m: ChunkMeaning): Option<Text> {
    if m.Chunk? && m.id.Some? && m.id.value != [] then m.id else None
  }

  function ModelOf(m: ChunkMeaning): Option<Text> {
    if m.Chunk? && m.model.Some? && m.model.value != [] then m.model else None
  }

  function UsageOf(m: ChunkMeaning): Option<Json> {
    if m.Chunk? then m.usage else None
  }

  /** The first of the values that the meanings carry. */
  function First<T>(ms: seq<ChunkMeaning>, of: ChunkMeaning -> Option<T>): Option<T> {
    if ms == [] then None else if of(ms[0]).Some? then of(ms[0]) else First(ms[1..], of)
  }

  /** The last of the values that the meanings carry. */
  function Last<T>(ms: seq<ChunkMeaning>, of: ChunkMeaning -> Option<T>): Option<T> {
    if ms == [] then None
    else if of(ms[|ms| - 1]).Some? then of(ms[|ms| - 1])
    else Last(ms[..|ms| - 1], of)
  }

  /** What a list of events tells, read as a whole and not one event after the other. */
  function FactsOf(events: seq<SseEvent>, codec: Codec): Facts {
    var ms := Meanings(events, codec);
    Facts(Last(ms, UsageOf), First(ms, ModelOf), First(ms, IdOf), First(ms, ErrorOf), Done in ms)
  }

  lemma {:induction false} FirstAppend<T>(ms: seq<ChunkMeaning>, m: ChunkMeaning, of: ChunkMeaning -> Option<T>)
    ensures First(ms + [m], of) == if First(ms, of).Some? then First(ms, of) else of(m)
    decreases |ms|
  {
    if ms != [] {
      assert (ms + [m])[1..] == ms[1..] + [m];
      FirstAppend(ms[1..], m, of);
    } else {
      assert First((ms + [m])[1..], of) == None;
    }
  }

  /** One more event: its usage replaces the last one, its id, model and error only fill a gap. */
  lemma {:induction false} FactsOfOneMore(events: seq<SseEvent>, ev: SseEvent, codec: Codec)
    ensures var f, m := FactsOf(events, codec), InterpretChatChunk(ev, codec);
            FactsOf(events + [ev], codec) ==
            Facts(if UsageOf(m).Some? then UsageOf(m) else f.usage,
                  if f.modelUsed.Some? then f.modelUsed else ModelOf(m),
                  if f.upstreamId.Some? then f.upstreamId else IdOf(m),
                  if f.error.Some? then f.error else ErrorOf(m),
                  f.sawDone || m.Done?)
  {
    var ms, m := Meanings(events, codec), InterpretChatChunk(ev, codec);
    assert Meanings(events + [ev], codec) == ms + [m];
    FirstAppend(ms, m, ModelOf);
    FirstAppend(ms, m, IdOf);
    FirstAppend(ms, m, ErrorOf);
    assert (ms + [m])[..|ms|] == ms;
  }

  /** The event's data are an object. */
  predicate SameObject(ev: SseEvent, obj: Json, codec: Codec) {
    obj.Obj? && Trim(ev.data) != EventRendering.DONE && codec.parse(Trim(ev.data)) == Some(obj)
  }

  /** The object has an error, which it is if it has no choices beside it. */
  predicate IsErrorObject(fields: map<Text, Json>) {
    && ERROR in fields && fields[ERROR].Obj?
    && !(CHOICES in fields && fields[CHOICES].Arr? && fields[CHOICES].items != [])
  }

  /** An object that is no error tells its own id, model and usage, and nothing else. */
  lemma ChunkTells(ev: SseEvent, obj: Json, codec: Codec)
    requires SameObject(ev, obj, codec) && !IsErrorObject(obj.fields)
    ensures var f, fields := FactsOf([ev], codec), obj.fields;
            && (forall id :: f.upstreamId == Some(id) <==> id != [] && Ascii("id") in fields && fields[Ascii("id")] == Str(id))
            && (forall m :: f.modelUsed == Some(m) <==> m != [] && Ascii("model") in fields && fields[Ascii("model")] == Str(m))
            && (forall u :: f.usage == Some(u) <==> u.Obj? && Ascii("usage") in fields && fields[Ascii("usage")] == u)
            && f.error == None && !f.sawDone
  {
    OneEventTells(ev, codec);
    hide Trim, Ascii, FactsOf;
  }

  /** Whether it has choices, and how the first of them is finished. */
  lemma ChoicesTell(ev: SseEvent, obj: Json, codec: Codec)
    requires SameObject(ev, obj, codec) && !IsErrorObject(obj.fields)
    ensures var m, choices := InterpretChatChunk(ev, codec), AsItems(Field(obj, CHOICES));
            && m.Chunk? && (m.hasChoices <==> choices != [])
            && forall reason :: m.finishReason == Some(reason) <==>
                 choices != [] && choices[0].Obj? && Field(choices[0], FINISH_REASON) == Some(Str(reason))
  {
    hide Trim, Ascii;
  }

  /** A status as a number or as its three digits. */
  predicate IsStatus(v: Option<Json>, n: int) {
    400 <= n <= 599 && (v == Some(Number(n as real)) || v == Some(Str(Digits(n))))
  }

  /** An error tells its code, if that is a string or a number, and its message, and nothing else. */
  lemma ErrorTells(ev: SseEvent, obj: Json, codec: Codec)
    requires SameObject(ev, obj, codec) && IsErrorObject(obj.fields)
    ensures var f, error := FactsOf([ev], codec), obj.fields[ERROR];
            && f.usage == None && f.modelUsed == None && f.upstreamId == None && !f.sawDone && f.error.Some?
            && f.error.value.code == (match Field(error, CODE)
                                      case Some(Str(code)) => code
                                      case Some(Number(x)) => codec.show(x)
                                      case _ => UPSTREAM_ERROR)
            && f.error.value.message == (match Field(error, MESSAGE)
                                         case Some(Str(message)) => message
                                         case _ => NO_MESSAGE)
  {
    OneEventTells(ev, codec);
    hide Trim, Ascii, FactsOf, AsHttpCode;
    ReadAsError(ev, obj, codec);
  }

  lemma ReadAsError(ev: SseEvent, obj: Json, codec: Codec)
    requires SameObject(ev, obj, codec) && IsErrorObject(obj.fields)
    ensures InterpretChatChunk(ev, codec) == InterpretError(obj.fields[ERROR], codec.show)
  {
    hide InterpretError, Trim;
  }

  /** The status is that of the code or, if that is none, of the error's own status. */
  ghost predicate TellsStatus(error: Json, n: int) {
    || IsStatus(Field(error, CODE), n)
    || (IsStatus(Field(error, STATUS), n) && forall k :: !IsStatus(Field(error, CODE), k))
  }

  /** Its status is that of its code, as a number or three digits, or else that of its status. */
  lemma ErrorStatus(ev: SseEvent, obj: Json, codec: Codec)
    requires SameObject(ev, obj, codec) && IsErrorObject(obj.fields)
    ensures var m, error := InterpretChatChunk(ev, codec), obj.fields[ERROR];
            && m.Error?
            && forall n :: m.httpCode == Some(n) <==> TellsStatus(error, n)
  {
    ReadAsError(ev, obj, codec);
    var error := obj.fields[ERROR];
    forall n
      ensures AsHttpCode(Field(error, CODE)) == Some(n) <==> IsStatus(Field(error, CODE), n)
      ensures AsHttpCode(Field(error, STATUS)) == Some(n) <==> IsStatus(Field(error, STATUS), n)
    {
      HttpCodeReadsBack(Field(error, CODE), n);
      HttpCodeReadsBack(Field(error, STATUS), n);
    }
    hide Trim, Ascii, AsHttpCode, IsStatus, InterpretChatChunk, Digits;
    var code := AsHttpCode(Field(error, CODE));
    assert code.Some? ==> IsStatus(Field(error, CODE), code.value);
  }

  /** Of any other data only [DONE], in white space or not, tells something: the end. */
  lemma OtherDataTell(ev: SseEvent, codec: Codec)
    requires forall fields :: codec.parse(Trim(ev.data)) != Some(Obj(fields))
    ensures FactsOf([ev], codec) == Facts(None, None, None, None, Trim(ev.data) == EventRendering.DONE)
  {
    OneEventTells(ev, codec);
    hide Trim, FactsOf;
  }

  lemma OneEventTells(ev: SseEvent, codec: Codec)
    ensures var m := InterpretChatChunk(ev, codec);
            FactsOf([ev], codec) == Facts(UsageOf(m), ModelOf(m), IdOf(m), ErrorOf(m), m.Done?)
  {
    FactsOfOneMore([], ev, codec);
    assert [] + [ev] == [ev];
  }

  /** Trimming takes off blanks at both ends, and all of them. */
  lemma {:induction false} TrimStartExactly(t: Text)
    ensures |TrimStart(t)| <= |t| && AllBlank(t[..|t| - |TrimStart(t)|]) && TrimStart(t) == t[|t| - |TrimStart(t)|..]
    ensures TrimStart(t) != [] ==> !IsBlank(TrimStart(t)[0])
  {
    if t != [] && IsBlank(t[0]) {
      TrimStartExactly(t[1..]);
      var n := |t| - |TrimStart(t)|;
      assert t[..n] == [t[0]] + t[1..][..n - 1];
    }
  }

  lemma {:induction false} TrimEndExactly(t: Text)
    ensures |TrimEnd(t)| <= |t| && TrimEnd(t) == t[..|TrimEnd(t)|] && AllBlank(t[|TrimEnd(t)|..])
    ensures TrimEnd(t) != [] ==> !IsBlank(TrimEnd(t)[|TrimEnd(t)| - 1])
  {
    if t != [] && IsBlank(t[|t| - 1]) {
      TrimEndExactly(t[..|t| - 1]);
      var n := |TrimEnd(t)|;
      assert t[n..] == t[..|t| - 1][n..] + [t[|t| - 1]];
    }
  }

  lemma TrimExactly(t: Text)
    ensures exists i, j :: 0 <= i <= j <= |t| && Trim(t) == t[i..j] && AllBlank(t[..i]) && AllBlank(t[j..])
    ensures Trim(t) != [] ==> !IsBlank(Trim(t)[0]) && !IsBlank(Trim(t)[|Trim(t)| - 1])
  {
    TrimStartExactly(t);
    TrimEndExactly(TrimStart(t));
    hide TrimStart, TrimEnd;
    var i := |t| - |TrimStart(t)|;
    var j := i + |Trim(t)|;
    assert Trim(t) == t[i..j] && t[j..] == TrimStart(t)[|Trim(t)|..];
  }

  class StreamState {
    const codec: Codec
    var usage: Option<Json>
    var modelUsed: Option<Text>
    var upstreamId: Option<Text>
    var error: Option<StreamError>
    var sawDone: bool

    ghost function View(): Facts
      reads this
    {
      Facts(usage, modelUsed, upstreamId, error, sawDone)
    }

    constructor (codec: Codec)
      ensures this.codec == codec && View() == FactsOf([], codec)
    {
      this.codec := codec;
      usage, modelUsed, upstreamId, error, sawDone := None, None, None, None, false;
    }

    /** The body of apply's loop: what one meaning changes. */
    method Note(m: ChunkMeaning)
      modifies this
      ensures usage == if UsageOf(m).Some? then UsageOf(m) else old(usage)
      ensures modelUsed == if old(modelUsed).Some? then old(modelUsed) else ModelOf(m)
      ensures upstreamId == if old(upstreamId).Some? then old(upstreamId) else IdOf(m)
      ensures error == if old(error).Some? then old(error) else ErrorOf(m)
      ensures sawDone == (old(sawDone) || m.Done?)
    {
      match m {
        case Done =>
          sawDone := true;
        case Error(code, message, _) =>
          if error.None? {
            error := Some(StreamError(if code.Some? then code.value else UPSTREAM_ERROR, message));
          }
        case Chunk(id, model, u, _, _) =>
          if id.Some? && id.value != [] && upstreamId.None? {
            upstreamId := id;
          }
          if model.Some? && model.value != [] && modelUsed.None? {
            modelUsed := model;
          }
          if u.Some? {
            usage := u;
          }
        case Opaque =>
      }
    }

    /** apply: goes through the events, and the fields are what the whole history of events tells. */
    method Apply(events: seq<SseEvent>, ghost before: seq<SseEvent>)
      requires View() == FactsOf(before, codec)
      modifies this
      ensures View() == FactsOf(before + events, codec)
    {
      hide InterpretChatChunk, FactsOf;
      var i := 0;
      assert before + events[..0] == before;
      while i < |events|
        invariant i <= |events| && View() == FactsOf(before + events[..i], codec)
      {
        FactsOfOneMore(before + events[..i], events[i], codec);
        assert before + events[..i] + [events[i]] == before + events[..i + 1];
        Note(InterpretChatChunk(events[i], codec));
        i := i + 1;
      }
      assert before + events[..i] == before + events;
    }
  }

  /** openaiError: the body of the proxy's own error events. */
  function ProxyError(code: Text, message: Text): Json {
    Obj(map[ERROR := Obj(map[MESSAGE := Str(message), TYPE := Str(SERVER_ERROR), PARAM := Null, CODE := Str(code)])])
  }

  /** `json` is a rendering of the proxy's error: a line that JSON.parse reads back. */
  predicate Renders(json: Text, code: Text, message: Text, codec: Codec) {
    NoBreak(json) && Trim(json) == json && json != EventRendering.DONE
    && codec.parse(json) == Some(ProxyError(code, message))
  }

  lemma FieldNamesDiffer()
    ensures ERROR != CHOICES && CODE != MESSAGE && CODE != TYPE && CODE != PARAM && MESSAGE != TYPE && MESSAGE != PARAM
  {
    assert ERROR[0] != CHOICES[0] && CODE[0] != MESSAGE[0] && CODE[0] != TYPE[0];
    assert CODE[0] != PARAM[0] && MESSAGE[0] != TYPE[0] && MESSAGE[0] != PARAM[0];
  }

  lemma OwnErrorMeaning(json: Text, code: Text, message: Text, codec: Codec)
    requires Renders(json, code, message, codec)
    ensures InterpretChatChunk(SseEvent(json, None, None), codec) == Error(Some(code), message, AsHttpCode(Some(Str(code))))
    ensures InterpretChatChunk(SseEvent(EventRendering.DONE, None, None), codec) == Done
  {
    FieldNamesDiffer();
    var error := ProxyError(code, message).fields[ERROR];
    assert Field(error, CODE) == Some(Str(code)) && Field(error, MESSAGE) == Some(Str(message));
    assert Field(error, STATUS) == None by {
      assert STATUS[1] == 0x74 && STATUS[0] == 0x73;
    }
    assert !IsBlank(EventRendering.DONE[0]) && !IsBlank(EventRendering.DONE[5]);
  }

  /**
   The proxy understands its own error events: of a stream cut between two events and closed with
   sseErrorEvent, a second proxy reads what the first one read, then the error and the end.
   */
  lemma OwnErrorIsUnderstood(before: Text, json: Text, code: Text, message: Text, codec: Codec)
    requires Renders(json, code, message, codec) && EventRendering.AtBoundary(before)
    ensures var f, g := FactsOf(Delivered(before), codec),
                        FactsOf(Parse(before + EventRendering.SseErrorEvent(json)), codec);
            && g.error == (if f.error.Some? then f.error else Some(StreamError(code, message)))
            && g.sawDone && g.usage == f.usage && g.modelUsed == f.modelUsed && g.upstreamId == f.upstreamId
  {
    hide InterpretChatChunk, FactsOf, EventRendering.AtBoundary;
    EventRendering.ErrorIsSeenOnlyAtBoundary(before);
    assert EventRendering.ErrorIsSeen(before, json);
    var es, error, done := Delivered(before), SseEvent(json, None, None), SseEvent(EventRendering.DONE, None, None);
    assert es + [error, done] == (es + [error]) + [done];
    OwnErrorMeaning(json, code, message, codec);
    FactsOfOneMore(es, error, codec);
    FactsOfOneMore(es + [error], done, codec);
  }
}
