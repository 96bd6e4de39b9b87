/**
 Writing events as a stream, the way src/agent/errors.ts does for the synthetic error event, and
 the round trip through the reference parser: it validates the reference against an independent
 definition of what a stream means.
 */
module EventRendering {
  import opened Wrappers
  import opened EventStream

  /** An event as fields: its data lines (at least one), and optionally an event name and an id. */
  datatype Fields = Fields(data: seq<Text>, event: Option<Text>, id: Option<Text>)

  predicate IsEol(eol: Text) {
    eol == [LF] || eol == [CR] || eol == [CR, LF]
  }

  predicate Renderable(e: Fields) {
    && |e.data| > 0
    && (forall i :: 0 <= i < |e.data| ==> NoBreak(e.data[i]))
    && (e.event.Some? ==> NoBreak(e.event.value))
    && (e.id.Some? ==> NoBreak(e.id.value) && NUL !in e.id.value)
  }

  predicate AllRenderable(es: seq<Fields>) {
    forall i :: 0 <= i < |es| ==> Renderable(es[i])
  }

  function Line(name: Text, value: Text, eol: Text): Text {
    name + [COLON, SPACE] + value + eol
  }

  function DataLines(lines: seq<Text>, eol: Text): Text {
    if lines == [] then [] else Line(DATA_FIELD, lines[0], eol) + DataLines(lines[1..], eol)
  }

  function OptionalLine(name: Text, value: Option<Text>, eol: Text): Text {
    if value.None? then [] else Line(name, value.value, eol)
  }

  /** One event: its id, its name, its data lines, a blank line. */
  function Render(e: Fields, eol: Text): Text {
    OptionalLine(ID_FIELD, e.id, eol) + (OptionalLine(EVENT_FIELD, e.event, eol) + (DataLines(e.data, eol) + eol))
  }

  function RenderAll(es: seq<Fields>, eol: Text): Text {
    if es == [] then [] else Render(es[0], eol) + RenderAll(es[1..], eol)
  }

  function JoinLines(lines: seq<Text>): Text
    requires |lines| > 0
  {
    if |lines| == 1 then lines[0] else lines[0] + [LF] + JoinLines(lines[1..])
  }

  function Meaning(e: Fields): SseEvent
    requires |e.data| > 0
  {
    SseEvent(JoinLines(e.data), e.event, e.id)
  }

  function MeaningAll(es: seq<Fields>): seq<SseEvent>
    requires AllRenderable(es)
  {
    if es == [] then [] else [Meaning(es[0])] + MeaningAll(es[1..])
  }

  /** At a line start, where an LF can only be a skipped one if lines end in a lone CR. */
  predicate AtStart(s: RefState, eol: Text) {
    s.line == [] && (s.afterCr ==> eol == [CR])
  }

  lemma {:induction false} RunEol(s: RefState, line: Text, eol: Text)
    requires AtStart(s, eol) && IsEol(eol) && NoBreak(line)
    ensures Run(s, line + eol) == EndLine(s.(line := line), eol == [CR])
  {
    RunPlain(s, line);
    RunAppend(s, line, eol);
    assert s.line + line == line;
    var t := Run(s, line);
    assert Run(t, eol) == Run(Step(t, eol[0]), eol[1..]);
    if eol == [CR, LF] {
      var u := Step(t, CR);
      assert eol[1..] == [LF];
      assert Run(u, [LF]) == Run(Step(u, LF), [LF][1..]);
    }
  }

  lemma {:induction false} CutAtColon(name: Text, value: Text)
    requires COLON !in name
    ensures FieldName(name + [COLON, SPACE] + value) == name
    ensures FieldValue(name + [COLON, SPACE] + value) == value
    decreases |name|
  {
    var line := name + [COLON, SPACE] + value;
    if name == [] {
      assert line[2..] == value;
    } else {
      assert line[1..] == name[1..] + [COLON, SPACE] + value;
      CutAtColon(name[1..], value);
    }
  }

  lemma {:induction false} RunField(s: RefState, name: Text, value: Text, eol: Text)
    requires AtStart(s, eol) && IsEol(eol) && NoBreak(name) && NoBreak(value)
    requires name != [] && COLON !in name
    ensures Run(s, Line(name, value, eol)) ==
            RefState([], eol == [CR], ApplyField(s.buffers, name, value), s.events)
  {
    var line := name + [COLON, SPACE] + value;
    assert forall i :: 0 <= i < |line| ==> !IsBreak(line[i]);
    RunEol(s, line, eol);
    CutAtColon(name, value);
    assert line[0] == name[0];
  }

  lemma {:induction false} RunOptional(s: RefState, name: Text, value: Option<Text>, eol: Text)
    requires AtStart(s, eol) && IsEol(eol) && NoBreak(name) && name != [] && COLON !in name
    requires value.Some? ==> NoBreak(value.value)
    ensures var t := Run(s, OptionalLine(name, value, eol));
            && AtStart(t, eol) && t.events == s.events
            && t.buffers == if value.None? then s.buffers else ApplyField(s.buffers, name, value.value)
  {
    if value.Some? {
      RunField(s, name, value.value, eol);
    }
  }

  lemma {:induction false} RunDataLines(s: RefState, lines: seq<Text>, eol: Text)
    requires AtStart(s, eol) && IsEol(eol) && |lines| > 0
    requires forall i :: 0 <= i < |lines| ==> NoBreak(lines[i])
    ensures var t := Run(s, DataLines(lines, eol));
            && AtStart(t, eol) && t.events == s.events
            && t.buffers == s.buffers.(data := s.buffers.data + JoinLines(lines) + [LF])
    decreases |lines|
  {
    var first := Line(DATA_FIELD, lines[0], eol);
    RunField(s, DATA_FIELD, lines[0], eol);
    RunAppend(s, first, DataLines(lines[1..], eol));
    var t := Run(s, first);
    if |lines| == 1 {
      assert Run(t, DataLines(lines[1..], eol)) == t;
    } else {
      RunDataLines(t, lines[1..], eol);
      var j := JoinLines(lines[1..]);
      assert s.buffers.data + lines[0] + [LF] + j + [LF] == s.buffers.data + (lines[0] + [LF] + j) + [LF];
    }
  }

  /** Data lines and the blank line after them: the event of the data and the buffered name and id. */
  lemma {:induction false} RunDataEvent(s: RefState, lines: seq<Text>, eol: Text)
    requires AtStart(s, eol) && IsEol(eol) && |lines| > 0 && s.buffers.data == []
    requires forall i :: 0 <= i < |lines| ==> NoBreak(lines[i])
    ensures Run(s, DataLines(lines, eol) + eol) ==
            RefState([], eol == [CR], EMPTY, s.events + [SseEvent(JoinLines(lines), s.buffers.event, s.buffers.id)])
  {
    RunAppend(s, DataLines(lines, eol), eol);
    RunDataLines(s, lines, eol);
    var t := Run(s, DataLines(lines, eol));
    RunEol(t, [], eol);
    assert [] + eol == eol;
    assert t.buffers.data == JoinLines(lines) + [LF];
  }

  lemma {:induction false} RunEvent(s: RefState, e: Fields, eol: Text)
    requires AtStart(s, eol) && IsEol(eol) && Renderable(e) && s.buffers == EMPTY
    ensures Run(s, Render(e, eol)) == RefState([], eol == [CR], EMPTY, s.events + [Meaning(e)])
  {
    hide OptionalLine, DataLines, Step;
    var idLine := OptionalLine(ID_FIELD, e.id, eol);
    var nameLine := OptionalLine(EVENT_FIELD, e.event, eol);
    var data := DataLines(e.data, eol) + eol;
    RunAppend(s, idLine, nameLine + data);
    RunOptional(s, ID_FIELD, e.id, eol);
    var t := Run(s, idLine);
    RunAppend(t, nameLine, data);
    RunOptional(t, EVENT_FIELD, e.event, eol);
    RunDataEvent(Run(t, nameLine), e.data, eol);
  }

  lemma {:induction false} RunEvents(s: RefState, es: seq<Fields>, eol: Text)
    requires AtStart(s, eol) && IsEol(eol) && s.buffers == EMPTY
    requires AllRenderable(es)
    ensures var t := Run(s, RenderAll(es, eol));
            AtStart(t, eol) && t.buffers == EMPTY && t.events == s.events + MeaningAll(es)
    decreases |es|
  {
    hide Render, Meaning, IsEol;
    if es == [] {
      assert s.events + [] == s.events;
    } else {
      hide Run;
      var rest := RenderAll(es[1..], eol);
      RunAppend(s, Render(es[0], eol), rest);
      RunEvent(s, es[0], eol);
      RunEvents(Run(s, Render(es[0], eol)), es[1..], eol);
      assert MeaningAll(es) == [Meaning(es[0])] + MeaningAll(es[1..]);
      assert s.events + [Meaning(es[0])] + MeaningAll(es[1..]) == s.events + MeaningAll(es);
    }
  }

  /** Parsing a rendered stream gives the events back, with any of the three line endings. */
  lemma {:induction false} RoundTrip(es: seq<Fields>, eol: Text)
    requires IsEol(eol) && AllRenderable(es)
    ensures Parse(RenderAll(es, eol)) == MeaningAll(es)
    ensures Delivered(RenderAll(es, eol)) == MeaningAll(es)
  {
    RunEvents(START, es, eol);
  }

  /** `[DONE]` */
  const DONE: Text := [0x5b, 0x44, 0x4f, 0x4e, 0x45, 0x5d]

  /** A data line and a blank line, as sseErrorEvent writes them. */
  function DataEvent(data: Text): Text {
    DATA_FIELD + [COLON, SPACE] + data + [LF, LF]
  }

  /** sseErrorEvent for an error body without line breaks, which is what JSON.stringify makes. */
  function SseErrorEvent(json: Text): Text {
    DataEvent(json) + DataEvent(DONE)
  }

  /** What a plain data event does from any state: the text joins the line already begun. */
  lemma {:induction false} RunDataEventAnywhere(s: RefState, data: Text)
    requires NoBreak(data)
    ensures var b := ApplyLine(s.buffers, s.line + DATA_FIELD + [COLON, SPACE] + data);
            Run(s, DataEvent(data)) == RefState([], false, EMPTY, s.events + Dispatched(b))
  {
    var line := DATA_FIELD + [COLON, SPACE] + data;
    assert forall i :: 0 <= i < |line| ==> !IsBreak(line[i]);
    assert DataEvent(data) == line + [LF, LF];
    RunPlain(s, line);
    RunAppend(s, line, [LF, LF]);
    var t := Run(s, line);
    assert s.line + DATA_FIELD + [COLON, SPACE] + data == s.line + line;
    var u := Step(t, LF);
    assert [LF, LF][1..] == [LF] && [LF][1..] == [];
    assert Run(t, [LF, LF]) == Run(u, [LF]) == Run(Step(u, LF), []);
  }

  /** Nothing is under way: neither a line nor a field of an event. */
  predicate AtBoundary(before: Text) {
    Run(START, before).line == [] && Run(START, before).buffers == EMPTY
  }

  /** The client reads the synthetic error after everything it had received. */
  predicate ErrorIsSeen(before: Text, json: Text) {
    Parse(before + SseErrorEvent(json)) ==
    Delivered(before) + [SseEvent(json, None, None), SseEvent(DONE, None, None)]
  }

  /** What the client reads when the stream is cut after `before` and the synthetic error follows. */
  lemma {:induction false} ErrorEventAnywhere(before: Text, json: Text)
    requires NoBreak(json)
    ensures var s := Run(START, before);
            var b := ApplyLine(s.buffers, s.line + DATA_FIELD + [COLON, SPACE] + json);
            Parse(before + SseErrorEvent(json)) == s.events + Dispatched(b) + [SseEvent(DONE, None, None)]
  {
    var s := Run(START, before);
    RunAppend(START, before, SseErrorEvent(json));
    RunAppend(s, DataEvent(json), DataEvent(DONE));
    RunDataEventAnywhere(s, json);
    var t := Run(s, DataEvent(json));
    RunDataEventAnywhere(t, DONE);
    CutAtColon(DATA_FIELD, DONE);
    assert [] + DATA_FIELD + [COLON, SPACE] + DONE == DATA_FIELD + [COLON, SPACE] + DONE;
    assert ([] + DONE + [LF])[..|DONE|] == DONE;
  }

  /** A value read from a begun line is longer than the text appended to it, or the name is not `data`. */
  lemma {:induction false} BegunLineSwallows(begun: Text, json: Text)
    requires begun != []
    ensures var line := begun + DATA_FIELD + [COLON, SPACE] + json;
            FieldName(line) == DATA_FIELD ==> |FieldValue(line)| > |json|
  {
    var line := begun + DATA_FIELD + [COLON, SPACE] + json;
    if COLON in begun {
      LongValue(begun, DATA_FIELD + [COLON, SPACE] + json);
      assert line == begun + (DATA_FIELD + [COLON, SPACE] + json);
    } else {
      CutAtColon(begun + DATA_FIELD, json);
      assert line == (begun + DATA_FIELD) + [COLON, SPACE] + json;
      assert |FieldName(line)| > |DATA_FIELD|;
    }
  }

  /** If the begun line has a colon, all that is appended belongs to the value. */
  lemma {:induction false} LongValue(begun: Text, added: Text)
    requires COLON in begun && |added| > 0
    ensures |FieldValue(begun + added)| + 1 >= |added|
    decreases |begun|
  {
    var line := begun + added;
    if begun[0] == COLON {
      assert |line| == |begun| + |added|;
    } else {
      assert line[1..] == begun[1..] + added;
      LongValue(begun[1..], added);
    }
  }

  /**
   sseErrorEvent starts with no line break of its own, so the error reaches the client, whatever its
   body, exactly when the provider's stream was cut between two events.
   */
  lemma ErrorIsSeenOnlyAtBoundary(before: Text)
    ensures (forall json :: NoBreak(json) ==> ErrorIsSeen(before, json)) <==> AtBoundary(before)
  {
    var s := Run(START, before);
    if AtBoundary(before) {
      forall json | NoBreak(json)
        ensures ErrorIsSeen(before, json)
      {
        ErrorEventAnywhere(before, json);
        CutAtColon(DATA_FIELD, json);
        assert s.line + DATA_FIELD + [COLON, SPACE] + json == DATA_FIELD + [COLON, SPACE] + json;
        assert ([] + json + [LF])[..|json|] == json;
      }
    } else {
      var json: Text := seq(|s.buffers.data|, _ => SPACE);
      ErrorEventAnywhere(before, json);
      NotSeenMidEvent(s, json);
      assert !ErrorIsSeen(before, json);
    }
  }

  lemma {:induction false} NotSeenMidEvent(s: RefState, json: Text)
    requires s.line != [] || s.buffers != EMPTY
    requires |json| == |s.buffers.data|
    ensures var b := ApplyLine(s.buffers, s.line + DATA_FIELD + [COLON, SPACE] + json);
            s.events + Dispatched(b) + [SseEvent(DONE, None, None)] !=
            s.events + [SseEvent(json, None, None), SseEvent(DONE, None, None)]
  {
    var line := s.line + DATA_FIELD + [COLON, SPACE] + json;
    var b := ApplyLine(s.buffers, line);
    if s.line == [] {
      assert line == DATA_FIELD + [COLON, SPACE] + json;
      CutAtColon(DATA_FIELD, json);
    } else {
      BegunLineSwallows(s.line, json);
    }
    assert |b.data| != |json| + 1 || b.event != None || b.id != None;
    if Dispatched(b) != [] {
      var all := s.events + Dispatched(b) + [SseEvent(DONE, None, None)];
      assert all[|s.events|] == Dispatched(b)[0];
      assert (s.events + [SseEvent(json, None, None), SseEvent(DONE, None, None)])[|s.events|] == SseEvent(json, None, None);
    } else {
      assert |s.events + Dispatched(b) + [SseEvent(DONE, None, None)]| == |s.events| + 1;
    }
  }
}
