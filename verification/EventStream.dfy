/**
 Reference semantics of a Server-Sent Events stream, one code unit at a time: line endings of
 section 9.2.5 and field interpretation of section 9.2.6 of the WHATWG HTML Standard. The proxy
 deviates from the standard in two ways, and so does this reference: the end of the stream
 dispatches the pending event, and `id` is forgotten after every event.
 */
module EventStream {
  import opened Wrappers

  /** A UTF-16 code unit; the proxy's strings are sequences of them. */
  type CodeUnit = u: int | 0 <= u < 0x1_0000
  type Text = seq<CodeUnit>

  const LF: CodeUnit := 0x0a
  const CR: CodeUnit := 0x0d
  const COLON: CodeUnit := 0x3a
  const SPACE: CodeUnit := 0x20
  const NUL: CodeUnit := 0x00
  const BOM: CodeUnit := 0xfeff

  const DATA_FIELD: Text := [0x64, 0x61, 0x74, 0x61]
  const EVENT_FIELD: Text := [0x65, 0x76, 0x65, 0x6e, 0x74]
  const ID_FIELD: Text := [0x69, 0x64]

  datatype SseEvent = SseEvent(data: Text, event: Option<Text>, id: Option<Text>)

  /** The standard's data buffer, event type buffer and last event id buffer. */
  datatype Buffers = Buffers(data: Text, event: Option<Text>, id: Option<Text>)

  const EMPTY: Buffers := Buffers([], None, None)

  /** `line`: the current line so far; `afterCr`: the previous code unit was a CR, so an LF belongs to it. */
  datatype RefState = RefState(line: Text, afterCr: bool, buffers: Buffers, events: seq<SseEvent>)

  const START: RefState := RefState([], false, EMPTY, [])

  predicate IsBreak(c: CodeUnit) {
    c == LF || c == CR
  }

  predicate NoBreak(t: Text) {
    forall i :: 0 <= i < |t| ==> !IsBreak(t[i])
  }

  /** The field name: everything before the first colon, or the whole line. */
  function FieldName(line: Text): Text {
    if line == [] || line[0] == COLON then [] else [line[0]] + FieldName(line[1..])
  }

  /** The field value: everything after the first colon without one leading space. */
  function FieldValue(line: Text): Text {
    if line == [] then []
    else if line[0] != COLON then FieldValue(line[1..])
    else if |line| > 1 && line[1] == SPACE then line[2..]
    else line[1..]
  }

  /** Field processing: data is appended with an LF, `id` with a NUL and unknown names are ignored. */
  function ApplyField(b: Buffers, name: Text, value: Text): Buffers {
    if name == DATA_FIELD then b.(data := b.data + value + [LF])
    else if name == EVENT_FIELD then b.(event := Some(value))
    else if name == ID_FIELD && NUL !in value then b.(id := Some(value))
    else b
  }

  function ApplyLine(b: Buffers, line: Text): Buffers {
    if line != [] && line[0] == COLON then b
    else ApplyField(b, FieldName(line), FieldValue(line))
  }

  /** Dispatching: nothing for an empty data buffer, else the data without its last LF. */
  function Dispatched(b: Buffers): seq<SseEvent> {
    if b.data == [] then [] else [SseEvent(b.data[..|b.data| - 1], b.event, b.id)]
  }

  function EndLine(s: RefState, afterCr: bool): RefState {
    if s.line == [] then RefState([], afterCr, EMPTY, s.events + Dispatched(s.buffers))
    else RefState([], afterCr, ApplyLine(s.buffers, s.line), s.events)
  }

  function Step(s: RefState, c: CodeUnit): RefState {
    if c == LF && s.afterCr then s.(afterCr := false)
    else if c == LF then EndLine(s, false)
    else if c == CR then EndLine(s, true)
    else s.(line := s.line + [c], afterCr := false)
  }

  function Run(s: RefState, t: Text): RefState
    decreases |t|
  {
    if t == [] then s else Run(Step(s, t[0]), t[1..])
  }

  /** The end of the stream: an unterminated line still counts, and the pending event is dispatched. */
  function Finish(s: RefState): seq<SseEvent> {
    var b := if s.line == [] then s.buffers else ApplyLine(s.buffers, s.line);
    s.events + Dispatched(b)
  }

  /** The events of a complete stream, its byte order mark already removed. */
  function Parse(t: Text): seq<SseEvent> {
    Finish(Run(START, t))
  }

  /** The events whose closing blank line is inside `t`. */
  function Delivered(t: Text): seq<SseEvent> {
    Run(START, t).events
  }

  function StripBom(t: Text): Text {
    if t != [] && t[0] == BOM then t[1..] else t
  }

  lemma {:induction false} RunAppend(s: RefState, a: Text, b: Text)
    ensures Run(s, a + b) == Run(Run(s, a), b)
    decreases |a|
  {
    if a == [] {
      assert a + b == b;
    } else {
      assert (a + b)[1..] == a[1..] + b;
      RunAppend(Step(s, a[0]), a[1..], b);
    }
  }

  /** Text without line breaks only extends the current line. */
  lemma {:induction false} RunPlain(s: RefState, t: Text)
    requires NoBreak(t)
    ensures Run(s, t) == s.(line := s.line + t, afterCr := s.afterCr && t == [])
    decreases |t|
  {
    if t == [] {
      assert s.line + t == s.line;
    } else {
      RunPlain(Step(s, t[0]), t[1..]);
      assert s.line + [t[0]] + t[1..] == s.line + t;
    }
  }

  /** Events already delivered are never taken back. */
  lemma {:induction false} RunKeepsEvents(s: RefState, t: Text)
    ensures s.events <= Run(s, t).events
    decreases |t|
  {
    if t != [] {
      RunKeepsEvents(Step(s, t[0]), t[1..]);
    }
  }
}
