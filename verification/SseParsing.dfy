/**
 The incremental parser of src/upstream/sse-parser.ts: a scanner over the undelivered tail with a
 resume index, a held trailing CR and a byte cap, proved to deliver exactly the events of the
 one-code-unit-at-a-time reference, whatever the chunking.
 */
module SseParsing {
  import opened Wrappers
  import opened EventStream

  /** What `push` does: the finished events, or SseBufferOverflowError with the limit. */
  datatype PushResult = Events(events: seq<SseEvent>) | Overflow(limit: nat)

  predicate IsHighSurrogate(c: CodeUnit) {
    0xd800 <= c < 0xdc00
  }

  predicate IsLowSurrogate(c: CodeUnit) {
    0xdc00 <= c < 0xe000
  }

  /** Buffer.byteLength: a surrogate pair takes four bytes, a lone surrogate is replaced by U+FFFD. */
  function Utf8Length(t: Text): nat {
    if t == [] then 0
    else if |t| > 1 && IsHighSurrogate(t[0]) && IsLowSurrogate(t[1]) then 4 + Utf8Length(t[2..])
    else (if t[0] < 0x80 then 1 else if t[0] < 0x800 then 2 else 3) + Utf8Length(t[1..])
  }

  function From(t: Text, least: int): nat {
    if t == [] then 0 else From(t[1..], least) + if t[0] >= least then 1 else 0
  }

  function Pairs(t: Text): nat {
    if |t| < 2 then 0 else Pairs(t[1..]) + if 0xd800 <= t[0] <= 0xdbff && 0xdc00 <= t[1] <= 0xdfff then 1 else 0
  }

  /** A byte for every unit, one more from 0x80 on, one more from 0x800 on, and of these two less for a surrogate pair. */
  lemma {:induction false} Utf8Exactly(t: Text)
    ensures Utf8Length(t) + 2 * Pairs(t) == |t| + From(t, 0x80) + From(t, 0x800)
    decreases |t|
  {
    if |t| > 1 && IsHighSurrogate(t[0]) && IsLowSurrogate(t[1]) {
      Utf8Exactly(t[2..]);
      assert t[1..][1..] == t[2..];
      assert From(t, 0x80) == From(t[2..], 0x80) + 2 && From(t, 0x800) == From(t[2..], 0x800) + 2;
      assert Pairs(t[1..]) == Pairs(t[2..]);
    } else if t != [] {
      Utf8Exactly(t[1..]);
    }
  }

  /** Why the cheap test of the overflow check is safe. */
  lemma {:induction false} Utf8AtMostThreePerUnit(t: Text)
    ensures |t| <= Utf8Length(t) <= 3 * |t|
    decreases |t|
  {
    if |t| > 1 && IsHighSurrogate(t[0]) && IsLowSurrogate(t[1]) {
      Utf8AtMostThreePerUnit(t[2..]);
    } else if t != [] {
      Utf8AtMostThreePerUnit(t[1..]);
    }
  }

  /** The bytes counted for the data lines, each with its LF. */
  function DataBytes(lines: seq<Text>): nat {
    if lines == [] then 0 else DataBytes(lines[..|lines| - 1]) + Utf8Length(lines[|lines| - 1]) + 1
  }

  /** The standard's data buffer for a list of data lines. */
  function DataBuffer(lines: seq<Text>): Text {
    if lines == [] then [] else DataBuffer(lines[..|lines| - 1]) + lines[|lines| - 1] + [LF]
  }

  /** `dataLines.join('\n')` */
  function Join(lines: seq<Text>): Text {
    if lines == [] then []
    else if |lines| == 1 then lines[0]
    else Join(lines[..|lines| - 1]) + [LF] + lines[|lines| - 1]
  }

  lemma {:induction false} JoinIsBufferWithoutLastLf(lines: seq<Text>)
    ensures DataBuffer(lines) == if lines == [] then [] else Join(lines) + [LF]
  {
    if |lines| > 1 {
      JoinIsBufferWithoutLastLf(lines[..|lines| - 1]);
    }
  }

  /** The first colon of a line cuts it into the standard's name and value. */
  lemma {:induction false} FieldCut(line: Text, colon: nat)
    requires colon <= |line| && COLON !in line[..colon]
    requires colon < |line| ==> line[colon] == COLON
    ensures FieldName(line) == line[..colon]
    ensures FieldValue(line) ==
            if colon == |line| then []
            else if colon + 1 < |line| && line[colon + 1] == SPACE then line[colon + 2..]
            else line[colon + 1..]
    decreases |line|
  {
    if colon > 0 {
      assert line[0] == line[..colon][0];
      assert line[1..][..colon - 1] == line[..colon][1..];
      FieldCut(line[1..], colon - 1);
      assert line[..colon] == [line[0]] + line[1..][..colon - 1];
    }
  }

  /** A line without breaks followed by one break ends that line, unless the break completes a CRLF. */
  lemma {:induction false} RunLine(s: RefState, line: Text, c: CodeUnit)
    requires NoBreak(line) && IsBreak(c) && s.line == []
    ensures Run(s, line + [c]) ==
            if line == [] && s.afterCr && c == LF then s.(afterCr := false)
            else EndLine(s.(line := line), c == CR)
  {
    RunPlain(s, line);
    RunAppend(s, line, [c]);
    var t := Run(s, line);
    assert Run(t, [c]) == Run(Step(t, c), [c][1..]);
    assert s.line + line == line;
  }

  /**
   One round of the scanning loop: the line buf[pos..i] and its break, which ends at `next`. An LF
   that the reference skips as half of a CRLF reads here as a blank line, harmless because nothing
   is pending.
   */
  lemma {:induction false} LineConsumed(prefix: Text, buf: Text, pos: nat, i: nat, next: nat)
    requires pos <= i < |buf| && NoBreak(buf[pos..i]) && IsBreak(buf[i])
    requires next == i + 1 || (next == i + 2 <= |buf| && buf[i] == CR && buf[i + 1] == LF)
    requires Run(START, prefix).line == []
    requires Run(START, prefix).afterCr ==> Run(START, prefix).buffers == EMPTY || buf[pos] != LF
    ensures prefix + buf[pos..] == prefix + buf[pos..next] + buf[next..]
    ensures var s, t := Run(START, prefix), Run(START, prefix + buf[pos..next]);
            && t.line == []
            && t.buffers == (if i == pos then EMPTY else ApplyLine(s.buffers, buf[pos..i]))
            && t.events == s.events + (if i == pos then Dispatched(s.buffers) else [])
            && (t.afterCr ==> buf[i] == CR && next == i + 1)
  {
    var s := Run(START, prefix);
    var line := buf[pos..i];
    RunLine(s, line, buf[i]);
    RunAppend(START, prefix, buf[pos..next]);
    if next == i + 1 {
      assert buf[pos..next] == line + [buf[i]];
    } else {
      assert buf[pos..next] == (line + [CR]) + [LF];
      RunAppend(s, line + [CR], [LF]);
      var t := Run(s, line + [CR]);
      assert Run(t, [LF]) == Run(Step(t, LF), [LF][1..]);
    }
  }

  /** A drained tail holds no finished event: its unfinished line, or a nonempty line and the held CR. */
  lemma {:induction false} DrainedTail(s: RefState, tail: Text, n: nat)
    requires s.line == [] && n <= |tail| && NoBreak(tail[..n])
    requires n == |tail| || (n > 0 && n + 1 == |tail| && tail[n] == CR)
    ensures Run(s, tail).events == s.events
    ensures n == |tail| ==> Run(s, tail) == s.(line := tail, afterCr := s.afterCr && tail == [])
  {
    assert s.line + tail == tail;
    if n == |tail| {
      assert tail[..n] == tail;
      RunPlain(s, tail);
    } else {
      assert tail == tail[..n] + [CR];
      RunLine(s, tail[..n], CR);
    }
  }

  /** The fields stand for the reference's buffers `b` at the line start after `consumed`. */
  predicate AtLineStart(consumed: Text, b: Buffers) {
    && Run(START, consumed).line == []
    && Run(START, consumed).buffers == b
  }

  /** An LF at the head of `rest` may be taken for a blank line: it changes nothing. */
  predicate CrSafe(consumed: Text, b: Buffers, rest: Text) {
    Run(START, consumed).afterCr ==> b == EMPTY || (rest != [] && rest[0] != LF)
  }

  /** Between two events, and no LF to come belongs to a CR before it. */
  predicate Rested(t: Text) {
    var s := Run(START, t);
    s.line == [] && s.buffers == EMPTY && !s.afterCr
  }

  /** The units received since the stream was last between two events. */
  function Backlog(t: Text): (n: nat)
    ensures n <= |t|
  {
    if Rested(t) then 0 else Backlog(t[..|t| - 1]) + 1
  }

  lemma {:induction false} LastRest(t: Text)
    ensures Rested(t[..|t| - Backlog(t)])
  {
    if Rested(t) {
      assert t[..|t|] == t;
    } else {
      var u := t[..|t| - 1];
      LastRest(u);
      assert u[..|u| - Backlog(u)] == t[..|t| - Backlog(t)];
    }
  }

  /** No part of a drained tail, except nothing, brings the stream to rest. */
  lemma {:induction false} NeverRestsInside(s: RefState, tail: Text, n: nat, k: nat)
    requires s.line == [] && n <= |tail| && NoBreak(tail[..n]) && 0 < k <= |tail|
    requires n == |tail| || (n > 0 && n + 1 == |tail| && tail[n] == CR)
    ensures Run(s, tail[..k]).line != [] || Run(s, tail[..k]).afterCr
  {
    if k <= n {
      assert forall i :: 0 <= i < k ==> tail[..k][i] == tail[..n][i];
      RunPlain(s, tail[..k]);
    } else {
      assert tail[..k] == tail[..n] + [CR];
      RunLine(s, tail[..n], CR);
    }
  }

  class SseParser {
    const maxBufferedBytes: nat
    var tail: Text
    var scanFrom: nat
    var dataLines: seq<Text>
    var dataBytes: nat
    var eventName: Option<Text>
    var id: Option<Text>
    var started: bool
    /** What was received since the start or the last flush and already split into lines. */
    ghost var consumed: Text

    /** Everything received since the start or the last flush, without the byte order mark. */
    ghost function Seen(): Text
      reads this
    {
      consumed + tail
    }

    /** The reference buffers that the fields stand for. */
    ghost function Pending(): Buffers
      reads this
    {
      Buffers(DataBuffer(dataLines), eventName, id)
    }

    /** No complete line is left in the tail; at most the CR that may be half of a CRLF is held. */
    ghost predicate Drained()
      reads this
    {
      && scanFrom <= |tail| && NoBreak(tail[..scanFrom])
      && (scanFrom == |tail| || (scanFrom > 0 && scanFrom + 1 == |tail| && tail[scanFrom] == CR))
    }

    ghost predicate Valid()
      reads this
    {
      && dataBytes == DataBytes(dataLines)
      && Drained()
      && AtLineStart(consumed, Pending())
      && CrSafe(consumed, Pending(), tail)
    }

    constructor (maxBufferedBytes: nat)
      ensures Valid() && Seen() == [] && !started && this.maxBufferedBytes == maxBufferedBytes
    {
      this.maxBufferedBytes := maxBufferedBytes;
      tail, scanFrom, dataLines, dataBytes, eventName, id, started := [], 0, [], 0, None, None, false;
      consumed := [];
    }

    /** parseField: the fields follow the standard's processing of one nonempty line. */
    method ParseField(line: Text)
      requires line != [] && dataBytes == DataBytes(dataLines)
      modifies `dataLines, `dataBytes, `eventName, `id
      ensures Pending() == ApplyLine(old(Pending()), line)
      ensures dataBytes == DataBytes(dataLines)
    {
      if line[0] == COLON {
        return;
      }
      var colon := 0;
      while colon < |line| && line[colon] != COLON
        invariant colon <= |line| && COLON !in line[..colon]
      {
        colon := colon + 1;
      }
      FieldCut(line, colon);
      var field, value: Text;
      if colon == |line| {
        field, value := line, [];
        assert line[..colon] == line;
      } else {
        field, value := line[..colon], line[colon + 1..];
        if value != [] && value[0] == SPACE {
          value := value[1..];
        }
      }
      if field == DATA_FIELD {
        dataLines := dataLines + [value];
        assert dataLines[..|dataLines| - 1] == old(dataLines);
        dataBytes := dataBytes + Utf8Length(value) + 1;
      } else if field == EVENT_FIELD {
        eventName := Some(value);
      } else if field == ID_FIELD {
        if NUL !in value {
          id := Some(value);
        }
      }
    }

    /** dispatch: the pending event, if any data line was seen; all buffers start again. */
    method Dispatch() returns (ev: seq<SseEvent>)
      requires dataBytes == DataBytes(dataLines)
      modifies `dataLines, `dataBytes, `eventName, `id
      ensures ev == Dispatched(old(Pending()))
      ensures Pending() == EMPTY && dataBytes == DataBytes(dataLines)
    {
      JoinIsBufferWithoutLastLf(dataLines);
      ev := [];
      if |dataLines| > 0 {
        ev := [SseEvent(Join(dataLines), eventName, id)];
        assert DataBuffer(dataLines)[..|DataBuffer(dataLines)| - 1] == Join(dataLines);
      }
      dataLines, dataBytes, eventName, id := [], 0, None, None;
    }

    /** processLine: a blank line dispatches, any other line is a field. */
    method ProcessLine(line: Text) returns (ev: seq<SseEvent>)
      requires dataBytes == DataBytes(dataLines)
      modifies `dataLines, `dataBytes, `eventName, `id
      ensures ev == if line == [] then Dispatched(old(Pending())) else []
      ensures Pending() == if line == [] then EMPTY else ApplyLine(old(Pending()), line)
      ensures dataBytes == DataBytes(dataLines)
    {
      if line == [] {
        ev := Dispatch();
      } else {
        ParseField(line);
        ev := [];
      }
    }

    /** drainLines: turns the tail's complete lines into events and remembers where to resume. */
    method DrainLines(eof: bool) returns (events: seq<SseEvent>)
      requires dataBytes == DataBytes(dataLines)
      requires scanFrom <= |tail| && NoBreak(tail[..scanFrom])
      requires AtLineStart(consumed, Pending()) && CrSafe(consumed, Pending(), tail)
      modifies `tail, `scanFrom, `dataLines, `dataBytes, `eventName, `id, `consumed
      ensures dataBytes == DataBytes(dataLines)
      ensures Seen() == old(Seen())
      ensures Drained() && AtLineStart(consumed, Pending())
      ensures if eof then scanFrom == |tail| else CrSafe(consumed, Pending(), tail)
      ensures Delivered(consumed) == old(Delivered(consumed)) + events
    {
      hide Run, ApplyLine, Dispatched, DataBytes, DataBuffer, Utf8Length;
      var buf := tail;
      events := [];
      var pos, i := 0, scanFrom;
      while i < |buf|
        invariant 0 <= pos <= i <= |buf| && NoBreak(buf[pos..i])
        invariant dataBytes == DataBytes(dataLines)
        invariant consumed + buf[pos..] == old(consumed) + buf
        invariant AtLineStart(consumed, Pending())
        invariant (eof && pos == |buf|) || CrSafe(consumed, Pending(), buf[pos..])
        invariant Delivered(consumed) == old(Delivered(consumed)) + events
      {
        var c := buf[i];
        if !IsBreak(c) {
          assert buf[pos..i + 1] == buf[pos..i] + [c];
          i := i + 1;
          continue;
        }
        var next := i + 1;
        if c == CR {
          if next == |buf| && !eof && i > pos {
            break;
          }
          if next < |buf| && buf[next] == LF {
            next := next + 1;
          }
        }
        LineConsumed(consumed, buf, pos, i, next);
        var ev := ProcessLine(buf[pos..i]);
        events := events + ev;
        consumed := consumed + buf[pos..next];
        pos, i := next, next;
      }
      tail := if pos == 0 then buf else buf[pos..];
      scanFrom := i - pos;
      assert tail[..scanFrom] == buf[pos..i];
    }

    /** checkOverflow: throws exactly when the exact byte count exceeds the cap. */
    method CheckOverflow() returns (over: bool)
      ensures over <==> dataBytes + Utf8Length(tail) > maxBufferedBytes
    {
      Utf8AtMostThreePerUnit(tail);
      if dataBytes + |tail| * 3 <= maxBufferedBytes {
        return false;
      }
      over := dataBytes + Utf8Length(tail) > maxBufferedBytes;
    }

    /** What the reference has delivered on everything seen is what it delivered on the consumed lines. */
    lemma NothingHeld()
      requires Drained() && Run(START, consumed).line == []
      ensures Delivered(Seen()) == Delivered(consumed)
      ensures scanFrom == |tail| ==> Run(START, Seen()).line == tail
      ensures scanFrom == |tail| ==> Run(START, Seen()).buffers == Run(START, consumed).buffers
    {
      RunAppend(START, consumed, tail);
      DrainedTail(Run(START, consumed), tail, scanFrom);
    }

    /** The bytes counted against the cap are at most three for each unit received since the last rest. */
    lemma RetainedSize()
      requires Valid()
      ensures dataBytes + Utf8Length(tail) <= 3 * Backlog(Seen())
    {
      var k := |Seen()| - Backlog(Seen());
      var a := Seen()[..k];
      LastRest(Seen());
      if k > |consumed| {
        var part := tail[..k - |consumed|];
        assert a == consumed + part;
        RunAppend(START, consumed, part);
        NeverRestsInside(Run(START, consumed), tail, scanFrom, k - |consumed|);
        assert false;
      }
      var c := consumed[k..];
      assert a + c == consumed && Seen()[k..] == c + tail;
      RunAppend(START, a, c);
      PendingSize(Run(START, a), c);
      DataBytesSize(dataLines);
      Utf8AtMostThreePerUnit(tail);
    }

    /** The decoded text joins the tail; the resume index stays good. */
    method Append(text: Text)
      requires Valid()
      modifies `tail
      ensures tail == old(tail) + text
      ensures scanFrom <= |tail| && NoBreak(tail[..scanFrom])
      ensures AtLineStart(consumed, Pending()) && CrSafe(consumed, Pending(), tail)
      ensures Seen() == old(Seen()) + text
    {
      tail := tail + text;
      assert tail[..scanFrom] == old(tail)[..scanFrom];
    }

    /**
     push, `text` being what the decoder makes of the chunk. The events of one push are exactly
     those whose closing blank line arrived with it, however the stream is cut.
     */
    method Push(text: Text) returns (r: PushResult)
      requires Valid()
      modifies this
      ensures Valid() && started == (old(started) || text != [])
      ensures Seen() == old(Seen()) + if old(started) then text else StripBom(text)
      ensures r.Events? ==> Delivered(Seen()) == old(Delivered(Seen())) + r.events
      ensures r == Overflow(maxBufferedBytes) || r.Events?
      ensures r.Overflow? <==> dataBytes + Utf8Length(tail) > maxBufferedBytes
    {
      NothingHeld();
      var fed := text;
      if !started && fed != [] {
        started := true;
        if fed[0] == BOM {
          fed := fed[1..];
        }
      }
      Append(fed);
      var events := DrainLines(false);
      NothingHeld();
      var over := CheckOverflow();
      r := if over then Overflow(maxBufferedBytes) else Events(events);
    }

    /** The end of flush: the unterminated line as a field, then the pending event. */
    method FlushTail() returns (last: seq<SseEvent>)
      requires dataBytes == DataBytes(dataLines) && AtLineStart(consumed, Pending())
      modifies this
      ensures last == old(Dispatched(if tail == [] then Pending() else ApplyLine(Pending(), tail)))
      ensures Valid() && Seen() == [] && started == old(started)
    {
      hide ApplyLine, Dispatched;
      if tail != [] {
        ParseField(tail);
        tail := [];
      }
      scanFrom := 0;
      last := Dispatch();
      consumed := [];
    }

    /**
     flush, `rest` being what the decoder still held at the end of the stream: delivers what
     remains of the reference's events and leaves the parser as new, so a second flush adds nothing.
     */
    method Flush(rest: Text) returns (events: seq<SseEvent>)
      requires Valid()
      modifies this
      ensures Valid() && Seen() == [] && started == old(started)
      ensures Parse(old(Seen()) + rest) == old(Delivered(Seen())) + events
    {
      hide ApplyLine, Dispatched, DataBytes, DataBuffer;
      NothingHeld();
      Append(rest);
      events := DrainLines(true);
      NothingHeld();
      ghost var all := Seen();
      var last := FlushTail();
      assert Parse(all) == Delivered(all) + last;
      events := events + last;
    }
  }

  /** The text of a list of chunks. */
  function Concat(chunks: seq<Text>): Text {
    if chunks == [] then [] else Concat(chunks[..|chunks| - 1]) + chunks[|chunks| - 1]
  }

  lemma {:induction false} FieldSizes(line: Text)
    ensures |FieldName(line)| + |FieldValue(line)| <= |line|
    decreases |line|
  {
    if line != [] {
      FieldSizes(line[1..]);
    }
  }

  /** What is pending never exceeds what was received. */
  lemma {:induction false} PendingSize(s: RefState, t: Text)
    ensures |Run(s, t).line| + |Run(s, t).buffers.data| <= |s.line| + |s.buffers.data| + |t|
    decreases |t|
  {
    if t != [] {
      FieldSizes(s.line);
      PendingSize(Step(s, t[0]), t[1..]);
    }
  }

  lemma {:induction false} DataBytesSize(lines: seq<Text>)
    ensures DataBytes(lines) <= 3 * |DataBuffer(lines)|
  {
    if lines != [] {
      DataBytesSize(lines[..|lines| - 1]);
      Utf8AtMostThreePerUnit(lines[|lines| - 1]);
    }
  }

  /** After some chunk more than a third of the cap has come of an event, or comments, not yet finished. */
  predicate HasLongEvent(chunks: seq<Text>, maxBufferedBytes: nat) {
    exists n :: 0 <= n <= |chunks| && maxBufferedBytes < 3 * Backlog(StripBom(Concat(chunks[..n])))
  }

  /**
   The parser over a whole stream cut into any chunks: the events are those of the reference on the
   whole text, so the cutting does not matter. A stream of any length stays below the cap while no
   event in it, with the comments before it, is longer than a third of the cap.
   */
  method ParseChunks(chunks: seq<Text>, rest: Text, maxBufferedBytes: nat) returns (r: PushResult)
    ensures r.Events? ==> r.events == Parse(StripBom(Concat(chunks)) + rest)
    ensures r.Overflow? ==> r.limit == maxBufferedBytes && HasLongEvent(chunks, maxBufferedBytes)
  {
    hide Backlog, Rested, Utf8Length;
    var parser := new SseParser(maxBufferedBytes);
    var events: seq<SseEvent> := [];
    var n := 0;
    while n < |chunks|
      invariant n <= |chunks| && parser.Valid() && fresh(parser)
      invariant parser.maxBufferedBytes == maxBufferedBytes
      invariant parser.started <==> Concat(chunks[..n]) != []
      invariant parser.Seen() == StripBom(Concat(chunks[..n]))
      invariant events == Delivered(parser.Seen())
    {
      assert chunks[..n + 1][..n] == chunks[..n];
      assert Concat(chunks[..n + 1]) == Concat(chunks[..n]) + chunks[n];
      var pushed := parser.Push(chunks[n]);
      n := n + 1;
      if pushed.Overflow? {
        parser.RetainedSize();
        assert parser.Seen() == StripBom(Concat(chunks[..n]));
        return pushed;
      }
      events := events + pushed.events;
    }
    assert chunks[..n] == chunks;
    var last := parser.Flush(rest);
    r := Events(events + last);
  }
}
