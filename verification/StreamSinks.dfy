/** The streamed reply to the client: ReplyStreamSink of src/agent/reply-stream-sink.ts. */
module StreamSinks {
  import opened Wrappers
  import opened EventStream

  type Byte = b: int | 0 <= b < 256

  datatype TimeoutCode = FirstEventTimeout | DeadlineTimeout

  /** Why a call or an attempt was aborted. */
  datatype Reason = ClientClosed | StreamTimeout(timeout: TimeoutCode) | ProxyAbort(code: Text) | OtherReason

  datatype Error = Aborted(reason: Reason) | ResponseTooLarge | HeadersTimeout | BodyTimeout | BufferOverflow | Failure

  /** What becomes of bytes handed to the response: taken, or waited for until one of three events. */
  datatype Flow = Taken | Drained | ClosedWaiting | AbortedWaiting(reason: Reason)

  /** What the environment does around one write; the client may have gone just before it. */
  datatype WriteEnv = WriteEnv(closedFirst: bool, flow: Flow)

  predicate Flows(w: WriteEnv) {
    !w.closedFirst && (w.flow.Taken? || w.flow.Drained?)
  }

  class ReplyStreamSink {
    var closed: bool
    var isCommitted: bool
    var ended: bool
    /** How many response heads and which bytes were handed to the response. */
    var heads: nat
    var sent: seq<Byte>

    constructor ()
      ensures !closed && !isCommitted && !ended && heads == 0 && sent == []
    {
      closed, isCommitted, ended, heads, sent := false, false, false, 0, [];
    }

    /** The response's 'close' event before the reply was finished. */
    method OnClose()
      modifies `closed
      ensures closed
    {
      closed := true;
    }

    /** commit: one head for the whole reply. */
    method Commit()
      modifies `isCommitted, `heads
      ensures isCommitted && heads == old(heads) + if old(isCommitted) then 0 else 1
    {
      if isCommitted {
        return;
      }
      isCommitted := true;
      heads := heads + 1;
    }

    /** write: nothing goes to a client that left; a client lost while draining has been handed the bytes. */
    method Write(chunk: seq<Byte>, env: WriteEnv) returns (thrown: Option<Error>)
      modifies `closed, `sent
      ensures sent == old(sent) + if old(closed) || env.closedFirst then [] else chunk
      ensures closed == (old(closed) || env.closedFirst || env.flow.ClosedWaiting?)
      ensures thrown.None? <==> !old(closed) && Flows(env)
      ensures thrown.Some? ==> thrown.value.Aborted?
      ensures old(closed) || env.closedFirst ==> thrown == Some(Aborted(ClientClosed))
      ensures thrown.Some? && !closed ==> env.flow.AbortedWaiting? && thrown.value == Aborted(env.flow.reason)
      ensures thrown.Some? && !old(closed) && env.flow.ClosedWaiting? ==> thrown.value == Aborted(ClientClosed)
    {
      if env.closedFirst {
        closed := true;
      }
      if closed {
        closed := closed || env.flow.ClosedWaiting?;
        return Some(Aborted(ClientClosed));
      }
      sent := sent + chunk;
      match env.flow {
        case Taken => thrown := None;
        case Drained => thrown := None;
        case ClosedWaiting =>
          closed := true;
          thrown := Some(Aborted(ClientClosed));
        case AbortedWaiting(reason) => thrown := Some(Aborted(reason));
      }
    }

    method End()
      modifies `ended
      ensures ended == (old(ended) || !closed)
    {
      if !closed && !ended {
        ended := true;
      }
    }
  }
}
