/** The websocket loop (app.py `websocket_transcription`): each inbound JSON
    envelope is ignored, answered with an error, or handed to the session
    store as a chunk. Chunks are handled to completion in arrival order. */
module Connection {
  import opened Optional
  import opened Engine
  import opened Sessions

  /** The `action` value of the informational no-op message. */
  const ConnectAction: string := "connect_to_session"
  /** Error text for a message without a usable `key` or `chunk`. */
  const InvalidFormat: string := "Invalid message format."
  /** Error text for a `chunk` that is not valid base64. */
  const DecodeFailed: string := "Failed to decode chunk."

  /** An inbound envelope; a field is None when it is absent or null. */
  datatype Message = Message(action: Option<string>, key: Option<string>, chunk: Option<string>, final: Option<bool>)

  /** What the loop does with one message. */
  datatype Disposition = Ignore | Reply(reply: Outbound) | Dispatch(event: Event)

  /** Python truthiness of an optional string: present and not empty. */
  predicate Given(f: Option<string>)
  {
    f.Some? && |f.value| > 0
  }

  /** Classify one message. `decode` is the base64 decoder, None where it raises. */
  function Classify(decode: string -> Option<Chunk>, m: Message): (d: Disposition)
    ensures d.Ignore? <==> m.action == Some(ConnectAction)
    ensures d == Reply(Error(None, InvalidFormat)) <==>
              m.action != Some(ConnectAction) && (!Given(m.key) || !Given(m.chunk))
    ensures d == Reply(Error(m.key, DecodeFailed)) <==>
              m.action != Some(ConnectAction) && Given(m.key) && Given(m.chunk) && decode(m.chunk.value).None?
    ensures d.Dispatch? <==>
              m.action != Some(ConnectAction) && Given(m.key) && Given(m.chunk) && decode(m.chunk.value).Some?
    ensures d.Dispatch? ==> d.event == Event(decode(m.chunk.value).value, m.final == Some(true), m.key.value)
  {
    if m.action == Some(ConnectAction) then Ignore
    else if !Given(m.key) || !Given(m.chunk) then Reply(Error(None, InvalidFormat))
    else
      match decode(m.chunk.value)
      case None => Reply(Error(Some(m.key.value), DecodeFailed))
      case Some(bytes) => Dispatch(Event(bytes, m.final.GetOr(false), m.key.value))
  }

  /** One turn of the loop: read a message, then ignore it, reply, or handle the chunk. */
  function Receive(w: Whisper, decode: string -> Option<Chunk>, st: Store, m: Message): (r: Step)
    ensures !Classify(decode, m).Dispatch? ==> r.store == st
    ensures Classify(decode, m).Reply? ==> r.out == Some(Classify(decode, m).reply)
    ensures Classify(decode, m).Ignore? ==> r.out == None
  {
    match Classify(decode, m)
    case Ignore => Step(st, None)
    case Reply(o) => Step(st, Some(o))
    case Dispatch(e) => HandleChunk(w, st, e.audio, e.final, e.key)
  }

  /** The loop over a sequence of messages; each message is answered by at
      most one outbound message. */
  function Serve(w: Whisper, decode: string -> Option<Chunk>, st: Store, msgs: seq<Message>): (r: Run)
    ensures |r.outs| <= |msgs|
    decreases |msgs|
  {
    if |msgs| == 0 then Run(st, [])
    else
      var step := Receive(w, decode, st, msgs[0]);
      var rest := Serve(w, decode, step.store, msgs[1..]);
      Run(rest.store, step.out.ToSeq() + rest.outs)
  }

  /** The chunks the loop hands on, in order. */
  function Dispatched(decode: string -> Option<Chunk>, msgs: seq<Message>): seq<Event>
  {
    if |msgs| == 0 then []
    else
      var d := Classify(decode, msgs[0]);
      (if d.Dispatch? then [d.event] else []) + Dispatched(decode, msgs[1..])
  }

  /** The transcript messages among `outs`, in order. */
  function Transcripts(outs: seq<Outbound>): seq<Outbound>
  {
    if |outs| == 0 then []
    else (if outs[0].Transcript? then [outs[0]] else []) + Transcripts(outs[1..])
  }

  lemma {:induction false} TranscriptsAppend(a: seq<Outbound>, b: seq<Outbound>)
    ensures Transcripts(a + b) == Transcripts(a) + Transcripts(b)
    decreases |a|
  {
    if |a| > 0 {
      assert (a + b)[1..] == a[1..] + b;
      TranscriptsAppend(a[1..], b);
    } else {
      assert a + b == b;
    }
  }

  /** Rejected and ignored messages leave no trace in the store: serving a
      stream ends in the store that feeding just its dispatched chunks gives,
      and the transcript messages it sends are exactly the ones that feeding sends. */
  lemma {:induction false} ServeIsFeedOfDispatched(w: Whisper, decode: string -> Option<Chunk>, st: Store, msgs: seq<Message>)
    ensures Serve(w, decode, st, msgs).store == Feed(w, st, Dispatched(decode, msgs)).store
    ensures Transcripts(Serve(w, decode, st, msgs).outs) == Feed(w, st, Dispatched(decode, msgs)).outs
    decreases |msgs|
  {
    if |msgs| == 0 {
      assert Feed(w, st, []) == Run(st, []);
    } else {
      var d := Classify(decode, msgs[0]);
      var step := Receive(w, decode, st, msgs[0]);
      var rest := Serve(w, decode, step.store, msgs[1..]);
      ServeIsFeedOfDispatched(w, decode, step.store, msgs[1..]);
      TranscriptsAppend(step.out.ToSeq(), rest.outs);
      if d.Dispatch? {
        var e := d.event;
        assert Dispatched(decode, msgs) == [e] + Dispatched(decode, msgs[1..]);
        FeedFirst(w, st, [e] + Dispatched(decode, msgs[1..]));
        assert ([e] + Dispatched(decode, msgs[1..]))[0] == e && ([e] + Dispatched(decode, msgs[1..]))[1..] == Dispatched(decode, msgs[1..]);
        if step.out.Some? {
          assert Transcripts(step.out.ToSeq()) == [step.out.value] + Transcripts([]);
        }
      } else {
        assert Dispatched(decode, msgs) == Dispatched(decode, msgs[1..]);
        if step.out.Some? {
          assert Transcripts(step.out.ToSeq()) == [] + Transcripts([]);
        }
      }
    }
  }

  /** Serving any stream from the empty store keeps the store well formed. */
  lemma ServePreservesWellFormed(w: Whisper, decode: string -> Option<Chunk>, msgs: seq<Message>)
    ensures WellFormed(Serve(w, decode, EmptyStore, msgs).store)
  {
    ServeIsFeedOfDispatched(w, decode, EmptyStore, msgs);
    FeedPreservesWellFormed(w, EmptyStore, Dispatched(decode, msgs));
  }

  /** A chunk whose base64 does not decode is answered with an error naming
      its key, and no session is created or changed. */
  lemma BadChunkTouchesNothing(w: Whisper, decode: string -> Option<Chunk>, st: Store, m: Message)
    requires m.action != Some(ConnectAction) && Given(m.key) && Given(m.chunk)
    requires decode(m.chunk.value).None?
    ensures Receive(w, decode, st, m) == Step(st, Some(Error(m.key, DecodeFailed)))
  {
  }
}
