/** The session store and flush policy (app.py `handle_transcriptions`): two
    process-wide maps keyed by session id, updated one chunk at a time. */
module Sessions {
  import opened Optional
  import opened SessionKey
  import opened Engine

  /** Buffered chunks at which a non-final chunk triggers a transcription. */
  const FlushThreshold: nat := 5

  /** `chunk_cache` and `transcription_cache`: buffered chunks and running transcript per session id. */
  datatype Store = Store(chunks: map<string, seq<Chunk>>, transcripts: map<string, string>)

  /** Both caches empty, as at process start. */
  const EmptyStore: Store := Store(map[], map[])

  /** A JSON message sent back to the client: a transcript update, or an error
      (`about` is the offending key when the message carries one). */
  datatype Outbound =
    | Transcript(key: string, text: string, final: bool)
    | Error(about: Option<string>, reason: string)

  /** The store after one step and the message that step sent, if any. */
  datatype Step = Step(store: Store, out: Option<Outbound>)

  /** One session's entries in both caches. */
  datatype View = View(chunks: Option<seq<Chunk>>, transcript: Option<string>)

  function ViewOf(st: Store, sid: string): View
  {
    View(if sid in st.chunks then Some(st.chunks[sid]) else None,
         if sid in st.transcripts then Some(st.transcripts[sid]) else None)
  }

  /** The session's buffer, `[]` when it has none. */
  function Buffered(st: Store, sid: string): seq<Chunk>
  {
    if sid in st.chunks then st.chunks[sid] else []
  }

  /** The session's transcript, `""` when it has none. */
  function TranscriptSoFar(st: Store, sid: string): string
  {
    if sid in st.transcripts then st.transcripts[sid] else ""
  }

  /** Whether a chunk arriving on a buffer of `buffered` chunks triggers a transcription. */
  predicate Flushes(buffered: nat, final: bool)
  {
    final || buffered + 1 >= FlushThreshold
  }

  /** app.py `handle_transcriptions`, run to completion as one atomic step:
      append the chunk to its session's buffer; on a final chunk or a buffer
      of at least `FlushThreshold` chunks, transcribe the WHOLE buffer (it is
      not drained), extend the transcript by a space and the new text and
      send it back under the original key; a final chunk then ends the session. */
  function HandleChunk(w: Whisper, st: Store, audio: Chunk, final: bool, key: string): (r: Step)
    // every other session is untouched
    ensures forall s :: s != SessionId(key) ==> ViewOf(r.store, s) == ViewOf(st, s)
    // a non-final chunk is appended to its own session's buffer
    ensures !final ==> Buffered(r.store, SessionId(key)) == Buffered(st, SessionId(key)) + [audio]
    // a final chunk removes the session from both caches
    ensures final ==> SessionId(key) !in r.store.chunks && SessionId(key) !in r.store.transcripts
    // a message is sent exactly when the flush condition holds
    ensures r.out.Some? <==> Flushes(|Buffered(st, SessionId(key))|, final)
    ensures r.out.None? ==> r.store.transcripts == st.transcripts
    // the message carries the original key and the extended transcript,
    // and the engine sees every chunk the session has buffered so far
    ensures r.out.Some? ==> r.out.value == Transcript(key,
              TranscriptSoFar(st, SessionId(key)) + " " + TranscribeStream(w, Buffered(st, SessionId(key)) + [audio]),
              final)
    // a non-final flush keeps the transcript it sent
    ensures r.out.Some? && !final ==> TranscriptSoFar(r.store, SessionId(key)) == r.out.value.text
  {
    var sid := SessionId(key);
    var buffer := Buffered(st, sid) + [audio];
    var chunks := st.chunks[sid := buffer];
    if final || |buffer| >= FlushThreshold then
      var text := TranscriptSoFar(st, sid) + " " + TranscribeStream(w, buffer);
      var out := Some(Transcript(key, text, final));
      if final then Step(Store(chunks - {sid}, st.transcripts[sid := text] - {sid}), out)
      else Step(Store(chunks, st.transcripts[sid := text]), out)
    else Step(Store(chunks, st.transcripts), None)
  }

  /** What the store guarantees between steps: a transcript exists only for a
      buffered session, and exactly when that session has reached the threshold;
      no buffer is empty; every transcript starts with the separating space. */
  predicate WellFormed(st: Store)
  {
    && st.transcripts.Keys <= st.chunks.Keys
    && (forall s :: s in st.chunks ==>
          |st.chunks[s]| >= 1 && (s in st.transcripts <==> |st.chunks[s]| >= FlushThreshold))
    && (forall s :: s in st.transcripts ==> |st.transcripts[s]| >= 1 && st.transcripts[s][0] == ' ')
  }

  lemma EmptyStoreWellFormed()
    ensures WellFormed(EmptyStore)
  {
  }

  /** Every step keeps the store well formed. */
  lemma HandleChunkPreservesWellFormed(w: Whisper, st: Store, audio: Chunk, final: bool, key: string)
    requires WellFormed(st)
    ensures WellFormed(HandleChunk(w, st, audio, final, key).store)
  {
  }

  /** A chunk as handed to `handle_transcriptions`. */
  datatype Event = Event(audio: Chunk, final: bool, key: string)

  /** The store after a sequence of steps and the messages they sent, in order. */
  datatype Run = Run(store: Store, outs: seq<Outbound>)

  /** One step of the store machine, as a value. */
  type Handler = (Store, Event) -> Step

  /** The events handled one after another by `h`, in arrival order. */
  function Replay(h: Handler, st: Store, evs: seq<Event>): Run
    decreases |evs|
  {
    if |evs| == 0 then Run(st, [])
    else
      var step := h(st, evs[0]);
      var rest := Replay(h, step.store, evs[1..]);
      Run(rest.store, step.out.ToSeq() + rest.outs)
  }

  /** `handle_transcriptions` as a `Handler`. */
  function Handle(w: Whisper): Handler
  {
    (st: Store, e: Event) => HandleChunk(w, st, e.audio, e.final, e.key)
  }

  /** The events handled one after another by `handle_transcriptions`, in
      arrival order; each chunk sends at most one message. */
  function Feed(w: Whisper, st: Store, evs: seq<Event>): (r: Run)
    ensures |r.outs| <= |evs|
  {
    ReplayOutsBound(Handle(w), st, evs);
    Replay(Handle(w), st, evs)
  }

  /** A handler sends at most one message per event. */
  lemma {:induction false} ReplayOutsBound(h: Handler, st: Store, evs: seq<Event>)
    ensures |Replay(h, st, evs).outs| <= |evs|
    decreases |evs|
  {
    if |evs| > 0 {
      ReplayOutsBound(h, h(st, evs[0]).store, evs[1..]);
    }
  }

  /** Feeding a non-empty stream: its first event, then the rest. */
  lemma FeedFirst(w: Whisper, st: Store, evs: seq<Event>)
    requires |evs| > 0
    ensures Feed(w, st, evs) ==
      var step := HandleChunk(w, st, evs[0].audio, evs[0].final, evs[0].key);
      var rest := Feed(w, step.store, evs[1..]);
      Run(rest.store, step.out.ToSeq() + rest.outs)
  {
  }

  /** Every message of a run is a transcript, and a session none of the
      chunks belongs to ends the run exactly as it started. */
  lemma {:induction false} FeedShape(w: Whisper, st: Store, evs: seq<Event>)
    ensures forall i :: 0 <= i < |Feed(w, st, evs).outs| ==> Feed(w, st, evs).outs[i].Transcript?
    ensures forall s :: (forall i :: 0 <= i < |evs| ==> SessionId(evs[i].key) != s) ==>
              ViewOf(Feed(w, st, evs).store, s) == ViewOf(st, s)
    decreases |evs|
  {
    if |evs| == 0 {
      assert Feed(w, st, evs) == Run(st, []);
    } else {
      var next := HandleChunk(w, st, evs[0].audio, evs[0].final, evs[0].key).store;
      FeedFirst(w, st, evs);
      FeedShape(w, next, evs[1..]);
      FeedShapeHead(w, st, evs, Feed(w, next, evs[1..]));
    }
  }

  /** The inductive step of `FeedShape`: its two facts about `rest`, the run
      of the stream's tail after its first event, carry over to the whole
      stream. */
  lemma FeedShapeHead(w: Whisper, st: Store, evs: seq<Event>, rest: Run)
    requires |evs| > 0
    requires forall i :: 0 <= i < |rest.outs| ==> rest.outs[i].Transcript?
    requires forall s :: (forall i :: 0 <= i < |evs[1..]| ==> SessionId(evs[1..][i].key) != s) ==>
               ViewOf(rest.store, s) == ViewOf(HandleChunk(w, st, evs[0].audio, evs[0].final, evs[0].key).store, s)
    ensures var outs := HandleChunk(w, st, evs[0].audio, evs[0].final, evs[0].key).out.ToSeq() + rest.outs;
            forall i :: 0 <= i < |outs| ==> outs[i].Transcript?
    ensures forall s :: (forall i :: 0 <= i < |evs| ==> SessionId(evs[i].key) != s) ==> ViewOf(rest.store, s) == ViewOf(st, s)
  {
    var e := evs[0];
    var step := HandleChunk(w, st, e.audio, e.final, e.key);
    var outs := step.out.ToSeq() + rest.outs;
    forall i | 0 <= i < |outs|
      ensures outs[i].Transcript?
    {
      if i >= |step.out.ToSeq()| {
        assert outs[i] == rest.outs[i - |step.out.ToSeq()|];
      }
    }
    forall s | forall i :: 0 <= i < |evs| ==> SessionId(evs[i].key) != s
      ensures ViewOf(rest.store, s) == ViewOf(st, s)
    {
      assert SessionId(e.key) != s;
      assert forall i :: 0 <= i < |evs[1..]| ==> evs[1..][i] == evs[i + 1];
    }
  }

  /** Any sequence of steps keeps the store well formed. */
  lemma {:induction false} FeedPreservesWellFormed(w: Whisper, st: Store, evs: seq<Event>)
    requires WellFormed(st)
    ensures WellFormed(Feed(w, st, evs).store)
    decreases |evs|
  {
    if |evs| > 0 {
      HandleChunkPreservesWellFormed(w, st, evs[0].audio, evs[0].final, evs[0].key);
      FeedPreservesWellFormed(w, HandleChunk(w, st, evs[0].audio, evs[0].final, evs[0].key).store, evs[1..]);
    }
  }

  /** The audio of the events, in order. */
  function Audios(evs: seq<Event>): (a: seq<Chunk>)
    ensures |a| == |evs|
  {
    if |evs| == 0 then [] else [evs[0].audio] + Audios(evs[1..])
  }

  function Max(a: int, b: int): int { if a >= b then a else b }

  /** Reference count of transcriptions triggered by `n` non-final chunks
      arriving on a buffer of `b`: one for every chunk that brings the buffer
      to `FlushThreshold` or beyond. */
  function FlushCount(b: nat, n: nat): nat
  {
    if b + n < FlushThreshold then 0 else b + n - Max(b, FlushThreshold - 1)
  }

  /** The first of `n` chunks flushes or not; the rest count from a buffer one longer. */
  lemma FlushCountStep(b: nat, n: nat)
    requires n > 0
    ensures FlushCount(b, n) == (if Flushes(b, false) then 1 else 0) + FlushCount(b + 1, n - 1)
  {
  }

  /** Non-final chunks for one session: its buffer grows by exactly those
      chunks in arrival order, the old transcript stays a prefix of the new
      one, and when nothing was sent the transcript entry is untouched. */
  lemma {:induction false} NonFinalAccumulates(w: Whisper, st: Store, evs: seq<Event>, sid: string)
    requires forall i :: 0 <= i < |evs| ==> !evs[i].final && SessionId(evs[i].key) == sid
    ensures Buffered(Feed(w, st, evs).store, sid) == Buffered(st, sid) + Audios(evs)
    ensures TranscriptSoFar(st, sid) <= TranscriptSoFar(Feed(w, st, evs).store, sid)
    ensures Feed(w, st, evs).outs == [] ==> ViewOf(Feed(w, st, evs).store, sid).transcript == ViewOf(st, sid).transcript
    decreases |evs|
  {
    if |evs| == 0 {
      assert Feed(w, st, evs) == Run(st, []);
      assert Buffered(st, sid) + Audios(evs) == Buffered(st, sid);
    } else {
      var step := HandleChunk(w, st, evs[0].audio, evs[0].final, evs[0].key);
      var rest := Feed(w, step.store, evs[1..]);
      FeedFirst(w, st, evs);
      NonFinalAccumulates(w, step.store, evs[1..], sid);
      NonFinalAccumulatesHead(w, st, evs, sid, rest);
    }
  }

  /** The inductive step of `NonFinalAccumulates`: its three facts about
      `rest`, the run of the stream's tail after its first chunk, carry over
      to the whole stream. */
  lemma NonFinalAccumulatesHead(w: Whisper, st: Store, evs: seq<Event>, sid: string, rest: Run)
    requires |evs| > 0 && !evs[0].final && SessionId(evs[0].key) == sid
    requires var next := HandleChunk(w, st, evs[0].audio, evs[0].final, evs[0].key).store;
             && Buffered(rest.store, sid) == Buffered(next, sid) + Audios(evs[1..])
             && TranscriptSoFar(next, sid) <= TranscriptSoFar(rest.store, sid)
             && (rest.outs == [] ==> ViewOf(rest.store, sid).transcript == ViewOf(next, sid).transcript)
    ensures var out := HandleChunk(w, st, evs[0].audio, evs[0].final, evs[0].key).out;
            && Buffered(rest.store, sid) == Buffered(st, sid) + Audios(evs)
            && TranscriptSoFar(st, sid) <= TranscriptSoFar(rest.store, sid)
            && (out.ToSeq() + rest.outs == [] ==> ViewOf(rest.store, sid).transcript == ViewOf(st, sid).transcript)
  {
    var step := HandleChunk(w, st, evs[0].audio, evs[0].final, evs[0].key);
    NonFinalStep(w, st, evs[0], sid);
    NonFinalBuffer(w, st, evs, sid);
    if step.out.ToSeq() + rest.outs == [] {
      assert step.out.None? && rest.outs == [];
    }
  }

  /** Non-final chunks for one session: one message goes out per chunk that
      brings the buffer to `FlushThreshold` or beyond, each of them a
      non-final transcript. */
  lemma {:induction false} NonFinalFlushes(w: Whisper, st: Store, evs: seq<Event>, sid: string)
    requires forall i :: 0 <= i < |evs| ==> !evs[i].final && SessionId(evs[i].key) == sid
    ensures |Feed(w, st, evs).outs| == FlushCount(|Buffered(st, sid)|, |evs|)
    ensures forall i :: 0 <= i < |Feed(w, st, evs).outs| ==>
              Feed(w, st, evs).outs[i].Transcript? && !Feed(w, st, evs).outs[i].final
    decreases |evs|
  {
    if |evs| == 0 {
      assert Feed(w, st, evs) == Run(st, []);
    } else {
      var next := HandleChunk(w, st, evs[0].audio, evs[0].final, evs[0].key).store;
      FeedFirst(w, st, evs);
      NonFinalFlushes(w, next, evs[1..], sid);
      NonFinalFlushesHead(w, st, evs, sid, Feed(w, next, evs[1..]).outs);
    }
  }

  /** The inductive step of `NonFinalFlushes`: `later`, the messages of the
      stream's tail after its first chunk, counted from the buffer that chunk
      leaves, and the first chunk's own message in front of them. */
  lemma NonFinalFlushesHead(w: Whisper, st: Store, evs: seq<Event>, sid: string, later: seq<Outbound>)
    requires |evs| > 0 && !evs[0].final && SessionId(evs[0].key) == sid
    requires |later| == FlushCount(|Buffered(st, sid)| + 1, |evs| - 1)
    requires forall i :: 0 <= i < |later| ==> later[i].Transcript? && !later[i].final
    ensures var outs := HandleChunk(w, st, evs[0].audio, evs[0].final, evs[0].key).out.ToSeq() + later;
            && |outs| == FlushCount(|Buffered(st, sid)|, |evs|)
            && forall i :: 0 <= i < |outs| ==> outs[i].Transcript? && !outs[i].final
  {
    var step := HandleChunk(w, st, evs[0].audio, evs[0].final, evs[0].key);
    NonFinalStep(w, st, evs[0], sid);
    FlushCountStep(|Buffered(st, sid)|, |evs|);
    var outs := step.out.ToSeq() + later;
    forall i | 0 <= i < |outs|
      ensures outs[i].Transcript? && !outs[i].final
    {
      if i >= |step.out.ToSeq()| {
        assert outs[i] == later[i - |step.out.ToSeq()|];
      }
    }
  }

  /** One non-final chunk, in the terms `NonFinalAccumulates` needs. */
  lemma NonFinalStep(w: Whisper, st: Store, e: Event, sid: string)
    requires !e.final && SessionId(e.key) == sid
    ensures var step := HandleChunk(w, st, e.audio, e.final, e.key);
            && Buffered(step.store, sid) == Buffered(st, sid) + [e.audio]
            && |step.out.ToSeq()| == (if Flushes(|Buffered(st, sid)|, false) then 1 else 0)
            && (step.out.Some? ==> step.out.value.Transcript? && !step.out.value.final)
            && TranscriptSoFar(st, sid) <= TranscriptSoFar(step.store, sid)
            && (step.out.None? ==> ViewOf(step.store, sid).transcript == ViewOf(st, sid).transcript)
  {
  }

  /** A fresh session fed `n` non-final chunks: the buffer holds all of them
      (a flush never drains it), nothing is sent before the fifth chunk, and
      every chunk from the fifth on triggers one transcription. In particular
      exactly five chunks give exactly one message and a buffer of five. */
  lemma FreshSessionNonFinal(w: Whisper, st: Store, evs: seq<Event>, sid: string)
    requires sid !in st.chunks
    requires forall i :: 0 <= i < |evs| ==> !evs[i].final && SessionId(evs[i].key) == sid
    ensures Buffered(Feed(w, st, evs).store, sid) == Audios(evs)
    ensures |Feed(w, st, evs).outs| == if |evs| < FlushThreshold then 0 else |evs| - (FlushThreshold - 1)
  {
    NonFinalAccumulates(w, st, evs, sid);
    NonFinalFlushes(w, st, evs, sid);
  }

  /** The events that belong to session `sid`, in order. */
  function EventsFor(evs: seq<Event>, sid: string): (r: seq<Event>)
    ensures forall i :: 0 <= i < |r| ==> SessionId(r[i].key) == sid
  {
    if |evs| == 0 then []
    else (if SessionId(evs[0].key) == sid then [evs[0]] else []) + EventsFor(evs[1..], sid)
  }

  /** The transcript messages about session `sid`, in order. */
  function MessagesFor(outs: seq<Outbound>, sid: string): seq<Outbound>
  {
    if |outs| == 0 then []
    else (if outs[0].Transcript? && SessionId(outs[0].key) == sid then [outs[0]] else []) + MessagesFor(outs[1..], sid)
  }

  lemma {:induction false} MessagesForAppend(a: seq<Outbound>, b: seq<Outbound>, sid: string)
    ensures MessagesFor(a + b, sid) == MessagesFor(a, sid) + MessagesFor(b, sid)
    decreases |a|
  {
    if |a| > 0 {
      assert (a + b)[1..] == a[1..] + b;
      MessagesForAppend(a[1..], b, sid);
    } else {
      assert a + b == b;
    }
  }

  /** A step's outcome for its own session depends only on that session's entries. */
  lemma HandleChunkLocal(w: Whisper, s1: Store, s2: Store, audio: Chunk, final: bool, key: string)
    requires ViewOf(s1, SessionId(key)) == ViewOf(s2, SessionId(key))
    ensures HandleChunk(w, s1, audio, final, key).out == HandleChunk(w, s2, audio, final, key).out
    ensures ViewOf(HandleChunk(w, s1, audio, final, key).store, SessionId(key))
         == ViewOf(HandleChunk(w, s2, audio, final, key).store, SessionId(key))
  {
  }

  /** Sessions never interfere: what one session holds and hears after an
      interleaved stream is what it would hold and hear had it received only
      its own chunks, from any store that agrees on it. */
  lemma {:induction false} SessionsIsolated(w: Whisper, s1: Store, s2: Store, evs: seq<Event>, sid: string)
    requires ViewOf(s1, sid) == ViewOf(s2, sid)
    ensures ViewOf(Feed(w, s1, evs).store, sid) == ViewOf(Feed(w, s2, EventsFor(evs, sid)).store, sid)
    ensures MessagesFor(Feed(w, s1, evs).outs, sid) == Feed(w, s2, EventsFor(evs, sid)).outs
    decreases |evs|
  {
    if |evs| > 0 {
      var e := evs[0];
      var step1 := HandleChunk(w, s1, e.audio, e.final, e.key);
      var rest1 := Feed(w, step1.store, evs[1..]);
      MessagesForAppend(step1.out.ToSeq(), rest1.outs, sid);
      if SessionId(e.key) == sid {
        var step2 := HandleChunk(w, s2, e.audio, e.final, e.key);
        HandleChunkLocal(w, s1, s2, e.audio, e.final, e.key);
        SessionsIsolated(w, step1.store, step2.store, evs[1..], sid);
        assert EventsFor(evs, sid) == [e] + EventsFor(evs[1..], sid);
        FeedFirst(w, s2, [e] + EventsFor(evs[1..], sid));
        assert ([e] + EventsFor(evs[1..], sid))[0] == e && ([e] + EventsFor(evs[1..], sid))[1..] == EventsFor(evs[1..], sid);
        if step1.out.Some? {
          assert MessagesFor(step1.out.ToSeq(), sid) == [step1.out.value] + MessagesFor([], sid);
        }
      } else {
        assert ViewOf(step1.store, sid) == ViewOf(s1, sid);
        SessionsIsolated(w, step1.store, s2, evs[1..], sid);
        assert EventsFor(evs, sid) == EventsFor(evs[1..], sid);
        if step1.out.Some? {
          assert MessagesFor(step1.out.ToSeq(), sid) == [] + MessagesFor([], sid);
        }
      }
    }
  }

  /** Replaying `a ++ b` is replaying `a`, then `b` from where `a` left the store. */
  lemma {:induction false} ReplayAppend(h: Handler, st: Store, a: seq<Event>, b: seq<Event>)
    ensures Replay(h, st, a + b).store == Replay(h, Replay(h, st, a).store, b).store
    ensures Replay(h, st, a + b).outs == Replay(h, st, a).outs + Replay(h, Replay(h, st, a).store, b).outs
    decreases |a|
  {
    if |a| == 0 {
      assert a + b == b;
    } else {
      assert (a + b)[0] == a[0] && (a + b)[1..] == a[1..] + b;
      ReplayAppend(h, h(st, a[0]).store, a[1..], b);
    }
  }

  /** Feeding `a ++ b` is feeding `a`, then `b` from where `a` left the store. */
  lemma FeedAppend(w: Whisper, st: Store, a: seq<Event>, b: seq<Event>)
    ensures Feed(w, st, a + b).store == Feed(w, Feed(w, st, a).store, b).store
    ensures Feed(w, st, a + b).outs == Feed(w, st, a).outs + Feed(w, Feed(w, st, a).store, b).outs
  {
    ReplayAppend(Handle(w), st, a, b);
  }

  /** On a buffer of four, a non-final chunk and then a final one. */
  lemma FifthThenFinal(w: Whisper, st: Store, sid: string, c: seq<Chunk>, e5: Event, e6: Event)
    requires |c| == 4 && Buffered(st, sid) == c && sid !in st.transcripts
    requires !e5.final && e6.final
    requires SessionId(e5.key) == sid && SessionId(e6.key) == sid
    ensures Feed(w, st, [e5, e6]).outs ==
              [Transcript(e5.key, " " + TranscribeStream(w, c + [e5.audio]), false),
               Transcript(e6.key, " " + TranscribeStream(w, c + [e5.audio]) + " " + TranscribeStream(w, c + [e5.audio, e6.audio]), true)]
    ensures sid !in Feed(w, st, [e5, e6]).store.chunks && sid !in Feed(w, st, [e5, e6]).store.transcripts
  {
    var s5 := HandleChunk(w, st, e5.audio, false, e5.key);
    var first := " " + TranscribeStream(w, c + [e5.audio]);
    assert TranscriptSoFar(st, sid) + " " + TranscribeStream(w, c + [e5.audio]) == first;
    assert s5.out == Some(Transcript(e5.key, first, false));
    assert TranscriptSoFar(s5.store, sid) == first;
    var s6 := HandleChunk(w, s5.store, e6.audio, true, e6.key);
    assert c + [e5.audio] + [e6.audio] == c + [e5.audio, e6.audio];
    FeedFirst(w, s5.store, [e6]);
    assert [e6][1..] == [];
    assert Feed(w, s6.store, []) == Run(s6.store, []);
    FeedFirst(w, st, [e5, e6]);
    assert [e5, e6][1..] == [e6];
  }

  /** Six chunks of one session (keys `room1_1` .. `room1_6` of session
      `room1`, say), five non-final then a final one: one transcription after
      the fifth chunk, one more after the sixth over all six chunks (the first
      five are transcribed a second time), the final message carrying both
      texts, and the session gone from both caches. */
  lemma SixChunkScenario(w: Whisper, st: Store, sid: string, evs: seq<Event>)
    requires |evs| == 6
    requires forall i :: 0 <= i < 6 ==> SessionId(evs[i].key) == sid && (evs[i].final <==> i == 5)
    requires sid !in st.chunks && sid !in st.transcripts
    ensures var run := Feed(w, st, evs);
            var first := " " + TranscribeStream(w, Audios(evs)[..5]);
            && run.outs == [Transcript(evs[4].key, first, false),
                            Transcript(evs[5].key, first + " " + TranscribeStream(w, Audios(evs)), true)]
            && sid !in run.store.chunks && sid !in run.store.transcripts
  {
    var a := evs[..4];
    var b := evs[4..];
    var mid := Feed(w, st, a);
    var c := Audios(a);
    assert mid.outs == [] && Buffered(mid.store, sid) == c && sid !in mid.store.transcripts by {
      NonFinalAccumulates(w, st, a, sid);
      NonFinalFlushes(w, st, a, sid);
    }
    var first := " " + TranscribeStream(w, c + [b[0].audio]);
    assert && Feed(w, mid.store, b).outs ==
                [Transcript(b[0].key, first, false),
                 Transcript(b[1].key, first + " " + TranscribeStream(w, c + [b[0].audio, b[1].audio]), true)]
           && sid !in Feed(w, mid.store, b).store.chunks && sid !in Feed(w, mid.store, b).store.transcripts by {
      FifthThenFinal(w, mid.store, sid, c, b[0], b[1]);
      assert b == [b[0], b[1]];
    }
    AudiosOfSix(evs);
    assert Feed(w, st, evs) == Run(Feed(w, mid.store, b).store, mid.outs + Feed(w, mid.store, b).outs) by {
      assert evs == a + b;
      FeedAppend(w, st, a, b);
    }
    assert b[0] == evs[4] && b[1] == evs[5];
  }

  /** The audio of six events, split after the fourth and after the fifth. */
  lemma AudiosOfSix(evs: seq<Event>)
    requires |evs| == 6
    ensures Audios(evs)[..5] == Audios(evs[..4]) + [evs[4].audio]
    ensures Audios(evs) == Audios(evs[..4]) + [evs[4].audio, evs[5].audio]
  {
    var a := evs[..4];
    var b := evs[4..];
    assert evs == a + b;
    AudiosAppend(a, b);
    assert Audios(b) == [evs[4].audio] + Audios(b[1..]);
    assert Audios(b[1..]) == [evs[5].audio] + Audios(b[2..]);
    assert Audios(b) == [evs[4].audio, evs[5].audio];
  }

  /** Regrouping a concatenation; transcripts and buffers are built left to right. */
  lemma AppendAssoc<T>(a: seq<T>, b: seq<T>, c: seq<T>)
    ensures (a + b) + c == a + (b + c)
  {
  }

  /** Reference for the text that non-final chunks `from + 1` .. `to` of a
      session whose chunks are `c` add to its transcript: the k-th chunk, once
      k reaches `FlushThreshold`, adds a space and the transcription of the
      first k chunks; earlier chunks add nothing. */
  function Flushed(w: Whisper, c: seq<Chunk>, from: nat, to: nat): string
    requires from <= to <= |c|
    decreases (to as int) - from
  {
    if from == to then ""
    else (if from + 1 >= FlushThreshold then " " + TranscribeStream(w, c[..from + 1]) else "")
         + Flushed(w, c, from + 1, to)
  }

  /** One non-final chunk on a buffer B of session `sid`, in closed form: it
      sends the extended transcript exactly when B reaches the threshold with
      it, and the transcript grows by exactly what was sent after it. */
  lemma NonFinalStepText(w: Whisper, st: Store, e: Event, sid: string)
    requires !e.final && SessionId(e.key) == sid
    ensures HandleChunk(w, st, e.audio, e.final, e.key).out ==
              if |Buffered(st, sid)| + 1 >= FlushThreshold
              then Some(Transcript(e.key, TranscriptSoFar(st, sid) + " " + TranscribeStream(w, Buffered(st, sid) + [e.audio]), false))
              else None
    ensures TranscriptSoFar(HandleChunk(w, st, e.audio, e.final, e.key).store, sid) ==
              TranscriptSoFar(st, sid) + if |Buffered(st, sid)| + 1 >= FlushThreshold then " " + TranscribeStream(w, Buffered(st, sid) + [e.audio]) else ""
  {
    var step := HandleChunk(w, st, e.audio, e.final, e.key);
    AppendAssoc(TranscriptSoFar(st, sid), " ", TranscribeStream(w, Buffered(st, sid) + [e.audio]));
    if step.out.None? {
      assert ViewOf(step.store, sid).transcript == ViewOf(st, sid).transcript;
    }
  }

  /** Non-final chunks for one session, on a buffer of b chunks: the
      transcript grows by exactly the reference text of the new chunks. */
  lemma {:induction false} NonFinalTranscript(w: Whisper, st: Store, evs: seq<Event>, sid: string)
    requires forall i :: 0 <= i < |evs| ==> !evs[i].final && SessionId(evs[i].key) == sid
    ensures TranscriptSoFar(Feed(w, st, evs).store, sid) ==
              TranscriptSoFar(st, sid) + Flushed(w, Buffered(st, sid) + Audios(evs), |Buffered(st, sid)|, |Buffered(st, sid)| + |evs|)
    decreases |evs|
  {
    if |evs| == 0 {
      assert Feed(w, st, evs) == Run(st, []);
      assert TranscriptSoFar(st, sid) + "" == TranscriptSoFar(st, sid);
    } else {
      var next := HandleChunk(w, st, evs[0].audio, evs[0].final, evs[0].key).store;
      assert Feed(w, st, evs).store == Feed(w, next, evs[1..]).store by {
        FeedFirst(w, st, evs);
      }
      NonFinalTranscriptHead(w, st, evs, sid);
      NonFinalTranscript(w, next, evs[1..], sid);
    }
  }

  /** The first chunk of a non-final stream: the rest of the stream's
      chunks follow the new buffer, and its reference text picks up where the
      first chunk left the transcript. */
  lemma NonFinalTranscriptHead(w: Whisper, st: Store, evs: seq<Event>, sid: string)
    requires |evs| > 0 && !evs[0].final && SessionId(evs[0].key) == sid
    ensures var next := HandleChunk(w, st, evs[0].audio, evs[0].final, evs[0].key).store;
            var c := Buffered(st, sid) + Audios(evs);
            var b := |Buffered(st, sid)|;
            && Buffered(next, sid) + Audios(evs[1..]) == c
            && |Buffered(next, sid)| == b + 1
            && TranscriptSoFar(next, sid) + Flushed(w, c, b + 1, b + |evs|) == TranscriptSoFar(st, sid) + Flushed(w, c, b, b + |evs|)
  {
    var e := evs[0];
    var next := HandleChunk(w, st, e.audio, e.final, e.key).store;
    var B := Buffered(st, sid);
    var c := B + Audios(evs);
    var b := |B|;
    NonFinalBuffer(w, st, evs, sid);
    var tr2 := TranscriptSoFar(next, sid);
    assert tr2 == TranscriptSoFar(st, sid) + if b + 1 >= FlushThreshold then " " + TranscribeStream(w, c[..b + 1]) else "" by {
      NonFinalStepText(w, st, e, sid);
    }
    FlushedStep(w, c, b, b + |evs|, TranscriptSoFar(st, sid), tr2);
  }

  /** The first chunk of a non-final stream moves from the stream to the
      buffer: the session's chunks, buffered and still to come, stay the same. */
  lemma NonFinalBuffer(w: Whisper, st: Store, evs: seq<Event>, sid: string)
    requires |evs| > 0 && !evs[0].final && SessionId(evs[0].key) == sid
    ensures var next := HandleChunk(w, st, evs[0].audio, evs[0].final, evs[0].key).store;
            var c := Buffered(st, sid) + Audios(evs);
            && Buffered(next, sid) + Audios(evs[1..]) == c
            && c[..|Buffered(st, sid)| + 1] == Buffered(st, sid) + [evs[0].audio]
  {
    var e := evs[0];
    var B := Buffered(st, sid);
    assert Audios(evs) == [e.audio] + Audios(evs[1..]);
    AppendAssoc(B, [e.audio], Audios(evs[1..]));
  }

  /** One chunk's worth of the reference text, moved from the suffix to the transcript. */
  lemma FlushedStep(w: Whisper, c: seq<Chunk>, from: nat, to: nat, tr: string, tr2: string)
    requires from < to <= |c|
    requires tr2 == tr + if from + 1 >= FlushThreshold then " " + TranscribeStream(w, c[..from + 1]) else ""
    ensures tr2 + Flushed(w, c, from + 1, to) == tr + Flushed(w, c, from, to)
  {
    var head := if from + 1 >= FlushThreshold then " " + TranscribeStream(w, c[..from + 1]) else "";
    assert (tr + head) + Flushed(w, c, from + 1, to) == tr + (head + Flushed(w, c, from + 1, to));
  }

  /** `outs` are the messages the reference predicts for the non-final
      chunks `evs` arriving on a buffer of b chunks, in a session whose chunks
      are `c` and whose transcript was `tr`: one per chunk that brings the
      buffer to `FlushThreshold` or beyond, the j-th one for chunk
      `Max(b, FlushThreshold - 1) + j + 1` of the session, under that chunk's
      key, carrying `tr` extended by the reference text up to that chunk. */
  predicate FlushMessages(w: Whisper, outs: seq<Outbound>, evs: seq<Event>, c: seq<Chunk>, b: nat, tr: string)
  {
    && b + |evs| <= |c|
    && |outs| == FlushCount(b, |evs|)
    && forall j :: 0 <= j < |outs| ==>
         outs[j] == Transcript(evs[Max(b, FlushThreshold - 1) - b + j].key,
                               tr + Flushed(w, c, b, Max(b, FlushThreshold - 1) + j + 1),
                               false)
  }

  /** Non-final chunks for one session: the messages sent are exactly the
      ones `FlushMessages` predicts from the session's chunks and its
      transcript before the first of them. */
  lemma {:induction false} NonFinalMessageTexts(w: Whisper, st: Store, evs: seq<Event>, sid: string)
    requires forall i :: 0 <= i < |evs| ==> !evs[i].final && SessionId(evs[i].key) == sid
    ensures FlushMessages(w, Feed(w, st, evs).outs, evs, Buffered(st, sid) + Audios(evs), |Buffered(st, sid)|, TranscriptSoFar(st, sid))
    decreases |evs|
  {
    if |evs| > 0 {
      var next := HandleChunk(w, st, evs[0].audio, evs[0].final, evs[0].key).store;
      FeedFirst(w, st, evs);
      NonFinalMessageTexts(w, next, evs[1..], sid);
      NonFinalMessagesHead(w, st, evs, sid, Feed(w, next, evs[1..]).outs);
    } else {
      assert Feed(w, st, evs) == Run(st, []);
    }
  }

  /** The inductive step of `NonFinalMessageTexts`: if `later`, the messages
      of the stream's tail after its first chunk, are what the reference
      predicts from there, then so are they behind the first chunk's message. */
  lemma NonFinalMessagesHead(w: Whisper, st: Store, evs: seq<Event>, sid: string, later: seq<Outbound>)
    requires |evs| > 0 && !evs[0].final && SessionId(evs[0].key) == sid
    requires var next := HandleChunk(w, st, evs[0].audio, evs[0].final, evs[0].key).store;
             FlushMessages(w, later, evs[1..], Buffered(next, sid) + Audios(evs[1..]), |Buffered(next, sid)|, TranscriptSoFar(next, sid))
    ensures FlushMessages(w, HandleChunk(w, st, evs[0].audio, evs[0].final, evs[0].key).out.ToSeq() + later, evs,
                          Buffered(st, sid) + Audios(evs), |Buffered(st, sid)|, TranscriptSoFar(st, sid))
  {
    var e := evs[0];
    var step := HandleChunk(w, st, e.audio, e.final, e.key);
    var B := Buffered(st, sid);
    var c := B + Audios(evs);
    var b := |B|;
    var tr := TranscriptSoFar(st, sid);
    var tr2 := TranscriptSoFar(step.store, sid);
    assert Buffered(step.store, sid) + Audios(evs[1..]) == c && |Buffered(step.store, sid)| == b + 1
        && c[..b + 1] == B + [e.audio] by {
      NonFinalBuffer(w, st, evs, sid);
    }
    assert && step.out == (if b + 1 >= FlushThreshold
                           then Some(Transcript(e.key, tr + " " + TranscribeStream(w, c[..b + 1]), false))
                           else None)
           && tr2 == tr + (if b + 1 >= FlushThreshold then " " + TranscribeStream(w, c[..b + 1]) else "") by {
      NonFinalStepText(w, st, e, sid);
    }
    ShiftMessages(w, c, b, evs, tr, tr2, step.out, later);
  }

  /** The message bookkeeping of `NonFinalMessageTexts`'s inductive step: the
      message of the first chunk (if any) put in front of the messages of the
      rest, described from a buffer one chunk longer. */
  lemma ShiftMessages(w: Whisper, c: seq<Chunk>, b: nat, evs: seq<Event>, tr: string, tr2: string,
                      out: Option<Outbound>, later: seq<Outbound>)
    requires |evs| > 0 && b + |evs| <= |c|
    requires out == if b + 1 >= FlushThreshold
                    then Some(Transcript(evs[0].key, tr + " " + TranscribeStream(w, c[..b + 1]), false))
                    else None
    requires tr2 == tr + if b + 1 >= FlushThreshold then " " + TranscribeStream(w, c[..b + 1]) else ""
    requires FlushMessages(w, later, evs[1..], c, b + 1, tr2)
    ensures FlushMessages(w, out.ToSeq() + later, evs, c, b, tr)
  {
    if b + 1 >= FlushThreshold {
      AppendAssoc(tr, " ", TranscribeStream(w, c[..b + 1]));
      assert out.ToSeq() == [out.value];
      ShiftFlushing(w, c, b, evs, tr, out.value, later);
    } else {
      assert tr2 == tr;
      assert out.ToSeq() + later == later;
      ShiftQuiet(w, c, b, evs, tr, later);
    }
  }

  /** `ShiftMessages` when the first chunk sends a message. */
  lemma ShiftFlushing(w: Whisper, c: seq<Chunk>, b: nat, evs: seq<Event>, tr: string, first: Outbound, later: seq<Outbound>)
    requires |evs| > 0 && b + |evs| <= |c| && b + 1 >= FlushThreshold
    requires first == Transcript(evs[0].key, tr + " " + TranscribeStream(w, c[..b + 1]), false)
    requires FlushMessages(w, later, evs[1..], c, b + 1, tr + " " + TranscribeStream(w, c[..b + 1]))
    ensures FlushMessages(w, [first] + later, evs, c, b, tr)
  {
    FlushCountStep(b, |evs|);
    assert Max(b + 1, FlushThreshold - 1) == b + 1 && Max(b, FlushThreshold - 1) == b;
    var head := " " + TranscribeStream(w, c[..b + 1]);
    AppendAssoc(tr, " ", TranscribeStream(w, c[..b + 1]));
    var outs := [first] + later;
    forall j | 0 <= j < |outs|
      ensures outs[j] == Transcript(evs[j].key, tr + Flushed(w, c, b, b + j + 1), false)
    {
      if j == 0 {
        assert Flushed(w, c, b + 1, b + 1) == "";
        assert Flushed(w, c, b, b + 1) == head + "";
        assert head + "" == head;
      } else {
        assert outs[j] == later[j - 1];
        FlushingAt(w, c, b, evs, tr, later[j - 1], j);
      }
    }
  }

  /** `ShiftMessages` when the first chunk sends nothing. */
  lemma ShiftQuiet(w: Whisper, c: seq<Chunk>, b: nat, evs: seq<Event>, tr: string, later: seq<Outbound>)
    requires |evs| > 0 && b + |evs| <= |c| && b + 1 < FlushThreshold
    requires FlushMessages(w, later, evs[1..], c, b + 1, tr)
    ensures FlushMessages(w, later, evs, c, b, tr)
  {
    FlushCountStep(b, |evs|);
    var m := FlushThreshold - 1;
    assert Max(b + 1, m) == m && Max(b, m) == m;
    forall j | 0 <= j < |later|
      ensures later[j] == Transcript(evs[m - b + j].key, tr + Flushed(w, c, b, m + j + 1), false)
    {
      assert later[j] == Transcript(evs[1..][m - (b + 1) + j].key, tr + Flushed(w, c, b + 1, m + j + 1), false);
      assert evs[1..][m - (b + 1) + j] == evs[m - b + j];
      assert Flushed(w, c, b, m + j + 1) == "" + Flushed(w, c, b + 1, m + j + 1);
      assert "" + Flushed(w, c, b + 1, m + j + 1) == Flushed(w, c, b + 1, m + j + 1);
    }
  }

  /** One message of `ShiftFlushing` after the first. */
  lemma FlushingAt(w: Whisper, c: seq<Chunk>, b: nat, evs: seq<Event>, tr: string, msg: Outbound, j: nat)
    requires 0 < j < |evs| && b + |evs| <= |c| && b + 1 >= FlushThreshold
    requires msg == Transcript(evs[1..][j - 1].key, (tr + " " + TranscribeStream(w, c[..b + 1])) + Flushed(w, c, b + 1, b + 1 + (j - 1) + 1), false)
    ensures msg == Transcript(evs[j].key, tr + Flushed(w, c, b, b + j + 1), false)
  {
    assert evs[1..][j - 1] == evs[j];
    assert b + 1 + (j - 1) + 1 == b + j + 1;
    AppendAssoc(tr, " ", TranscribeStream(w, c[..b + 1]));
    FlushedStep(w, c, b, b + j + 1, tr, tr + " " + TranscribeStream(w, c[..b + 1]));
  }

  /** Non-final chunks for one session and then a final one: the messages of
      the non-final part are followed by exactly one final message under the
      last key, carrying the old transcript, the reference text of the
      non-final chunks and the transcription of every chunk of the session;
      afterwards the session is gone from both caches. */
  lemma NonFinalThenFinal(w: Whisper, st: Store, evs: seq<Event>, last: Event, sid: string)
    requires forall i :: 0 <= i < |evs| ==> !evs[i].final && SessionId(evs[i].key) == sid
    requires last.final && SessionId(last.key) == sid
    ensures Feed(w, st, evs + [last]).outs ==
              Feed(w, st, evs).outs +
              [Transcript(last.key,
                          TranscriptSoFar(st, sid)
                          + Flushed(w, Buffered(st, sid) + Audios(evs), |Buffered(st, sid)|, |Buffered(st, sid)| + |evs|)
                          + " " + TranscribeStream(w, Buffered(st, sid) + Audios(evs + [last])),
                          true)]
    ensures sid !in Feed(w, st, evs + [last]).store.chunks && sid !in Feed(w, st, evs + [last]).store.transcripts
  {
    var B := Buffered(st, sid);
    var mid := Feed(w, st, evs);
    assert Buffered(mid.store, sid) == B + Audios(evs) by {
      NonFinalAccumulates(w, st, evs, sid);
    }
    assert TranscriptSoFar(mid.store, sid) == TranscriptSoFar(st, sid) + Flushed(w, B + Audios(evs), |B|, |B| + |evs|) by {
      NonFinalTranscript(w, st, evs, sid);
    }
    var step := HandleChunk(w, mid.store, last.audio, last.final, last.key);
    assert Feed(w, mid.store, [last]) == Run(step.store, [step.out.value]) by {
      FeedFirst(w, mid.store, [last]);
      assert [last][1..] == [];
      assert Feed(w, step.store, []) == Run(step.store, []);
    }
    assert Buffered(mid.store, sid) + [last.audio] == B + Audios(evs + [last]) by {
      AudiosAppend(evs, [last]);
      assert Audios([last]) == [last.audio] + Audios([]);
      assert Audios([last]) == [last.audio];
      AppendAssoc(B, Audios(evs), [last.audio]);
    }
    assert step.out.value == Transcript(last.key,
                               TranscriptSoFar(st, sid) + Flushed(w, B + Audios(evs), |B|, |B| + |evs|)
                               + " " + TranscribeStream(w, B + Audios(evs + [last])), true);
    assert Feed(w, st, evs + [last]) == Run(step.store, mid.outs + [step.out.value]) by {
      FeedAppend(w, st, evs, [last]);
    }
  }

  lemma {:induction false} AudiosAppend(a: seq<Event>, b: seq<Event>)
    ensures Audios(a + b) == Audios(a) + Audios(b)
    decreases |a|
  {
    if |a| == 0 {
      assert a + b == b;
    } else {
      assert (a + b)[1..] == a[1..] + b;
      AudiosAppend(a[1..], b);
    }
  }
}
