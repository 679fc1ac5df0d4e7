# Streaming transcription session manager — a Dafny model

This project models the server core of a live speech-to-text service (`app.py`).
Clients stream base64 audio chunks over a websocket. The server groups the
chunks into sessions by key and keeps two process-wide caches:
`chunk_cache` holds each session's buffered chunks and `transcription_cache`
holds its running transcript. Once five chunks are buffered, or a chunk is
marked final, the server hands the session's buffer to a Whisper-based engine
and sends the extended transcript back. A final chunk ends the session.

The model is a single-threaded, functional state machine:

- `SessionKey` (session_key.dfy) models `get_session_id`. It uses Python's
  `str.split('_')` and `'_'.join`, and it is checked against a reference
  definition that cuts the key at its last `_`.
- `Engine` (engine.dfy) models the engine adapter `WhisperEngine`. It joins the
  blocks, reads them as little-endian signed 16-bit samples (`np.frombuffer`)
  and calls the speech model, which is a function-valued parameter. In
  `transcribe_stream` every failure path gives `""`. The single-chunk
  `transcribe` has no handler of its own, so a pool that refuses work makes it
  raise; `Transcribe` returns `None` for that case.
- `Sessions` (sessions.dfy) models the two caches as a `Store` of two maps. It
  also holds `HandleChunk` (one call of `handle_transcriptions`, run to
  completion) and `Feed`, which applies `HandleChunk` to a sequence of chunks.
- `Connection` (connection.dfy) models the websocket loop
  `websocket_transcription`: classifying each inbound envelope, `Receive`, and
  the loop `Serve`.
- `Optional` (optional.dfy) is `Option`, for absent JSON fields and failed
  decodes.

Collaborators that cannot be seen are parameters:
- the speech model is `Whisper.recognize`, a function from samples to
  "raised" or "returned a result whose `text` entry may be missing";
- whether the thread pool still accepts work is `Whisper.poolOpen`;
- the base64 decoder is `decode: string -> Option<Chunk>`, with `None` where
  `base64.b64decode` raises.

Behaviour of the code worth knowing, all of it modelled as written:

- **The buffer is never drained by a non-final flush** (app.py:109-124). Only
  a final chunk deletes the session. From the fifth chunk on, every chunk makes
  the engine transcribe the whole buffer again, and each result is appended
  to the transcript. The transcript therefore repeats earlier audio's text,
  not the space-joined text of disjoint batches. `FreshSessionNonFinal` shows
  that the buffer still holds all five chunks after five non-final chunks have
  arrived and one message has gone out. `Flushed` is an independent reference
  for the text such a stream adds; `NonFinalTranscript` and
  `NonFinalMessageTexts` prove the transcript and every message agree with it,
  and `NonFinalThenFinal` adds the closing final chunk. `SixChunkScenario`
  works one instance through: for keys `room1_1` .. `room1_6`, with the last
  one final, the final message carries the text of chunks 1–5 and then the
  text of chunks 1–6.
- The message echoes the client's full key (`room1_6`), not the session id
  (app.py:116).
- Nothing serialises flushes or evicts sessions on disconnect. A
  `WebSocketDisconnect` only ends the loop (app.py:157-158), so the session
  entries of an unfinished stream stay in both caches.
- A transcript begins with a space, because the first flush appends `" " + text`
  to `""`. `WellFormed` records this.

## Model

| member | source | states |
|---|---|---|
| SessionKey.Split | app.py:95 | splitting at `_` gives at least one piece, and no piece contains `_` |
| SessionKey.LastSep | app.py:94-98 | the position found holds `_`, and no `_` follows it |
| SessionKey.SessionId | app.py:94-98 | a key without `_` is its own session id; otherwise the id followed by `_` is a prefix of the key and no `_` follows it, so the id is the key cut just before its last `_` |
| SessionKey.SplitWithoutSep | app.py:95 | a string without `_` splits into itself alone |
| SessionKey.SplitAppendTag | app.py:95 | appending `_t`, where `t` has no `_`, appends exactly the piece `t` |
| SessionKey.SplitPrependPiece | app.py:95 | a `_`-free prefix followed by `_` contributes exactly one leading piece |
| SessionKey.JoinSplit | app.py:95-97 | joining the pieces of a split with `_` gives back the original key |
| SessionKey.SplitJoin | app.py:95-97 | splitting a join of `_`-free pieces gives back the pieces |
| SessionKey.SessionIdOfTagged | app.py:94-98 | the session id of `s_t`, with `t` free of `_`, is `s`, even when `s` contains `_` |
| SessionKey.SessionIdWithoutSep | app.py:96-98 | a key without `_` is its own session id |
| SessionKey.SessionIdStripsLastSegment | app.py:94-98 | for every key, the session id equals the key cut just before its last `_`, or the whole key when it has none |
| SessionKey.SessionIdExamples | app.py:94-98 | `a_` gives `a`, `_x` gives the empty id, `a_b_c` gives `a_b`, and `room1` gives `room1` |
| Engine.FlattenAppend | app.py:52 | joining the blocks distributes over concatenation of block lists |
| Engine.Flatten | app.py:52-56 | the joined payload is at least as long as every block, and it is empty exactly when every block is empty (the `if not all_audio` guard) |
| Engine.SampleRoundTrip | app.py:58 | reading a sample's little-endian byte pair gives the sample back |
| Engine.BytePairRoundTrip | app.py:58 | every byte pair is the encoding of the sample read from it |
| Engine.DecodeSamples | app.py:58 | an even-length buffer yields half as many samples as it has bytes |
| Engine.EncodeSamples | app.py:58 | writing samples back takes two bytes each |
| Engine.DecodeEncodeSamples | app.py:58 | reading back written samples gives the samples |
| Engine.EncodeDecodeSamples | app.py:58 | reading the bytes as samples loses nothing, since writing them back gives the bytes |
| Engine.FromBuffer | app.py:58-62 | the int16 view fails exactly on odd-length input; otherwise it has half as many samples and re-encodes to the input, so a non-empty payload never gives zero samples |
| Engine.Worker | app.py:50-75 | any outcome other than the text `""` (another text, or a result without a `text` entry) comes only from a non-empty, even-length joined payload on which the model returned exactly that outcome |
| Engine.TranscribeStream | app.py:77-88 | a non-empty text is returned only for a non-empty block list, an open pool, and a non-empty even-length payload on which the model returned exactly that text; otherwise the result is `""` |
| Engine.Transcribe | app.py:43-48 | single-chunk transcription fails exactly when the pool refuses work; otherwise it agrees with batch transcription of that one chunk |
| Engine.TranscribeStreamGuards | app.py:50-88 | these cases all give `""`: no blocks, a closed pool, all-empty blocks, an odd payload length, a model that raises |
| Engine.EmptyAudioSkipsModel | app.py:52-56 | on an empty payload the result is `""` whatever the speech model is |
| Engine.TranscribeStreamText | app.py:70-85 | when nothing fails, the text is the model's `text` entry for the payload's samples, or `""` when there is none |
| Engine.BatchBoundariesIrrelevant | app.py:50-88 | two batches with the same joined payload give the same text, an empty batch included |
| Sessions.HandleChunk | app.py:100-124 | other sessions are untouched; a non-final chunk is appended to its buffer; a final chunk removes the session from both caches; a message goes out iff the chunk is final or the buffer reaches 5; with no message the transcripts are unchanged; the message carries the original key, the old transcript plus `" "` plus the engine's text for the whole buffer, and the final flag |
| Sessions.EmptyStoreWellFormed | app.py:23-26 | the empty caches satisfy the store invariant |
| Sessions.HandleChunkPreservesWellFormed | app.py:100-124 | each step keeps the invariant: a transcript exists only for a buffered session, and exactly when that buffer has at least 5 chunks; no buffer is empty; every transcript starts with a space |
| Sessions.Feed | app.py:100-124 | handling the chunks one after another sends at most one message per chunk |
| Sessions.FeedShape | app.py:100-124 | every message of a run is a transcript, and a session that none of the chunks belongs to ends the run with the cache entries it started with |
| Sessions.FeedPreservesWellFormed | app.py:100-124 | any sequence of steps keeps the store invariant |
| Sessions.ReplayAppend | app.py:130-155 | handling two streams in sequence is handling their concatenation, for any per-event handler |
| Sessions.FeedAppend | app.py:130-155 | feeding `a` then `b` is feeding `a ++ b` |
| Sessions.FlushCountStep | app.py:109 | the reference flush count splits into the first chunk's flush plus the count for the rest |
| Sessions.NonFinalStep | app.py:101-119 | one non-final chunk appends to the buffer, emits one non-final transcript iff the buffer reaches 5, keeps the old transcript as a prefix, and leaves it unchanged when nothing is sent |
| Sessions.NonFinalAccumulates | app.py:101-119 | after non-final chunks for one session, its buffer is the old buffer followed by exactly those chunks in order; the old transcript is a prefix of the new one; with no messages the transcript entry is unchanged |
| Sessions.NonFinalFlushes | app.py:109-119 | non-final chunks for one session produce exactly the reference count of messages (one per chunk that brings the buffer to 5 or beyond), all non-final transcripts |
| Sessions.FreshSessionNonFinal | app.py:103-112 | a fresh session fed n non-final chunks holds all n; nothing is sent for n < 5, and n − 4 messages otherwise; five chunks give one message and a buffer still holding all five |
| Sessions.NonFinalStepText | app.py:109-119 | one non-final chunk sends, exactly when the buffer reaches 5 with it, the old transcript plus `" "` plus the text of the whole buffer, and the transcript grows by exactly that suffix |
| Sessions.NonFinalTranscript | app.py:101-119 | after non-final chunks for one session, its transcript is the old one followed by the `Flushed` reference text: for each chunk that brings the buffer to 5 or beyond, a space and the text of all chunks up to it |
| Sessions.NonFinalMessageTexts | app.py:109-119 | non-final chunks for one session send exactly the reference messages: one per chunk that brings the buffer to 5 or beyond, under that chunk's key, carrying the old transcript extended by the reference text up to that chunk |
| Sessions.NonFinalThenFinal | app.py:109-124 | non-final chunks followed by a final one send the non-final messages and then exactly one final message under the last key, carrying the old transcript, the reference text and the text of every chunk of the session; the session is then gone from both caches |
| Sessions.HandleChunkLocal | app.py:101-124 | a step's message and its effect on its own session depend only on that session's cache entries |
| Sessions.SessionsIsolated | app.py:101-124 | after an interleaved stream, a session's cache entries and messages are those it would have after receiving only its own chunks, starting from any store that agrees on it |
| Sessions.FifthThenFinal | app.py:109-124 | on a buffer of four, a fifth non-final chunk sends `" " + text(5 chunks)`; a final chunk then sends that plus `" " + text(6 chunks)` and removes the session |
| Sessions.SixChunkScenario | app.py:100-124 | five non-final chunks then a final one send exactly two messages: the first-five text, then that text plus the text of all six chunks; the session is then gone from both caches |
| Connection.Classify | app.py:134-155 | `connect_to_session` is ignored; otherwise a missing or empty key or chunk gives `{"error": "Invalid message format."}`; an undecodable chunk gives `{"key": key, "error": "Failed to decode chunk."}`; otherwise the chunk is dispatched, with `final` true only when given as true |
| Connection.Receive | app.py:131-155 | ignored and rejected messages leave both caches unchanged; a rejection sends exactly its error message, and an ignored message sends nothing |
| Connection.Serve | app.py:130-155 | the loop answers each inbound message with at most one outbound message |
| Connection.ServeIsFeedOfDispatched | app.py:130-155 | serving a message stream ends in the store that feeding only its dispatched chunks gives, and sends the same transcript messages in the same order |
| Connection.ServePreservesWellFormed | app.py:126-155 | serving any message stream from empty caches keeps the store invariant |
| Connection.BadChunkTouchesNothing | app.py:147-153 | a chunk whose base64 does not decode is answered with an error naming its key and changes no session |

## Left out

- Concurrency (app.py:19-20, 44-47, 81-84, 155, 162-165): the thread pool,
  `run_in_executor` and the fire-and-forget `asyncio.create_task` per chunk are
  not modelled. Each chunk is handled to completion in arrival order. In the
  source, two tasks of one session can interleave at the `await` of the engine
  call. The model does not cover that.
- Audio inference (app.py:64-71): the float conversion, the division by 32768
  and the Whisper call are folded into the `recognize` parameter, which the
  model treats as a deterministic function of the samples.
- `np.frombuffer` uses the machine's byte order; the model fixes little-endian.
- Sessions.HandleChunk: the `send_json` at app.py:115 never fails in the
  model. In the source a send on a closed socket raises, so the deletes at
  app.py:121-124 are skipped, and a final chunk then leaves its session in
  both caches.
- The `audio_np.size == 0` check (app.py:60-62) has no branch of its own.
  `FromBuffer` shows it can never fire after the empty-payload check.
- Base64 decoding (app.py:148) is the `decode` parameter. Python's
  non-validating decoder is a library call, not modelled.
- JSON framing, transport and logging: envelopes are modelled with optional
  string fields and an optional boolean `final`. These are not modelled:
  non-string `key`/`chunk` values, a non-boolean `final` (whose Python
  truthiness would decide the flush), and `final: null`, which the source would
  echo as `null`.
- Client disconnect (app.py:157-160) and shutdown (app.py:162-165): the loop
  ends and the pool is shut down. Neither changes the caches.
- The SSL override (app.py:16), engine construction and model loading
  (app.py:37-41, 90-92) are process bootstrap, not modelled.
- backend/app/main.py: file upload, temporary files and video-to-audio
  extraction are file and foreign I/O, not modelled.
- backend/app/summary.py: the summarisation call is a network call, not
  modelled.
- transcribe.py, server.py, check.py, files.py are standalone scripts outside
  the streaming core and are not modelled.
- ui/src: the browser client is outside the server core and is not modelled.
