/** The transcription engine adapter (app.py `WhisperEngine`): joins the buffered
    blocks, reads them as 16-bit PCM and hands the samples to the speech model,
    turning every failure on the way into an empty transcription. */
module Engine {
  import opened Optional

  /** One byte of a raw audio payload. */
  type Byte = b: int | 0 <= b < 256

  /** One decoded audio block as a client sent it. */
  type Chunk = seq<Byte>

  /** One signed 16-bit PCM sample. */
  type Sample = x: int | -32768 <= x < 32768

  /** The blocks laid end to end, as `b''.join(blocks)`: every block fits in
      the payload, and the payload is empty exactly when every block is. */
  function Flatten(blocks: seq<Chunk>): (all: Chunk)
    ensures forall i :: 0 <= i < |blocks| ==> |blocks[i]| <= |all|
    ensures |all| == 0 <==> forall i :: 0 <= i < |blocks| ==> |blocks[i]| == 0
    decreases |blocks|
  {
    if |blocks| == 0 then []
    else
      assert forall i :: 1 <= i < |blocks| ==> blocks[i] == blocks[1..][i - 1];
      blocks[0] + Flatten(blocks[1..])
  }

  /** Joining distributes over concatenation of block lists. */
  lemma {:induction false} FlattenAppend(a: seq<Chunk>, b: seq<Chunk>)
    ensures Flatten(a + b) == Flatten(a) + Flatten(b)
    decreases |a|
  {
    if |a| > 0 {
      assert (a + b)[1..] == a[1..] + b;
      FlattenAppend(a[1..], b);
    } else {
      assert a + b == b;
    }
  }

  /** The sample a little-endian byte pair encodes, read as two's complement. */
  function DecodeSample(lo: Byte, hi: Byte): Sample
  {
    var u := lo + 256 * hi;
    if u >= 32768 then u - 65536 else u
  }

  /** The little-endian two's-complement byte pair of a sample. */
  function EncodeSample(x: Sample): (pair: Chunk)
    ensures |pair| == 2
  {
    var u := if x < 0 then x + 65536 else x;
    [u % 256, u / 256]
  }

  /** Encoding then decoding a sample gives it back. */
  lemma SampleRoundTrip(x: Sample)
    ensures DecodeSample(EncodeSample(x)[0], EncodeSample(x)[1]) == x
  {
    var u := if x < 0 then x + 65536 else x;
    assert u % 256 + 256 * (u / 256) == u;
  }

  /** Decoding then encoding a byte pair gives it back. */
  lemma BytePairRoundTrip(lo: Byte, hi: Byte)
    ensures EncodeSample(DecodeSample(lo, hi)) == [lo, hi]
  {
    var u := lo + 256 * hi;
    assert u % 256 == lo && u / 256 == hi;
  }

  /** The bytes read as consecutive little-endian 16-bit samples, as
      `np.frombuffer(bytes, dtype=np.int16)` on a little-endian machine. */
  function DecodeSamples(bytes: Chunk): (samples: seq<Sample>)
    requires |bytes| % 2 == 0
    ensures |samples| == |bytes| / 2
    decreases |bytes|
  {
    if |bytes| == 0 then []
    else [DecodeSample(bytes[0], bytes[1])] + DecodeSamples(bytes[2..])
  }

  /** The samples written back as little-endian byte pairs. */
  function EncodeSamples(samples: seq<Sample>): (bytes: Chunk)
    ensures |bytes| == 2 * |samples|
  {
    if |samples| == 0 then []
    else EncodeSample(samples[0]) + EncodeSamples(samples[1..])
  }

  /** Reading back what was written gives the samples. */
  lemma {:induction false} DecodeEncodeSamples(samples: seq<Sample>)
    ensures DecodeSamples(EncodeSamples(samples)) == samples
    decreases |samples|
  {
    if |samples| > 0 {
      var bytes := EncodeSamples(samples);
      var pair := EncodeSample(samples[0]);
      assert bytes[0] == pair[0] && bytes[1] == pair[1];
      assert bytes[2..] == EncodeSamples(samples[1..]);
      SampleRoundTrip(samples[0]);
      DecodeEncodeSamples(samples[1..]);
      assert [samples[0]] + samples[1..] == samples;
    }
  }

  /** Writing back what was read gives the bytes: the decoding loses nothing. */
  lemma {:induction false} EncodeDecodeSamples(bytes: Chunk)
    requires |bytes| % 2 == 0
    ensures EncodeSamples(DecodeSamples(bytes)) == bytes
    decreases |bytes|
  {
    if |bytes| > 0 {
      var samples := DecodeSamples(bytes);
      assert samples[1..] == DecodeSamples(bytes[2..]);
      EncodeDecodeSamples(bytes[2..]);
      BytePairRoundTrip(bytes[0], bytes[1]);
      assert bytes == [bytes[0], bytes[1]] + bytes[2..];
    }
  }

  /** `np.frombuffer(bytes, dtype=np.int16)`: raises (None here) when the
      length is not a whole number of samples, otherwise reads every byte pair. */
  function FromBuffer(bytes: Chunk): (r: Option<seq<Sample>>)
    ensures r.Some? <==> |bytes| % 2 == 0
    ensures r.Some? ==> |r.value| == |bytes| / 2 && EncodeSamples(r.value) == bytes
  {
    if |bytes| % 2 != 0 then None
    else
      EncodeDecodeSamples(bytes);
      Some(DecodeSamples(bytes))
  }

  /** What one call of the speech model does: raise, or return a result
      dictionary whose "text" entry may be missing. */
  datatype Recognition = Raised | Returned(text: Option<string>)

  /** The engine's collaborators. `recognize` is the speech model fed the
      samples (the scaling to floats by 1/32768 is folded into it);
      `poolOpen` says whether the worker pool still accepts work. */
  datatype Whisper = Whisper(recognize: seq<Sample> -> Recognition, poolOpen: bool)

  /** app.py `_transcribe_stream_in_thread`: the "text" entry of the result it
      returns. An empty payload and every exception give `{"text": ""}`, so
      any other outcome is the model's own answer for the samples of the
      joined payload. */
  function Worker(w: Whisper, blocks: seq<Chunk>): (text: Option<string>)
    ensures text != Some("") ==>
              |Flatten(blocks)| > 0 && |Flatten(blocks)| % 2 == 0 &&
              w.recognize(DecodeSamples(Flatten(blocks))) == Returned(text)
  {
    var all := Flatten(blocks);
    if |all| == 0 then Some("")
    else
      match FromBuffer(all)
      case None => Some("")
      case Some(samples) =>
        DecodeEncodeSamples(samples);
        match w.recognize(samples)
        case Raised => Some("")
        case Returned(t) => t
  }

  /** app.py `transcribe_stream`: the text the engine yields for a batch of
      blocks; never fails. A non-empty text can only be the model's "text"
      entry for the samples of the joined payload, through an open pool. */
  function TranscribeStream(w: Whisper, blocks: seq<Chunk>): (text: string)
    ensures text != "" ==>
              |blocks| > 0 && w.poolOpen &&
              |Flatten(blocks)| > 0 && |Flatten(blocks)| % 2 == 0 &&
              w.recognize(DecodeSamples(Flatten(blocks))) == Returned(Some(text))
  {
    if |blocks| == 0 then ""
    else if !w.poolOpen then ""
    else Worker(w, blocks).GetOr("")
  }

  /** app.py `transcribe`: one block through the same worker, but without the
      wrapper's guards, so a refusal of the pool escapes to the caller (None). */
  function Transcribe(w: Whisper, audio: Chunk): (r: Option<string>)
    ensures r.Some? <==> w.poolOpen
    ensures r.Some? ==> r.value == TranscribeStream(w, [audio])
  {
    if !w.poolOpen then None else Some(Worker(w, [audio]).GetOr(""))
  }

  /** Every guard of the adapter yields the empty text: no blocks, a closed
      pool, a payload with no bytes, a payload of odd length, a model that raises. */
  lemma TranscribeStreamGuards(w: Whisper, blocks: seq<Chunk>)
    ensures |blocks| == 0 ==> TranscribeStream(w, blocks) == ""
    ensures !w.poolOpen ==> TranscribeStream(w, blocks) == ""
    ensures (forall i :: 0 <= i < |blocks| ==> |blocks[i]| == 0) ==> TranscribeStream(w, blocks) == ""
    ensures |Flatten(blocks)| % 2 == 1 ==> TranscribeStream(w, blocks) == ""
    ensures |Flatten(blocks)| % 2 == 0 && w.recognize(DecodeSamples(Flatten(blocks))) == Raised
            ==> TranscribeStream(w, blocks) == ""
  {
  }

  /** On an empty payload the model is never consulted: any two models give the same (empty) text. */
  lemma EmptyAudioSkipsModel(m1: seq<Sample> -> Recognition, m2: seq<Sample> -> Recognition, open: bool, blocks: seq<Chunk>)
    requires forall i :: 0 <= i < |blocks| ==> |blocks[i]| == 0
    ensures TranscribeStream(Whisper(m1, open), blocks) == TranscribeStream(Whisper(m2, open), blocks) == ""
  {
  }

  /** When nothing fails, the text is the model's "text" entry for the samples of the joined payload, or "" when it has none. */
  lemma TranscribeStreamText(w: Whisper, blocks: seq<Chunk>, t: Option<string>)
    requires |blocks| > 0 && w.poolOpen
    requires |Flatten(blocks)| > 0 && |Flatten(blocks)| % 2 == 0
    requires w.recognize(DecodeSamples(Flatten(blocks))) == Returned(t)
    ensures TranscribeStream(w, blocks) == t.GetOr("")
  {
  }

  /** Only the joined payload matters, not where the block boundaries fall. */
  lemma BatchBoundariesIrrelevant(w: Whisper, a: seq<Chunk>, b: seq<Chunk>)
    requires Flatten(a) == Flatten(b)
    ensures TranscribeStream(w, a) == TranscribeStream(w, b)
  {
  }
}
