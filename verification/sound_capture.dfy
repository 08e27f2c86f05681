/** `record_audio`: after a trigger the detector reads a fixed number of
    2048-sample chunks from the microphone stream and joins them in order. */
module SoundCapture {
  import opened Base

  const Chunk: nat := 2048
  const Rate: nat := 32000
  const RecordMs: nat := 2000

  /** One signed 16-bit PCM sample as `np.frombuffer(..., dtype=np.int16)` yields it. */
  type Sample = x: int | -32768 <= x <= 32767

  /** `np.concatenate(frames)`: the chunks joined in read order. */
  function Flatten(chunks: seq<seq<Sample>>): seq<Sample> {
    if |chunks| == 0 then [] else Flatten(chunks[..|chunks| - 1]) + chunks[|chunks| - 1]
  }

  /** Chunks of `Chunk` samples each join into `|chunks| * Chunk` samples. */
  lemma {:induction false} FlattenLength(chunks: seq<seq<Sample>>)
    requires forall k :: 0 <= k < |chunks| ==> |chunks[k]| == Chunk
    ensures |Flatten(chunks)| == |chunks| * Chunk
    decreases |chunks|
  {
    if |chunks| > 0 {
      FlattenLength(chunks[..|chunks| - 1]);
    }
  }

  /** Sample `j` of chunk `k` sits at `k * Chunk + j` of the joined audio. */
  lemma {:induction false} FlattenIndex(chunks: seq<seq<Sample>>, k: nat, j: nat)
    requires forall m :: 0 <= m < |chunks| ==> |chunks[m]| == Chunk
    requires k < |chunks| && j < Chunk
    ensures k * Chunk + j < |Flatten(chunks)|
    ensures Flatten(chunks)[k * Chunk + j] == chunks[k][j]
    decreases |chunks|
  {
    var n := |chunks|;
    FlattenLength(chunks[..n - 1]);
    FlattenLength(chunks);
    if k < n - 1 {
      FlattenIndex(chunks[..n - 1], k, j);
    }
  }

  /** `int(RATE / CHUNK * duration)` with the duration in milliseconds: whole
      chunks only, so the window falls short of the duration by less than a chunk. */
  function NumChunks(durationMs: nat): (n: nat)
    ensures n * Chunk * 1000 <= Rate * durationMs < (n + 1) * Chunk * 1000
  {
    (Rate * durationMs) / (Chunk * 1000)
  }

  /** The default two-second window is 31 chunks, 63488 samples. */
  lemma DefaultWindow()
    ensures NumChunks(RecordMs) == 31
    ensures NumChunks(RecordMs) * Chunk == 63488
  {
    assert Rate * RecordMs == 64000000;
  }

  /** Lines 111-117. `stream` holds the chunks the microphone delivers next
      (`stream.read` blocks until one is there). With no chunk to join,
      `np.concatenate` raises. */
  method RecordAudio(durationMs: nat, stream: seq<seq<Sample>>) returns (audio: Result<seq<Sample>>, consumed: nat)
    requires |stream| >= NumChunks(durationMs)
    ensures consumed == NumChunks(durationMs)
    ensures audio.Ok? <==> consumed > 0
    ensures audio.Ok? ==> audio.value == Flatten(stream[..consumed])
    ensures audio.Ok? && (forall k :: 0 <= k < |stream| ==> |stream[k]| == Chunk) ==>
      |audio.value| == consumed * Chunk
  {
    var numChunks := NumChunks(durationMs);
    var frames: seq<seq<Sample>> := [];
    var i := 0;
    while i < numChunks
      invariant 0 <= i <= numChunks
      invariant frames == stream[..i]
    {
      frames := frames + [stream[i]];
      i := i + 1;
    }
    consumed := numChunks;
    if numChunks == 0 {
      return Raised("ValueError: need at least one array to concatenate"), consumed;
    }
    var joined: seq<Sample> := [];
    var k := 0;
    while k < |frames|
      invariant 0 <= k <= |frames|
      invariant joined == Flatten(frames[..k])
    {
      assert frames[..k + 1][..k] == frames[..k];
      joined := joined + frames[k];
      k := k + 1;
    }
    assert frames[..k] == frames;
    audio := Ok(joined);
    if forall m :: 0 <= m < |stream| ==> |stream[m]| == Chunk {
      FlattenLength(frames);
    }
  }
}
