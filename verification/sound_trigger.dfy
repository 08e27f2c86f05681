/** The loud-sound gate of the detector's main loop: a frame is loud when
    its peak or RMS passes a threshold, and a loud frame triggers only when
    more than 0.30 s have passed since the last trigger. */
module SoundTrigger {
  import opened Base
  import opened SoundCapture

  const PeakThreshold: int := 30000
  const RmsThreshold: int := 7200
  const MinGapMs: int := 300

  function Abs(x: int): nat {
    if x < 0 then -x else x
  }

  /** numpy's `abs` on an int16: -32768 has no positive counterpart and stays -32768. */
  function WrappedAbs(x: Sample): int {
    if x == -32768 then -32768 else Abs(x)
  }

  /** `np.max(np.abs(samples))` as written. */
  function PeakAsWritten(frame: seq<Sample>): (p: int)
    requires |frame| > 0
    ensures forall i :: 0 <= i < |frame| ==> WrappedAbs(frame[i]) <= p
    ensures exists i :: 0 <= i < |frame| && p == WrappedAbs(frame[i])
  {
    if |frame| == 1 then WrappedAbs(frame[0])
    else
      var rest := PeakAsWritten(frame[1..]);
      assert forall i :: 1 <= i < |frame| ==> frame[i] == frame[1..][i - 1];
      if WrappedAbs(frame[0]) >= rest then WrappedAbs(frame[0]) else rest
  }

  /** The peak magnitude the detector means: the largest |sample|. */
  function Peak(frame: seq<Sample>): (p: nat)
    requires |frame| > 0
    ensures forall i :: 0 <= i < |frame| ==> Abs(frame[i]) <= p
    ensures exists i :: 0 <= i < |frame| && p == Abs(frame[i])
  {
    if |frame| == 1 then Abs(frame[0])
    else
      var rest := Peak(frame[1..]);
      assert forall i :: 1 <= i < |frame| ==> frame[i] == frame[1..][i - 1];
      if Abs(frame[0]) >= rest then Abs(frame[0]) else rest
  }

  function SumSquares(frame: seq<Sample>): nat {
    if |frame| == 0 then 0 else frame[0] * frame[0] + SumSquares(frame[1..])
  }

  /** `rms > RMS_THRESHOLD` in exact arithmetic: the mean square exceeds 7200². */
  predicate RmsAbove(frame: seq<Sample>) {
    SumSquares(frame) > RmsThreshold * RmsThreshold * |frame|
  }

  /** The loudness test as written (line 180 with the peak of line 177). */
  predicate LoudAsWritten(frame: seq<Sample>)
    requires |frame| > 0
  {
    PeakAsWritten(frame) > PeakThreshold || RmsAbove(frame)
  }

  /** The loudness test with the true peak: loud exactly when some sample's
      magnitude is above the peak threshold or the RMS is above its own. */
  predicate Loud(frame: seq<Sample>)
    requires |frame| > 0
    ensures Loud(frame) <==>
      (exists i :: 0 <= i < |frame| && Abs(frame[i]) > PeakThreshold) || RmsAbove(frame)
  {
    PeakAbove(frame);
    Peak(frame) > PeakThreshold || RmsAbove(frame)
  }

  /** The peak test passes exactly when some sample's magnitude is above the threshold. */
  lemma PeakAbove(frame: seq<Sample>)
    requires |frame| > 0
    ensures Peak(frame) > PeakThreshold <==> exists i :: 0 <= i < |frame| && Abs(frame[i]) > PeakThreshold
  {
  }

  /** As written, the peak test passes exactly when some sample other than
      -32768 is above the threshold: a full-scale negative sample is invisible. */
  lemma PeakAsWrittenAbove(frame: seq<Sample>)
    requires |frame| > 0
    ensures PeakAsWritten(frame) > PeakThreshold <==>
      exists i :: 0 <= i < |frame| && frame[i] != -32768 && Abs(frame[i]) > PeakThreshold
  {
    if PeakAsWritten(frame) > PeakThreshold {
      var i :| 0 <= i < |frame| && PeakAsWritten(frame) == WrappedAbs(frame[i]);
      assert frame[i] != -32768;
    }
  }

  /** Both tests agree on every frame without a -32768 sample. */
  lemma LoudAgreesWithoutMinSample(frame: seq<Sample>)
    requires |frame| > 0
    requires forall i :: 0 <= i < |frame| ==> frame[i] != -32768
    ensures LoudAsWritten(frame) <==> Loud(frame)
  {
    PeakAbove(frame);
    PeakAsWrittenAbove(frame);
  }

  function Silence(n: nat): (s: seq<Sample>)
    ensures |s| == n
    ensures forall i :: 0 <= i < n ==> s[i] == 0
  {
    seq(n, i => 0)
  }

  lemma {:induction false} SilenceHasNoEnergy(n: nat)
    ensures SumSquares(Silence(n)) == 0
  {
    if n > 0 {
      assert Silence(n)[1..] == Silence(n - 1);
      SilenceHasNoEnergy(n - 1);
    }
  }

  /** A chunk that is silent but for one full-scale negative sample is loud,
      yet the test as written lets it pass unnoticed. */
  lemma MinSampleMissed()
    ensures var frame := [-32768 as Sample] + Silence(Chunk - 1);
      |frame| == Chunk && !LoudAsWritten(frame) && Loud(frame)
  {
    var frame := [-32768 as Sample] + Silence(Chunk - 1);
    assert frame[1..] == Silence(Chunk - 1);
    SilenceHasNoEnergy(Chunk - 1);
    assert SumSquares(frame) == 1073741824;
    assert !RmsAbove(frame);
    assert Abs(frame[0]) > PeakThreshold;
    PeakAsWrittenAbove(frame);
    assert forall i :: 1 <= i < |frame| ==> frame[i] == 0;
  }

  /** Which loudness test the loop applies: the one of line 177 as written,
      or the corrected one with the true peak. */
  datatype Gate = AsWritten | Corrected

  predicate LoudBy(g: Gate, frame: seq<Sample>)
    requires |frame| > 0
  {
    match g
    case AsWritten => LoudAsWritten(frame)
    case Corrected => Loud(frame)
  }

  /** Line 180: a loud frame fires when more than `MIN_GAP` has passed since
      the last trigger (times in milliseconds). */
  predicate Fires(g: Gate, lastTrigger: int, frame: seq<Sample>, now: int)
    requires |frame| > 0
    ensures g.Corrected? ==> (Fires(g, lastTrigger, frame, now) <==>
      && now - lastTrigger > MinGapMs
      && ((exists i :: 0 <= i < |frame| && Abs(frame[i]) > PeakThreshold) || RmsAbove(frame)))
    ensures g.AsWritten? ==> (Fires(g, lastTrigger, frame, now) <==>
      && now - lastTrigger > MinGapMs
      && ((exists i :: 0 <= i < |frame| && frame[i] != -32768 && Abs(frame[i]) > PeakThreshold)
          || RmsAbove(frame)))
  {
    PeakAsWrittenAbove(frame);
    LoudBy(g, frame) && now - lastTrigger > MinGapMs
  }

  // ---------------------------------------------------------------
  // The listening loop (lines 172-185).
  // ---------------------------------------------------------------

  /** A chunk read from the stream and `time.time()` just after, in milliseconds. */
  datatype TimedFrame = TimedFrame(at: nat, samples: seq<Sample>)

  predicate FullChunks(rs: seq<TimedFrame>) {
    forall k :: 0 <= k < |rs| ==> |rs[k].samples| == Chunk
  }

  /** A trigger: the index of the loud frame, its time, the integer-second
      `timestamp` that keys the event, and the recorded window. */
  datatype Trigger = Trigger(index: nat, at: nat, timestamp: nat, capture: seq<Sample>)

  /** `record_audio(RECORD_SECONDS, stream)` reads `NumChunks(RecordMs)` chunks. */
  const WindowChunks: nat := 31

  /** The audio one chunk holds: 2048 samples at 32 kHz are 64 ms. */
  const ChunkMs: nat := Chunk * 1000 / Rate

  function SamplesOf(rs: seq<TimedFrame>): (chunks: seq<seq<Sample>>)
    ensures |chunks| == |rs|
    ensures forall k :: 0 <= k < |rs| ==> chunks[k] == rs[k].samples
  {
    seq(|rs|, k requires 0 <= k < |rs| => rs[k].samples)
  }

  /** The 31 chunks read by `record_audio` right after the frame at `i`. */
  function Window(rs: seq<TimedFrame>, i: nat): (capture: seq<Sample>)
    requires FullChunks(rs) && i + WindowChunks < |rs|
    ensures |capture| == WindowChunks * Chunk
  {
    var chunks := SamplesOf(rs[i + 1..i + 1 + WindowChunks]);
    FlattenLength(chunks);
    Flatten(chunks)
  }

  /** The gate's verdict on every frame of the stream. */
  function Verdicts(g: Gate, rs: seq<TimedFrame>): (v: seq<bool>)
    requires FullChunks(rs)
    ensures |v| == |rs|
    ensures forall k :: 0 <= k < |rs| ==> v[k] == LoudBy(g, rs[k].samples)
  {
    seq(|rs|, k requires 0 <= k < |rs| => LoudBy(g, rs[k].samples))
  }

  /** Line 180 with the loudness verdict `v[k]` already taken. */
  predicate Passes(v: seq<bool>, rs: seq<TimedFrame>, k: nat, lastTrigger: int)
    requires |v| == |rs| && k < |rs|
  {
    v[k] && rs[k].at - lastTrigger > MinGapMs
  }

  /** The loop from frame `i` on over the verdicts `v`, with `lastTrigger`
      as `last_trigger`: a frame that passes becomes a trigger and the 31
      chunks after it are recorded instead of compared; a stream that ends
      inside a recording yields no event for that trigger. */
  function Scan(v: seq<bool>, rs: seq<TimedFrame>, i: nat, lastTrigger: int): (ts: seq<Trigger>)
    requires |v| == |rs| && FullChunks(rs)
    decreases |rs| - i
  {
    if i >= |rs| then []
    else if Passes(v, rs, i, lastTrigger) then
      if i + WindowChunks < |rs| then
        [Trigger(i, rs[i].at, rs[i].at / 1000, Window(rs, i))] + Scan(v, rs, i + 1 + WindowChunks, rs[i].at)
      else []
    else Scan(v, rs, i + 1, lastTrigger)
  }

  /** Lines 172-185 with gate `g`: the triggers the detector fires, from frame `i` on. */
  function Listen(g: Gate, rs: seq<TimedFrame>, i: nat, lastTrigger: int): (ts: seq<Trigger>)
    requires FullChunks(rs)
    ensures |ts| > 0 ==> i + |ts| * (WindowChunks + 1) <= |rs|
  {
    var v := Verdicts(g, rs);
    ScanUsesChunks(v, rs, i, lastTrigger);
    Scan(v, rs, i, lastTrigger)
  }

  /** Every event of a scan uses up 32 chunks of the stream: its trigger
      chunk and the 31 it records. */
  lemma {:induction false} ScanUsesChunks(v: seq<bool>, rs: seq<TimedFrame>, i: nat, lastTrigger: int)
    requires |v| == |rs| && FullChunks(rs)
    ensures var ts := Scan(v, rs, i, lastTrigger);
      |ts| > 0 ==> i + |ts| * (WindowChunks + 1) <= |rs|
    decreases |rs| - i
  {
    if i < |rs| {
      if Passes(v, rs, i, lastTrigger) {
        if i + WindowChunks < |rs| {
          ScanUsesChunks(v, rs, i + 1 + WindowChunks, rs[i].at);
        }
      } else {
        ScanUsesChunks(v, rs, i + 1, lastTrigger);
      }
    }
  }

  /** A frame the loop does not fire on is skipped: the loop goes on with
      the next frame and the same `last_trigger`. */
  lemma ListenSkips(g: Gate, rs: seq<TimedFrame>, i: nat, lastTrigger: int)
    requires FullChunks(rs) && i < |rs|
    requires !Fires(g, lastTrigger, rs[i].samples, rs[i].at)
    ensures Listen(g, rs, i, lastTrigger) == Listen(g, rs, i + 1, lastTrigger)
  {
    assert !Passes(Verdicts(g, rs), rs, i, lastTrigger);
  }

  /** A frame that fires with its whole window ahead in the stream is the
      next trigger, and the loop resumes after the window with the frame's
      time as `last_trigger`. */
  lemma ListenFiresHere(g: Gate, rs: seq<TimedFrame>, i: nat, lastTrigger: int)
    requires FullChunks(rs) && i + WindowChunks < |rs|
    requires Fires(g, lastTrigger, rs[i].samples, rs[i].at)
    ensures var ts := Listen(g, rs, i, lastTrigger);
      && |ts| > 0
      && ts[0] == Trigger(i, rs[i].at, rs[i].at / 1000, Window(rs, i))
      && ts[1..] == Listen(g, rs, i + 1 + WindowChunks, rs[i].at)
  {
    assert Passes(Verdicts(g, rs), rs, i, lastTrigger);
  }

  /** Where and when the triggers of a scan sit: at or after `i`, on a
      passing frame, with their window inside the stream, stamped with their
      frame's time and carrying the window. */
  predicate PlacedFrom(v: seq<bool>, rs: seq<TimedFrame>, i: nat, ts: seq<Trigger>)
    requires |v| == |rs| && FullChunks(rs)
  {
    forall t :: t in ts ==>
      && i <= t.index && t.index + WindowChunks < |rs| && v[t.index]
      && t.at == rs[t.index].at && t.timestamp == t.at / 1000
      && t.capture == Window(rs, t.index)
  }

  lemma {:induction false} ScanPlaces(v: seq<bool>, rs: seq<TimedFrame>, i: nat, lastTrigger: int)
    requires |v| == |rs| && FullChunks(rs)
    ensures PlacedFrom(v, rs, i, Scan(v, rs, i, lastTrigger))
    decreases |rs| - i
  {
    if i < |rs| {
      if Passes(v, rs, i, lastTrigger) {
        if i + WindowChunks < |rs| {
          ScanPlaces(v, rs, i + 1 + WindowChunks, rs[i].at);
        }
      } else {
        ScanPlaces(v, rs, i + 1, lastTrigger);
      }
    }
  }

  /** What a trigger must be: a frame of the stream that passes the gate,
      stamped with that frame's time, carrying exactly the 31 chunks that follow it. */
  predicate TriggerOf(g: Gate, rs: seq<TimedFrame>, t: Trigger)
    requires FullChunks(rs)
  {
    && t.index + WindowChunks < |rs|
    && t.at == rs[t.index].at
    && t.timestamp == rs[t.index].at / 1000
    && LoudBy(g, rs[t.index].samples)
    && t.capture == Flatten(SamplesOf(rs[t.index + 1..t.index + 1 + WindowChunks]))
    && |t.capture| == WindowChunks * Chunk
  }

  /** Every trigger of the loop is a loud frame at or after `i` with its window. */
  lemma ListenTriggers(g: Gate, rs: seq<TimedFrame>, i: nat, lastTrigger: int)
    requires FullChunks(rs)
    ensures forall t :: t in Listen(g, rs, i, lastTrigger) ==> i <= t.index && TriggerOf(g, rs, t)
  {
    var v := Verdicts(g, rs);
    ScanPlaces(v, rs, i, lastTrigger);
    forall t | t in Listen(g, rs, i, lastTrigger)
      ensures i <= t.index && TriggerOf(g, rs, t)
    {
      assert v[t.index];
    }
  }

  /** Triggers are more than the gap apart, the first one more than the gap
      after `lastTrigger`, and their recorded windows never overlap. */
  predicate Spaced(ts: seq<Trigger>, i: nat, lastTrigger: int) {
    && (|ts| > 0 ==> ts[0].at - lastTrigger > MinGapMs && i <= ts[0].index)
    && (forall k :: 0 < k < |ts| ==>
         ts[k].at - ts[k - 1].at > MinGapMs && ts[k - 1].index + WindowChunks < ts[k].index)
  }

  lemma SpacedCons(t: Trigger, rest: seq<Trigger>, i: nat, lastTrigger: int)
    requires t.at - lastTrigger > MinGapMs && i <= t.index
    requires Spaced(rest, t.index + 1 + WindowChunks, t.at)
    ensures Spaced([t] + rest, i, lastTrigger)
  {
    var ts := [t] + rest;
    forall k | 0 < k < |ts|
      ensures ts[k].at - ts[k - 1].at > MinGapMs && ts[k - 1].index + WindowChunks < ts[k].index
    {
      assert ts[k] == rest[k - 1];
      if k > 1 {
        assert ts[k - 1] == rest[k - 2];
      }
    }
  }

  lemma {:induction false} ScanSpaced(v: seq<bool>, rs: seq<TimedFrame>, i: nat, lastTrigger: int)
    requires |v| == |rs| && FullChunks(rs)
    ensures Spaced(Scan(v, rs, i, lastTrigger), i, lastTrigger)
    decreases |rs| - i
  {
    if i < |rs| {
      if Passes(v, rs, i, lastTrigger) {
        if i + WindowChunks < |rs| {
          var next := i + 1 + WindowChunks;
          var rest := Scan(v, rs, next, rs[i].at);
          ScanSpaced(v, rs, next, rs[i].at);
          var ts := Scan(v, rs, i, lastTrigger);
          assert ts == [ts[0]] + rest && ts[0].index == i && ts[0].at == rs[i].at;
          SpacedCons(ts[0], rest, i, lastTrigger);
        }
      } else {
        ScanSpaced(v, rs, i + 1, lastTrigger);
      }
    }
  }

  lemma ListenSpaced(g: Gate, rs: seq<TimedFrame>, i: nat, lastTrigger: int)
    requires FullChunks(rs)
    ensures var ts := Listen(g, rs, i, lastTrigger);
      && (|ts| > 0 ==> ts[0].at - lastTrigger > MinGapMs && i <= ts[0].index)
      && (forall k :: 0 < k < |ts| ==>
           ts[k].at - ts[k - 1].at > MinGapMs && ts[k - 1].index + WindowChunks < ts[k].index)
  {
    ScanSpaced(Verdicts(g, rs), rs, i, lastTrigger);
  }

  /** Any two triggers of `ts` have disjoint windows in stream order. */
  predicate Ordered(ts: seq<Trigger>) {
    forall a, b :: 0 <= a < b < |ts| ==> ts[a].index + WindowChunks < ts[b].index
  }

  lemma OrderedCons(t: Trigger, rest: seq<Trigger>)
    requires Ordered(rest)
    requires forall u :: u in rest ==> t.index + WindowChunks < u.index
    ensures Ordered([t] + rest)
  {
    var ts := [t] + rest;
    forall a, b | 0 <= a < b < |ts|
      ensures ts[a].index + WindowChunks < ts[b].index
    {
      assert ts[b] == rest[b - 1] && rest[b - 1] in rest;
      if a > 0 {
        assert ts[a] == rest[a - 1];
      }
    }
  }

  /** Every trigger of a scan from `i` sits at or after `i`. */
  lemma {:induction false} ScanAfter(v: seq<bool>, rs: seq<TimedFrame>, i: nat, lastTrigger: int)
    requires |v| == |rs| && FullChunks(rs)
    ensures forall u :: u in Scan(v, rs, i, lastTrigger) ==> i <= u.index
    decreases |rs| - i
  {
    if i < |rs| {
      if Passes(v, rs, i, lastTrigger) {
        if i + WindowChunks < |rs| {
          ScanAfter(v, rs, i + 1 + WindowChunks, rs[i].at);
        }
      } else {
        ScanAfter(v, rs, i + 1, lastTrigger);
      }
    }
  }

  lemma {:induction false} ScanOrdered(v: seq<bool>, rs: seq<TimedFrame>, i: nat, lastTrigger: int)
    requires |v| == |rs| && FullChunks(rs)
    ensures Ordered(Scan(v, rs, i, lastTrigger))
    decreases |rs| - i
  {
    if i < |rs| {
      if Passes(v, rs, i, lastTrigger) {
        if i + WindowChunks < |rs| {
          var next := i + 1 + WindowChunks;
          var rest := Scan(v, rs, next, rs[i].at);
          ScanOrdered(v, rs, next, rs[i].at);
          ScanAfter(v, rs, next, rs[i].at);
          var ts := Scan(v, rs, i, lastTrigger);
          assert ts == [ts[0]] + rest && ts[0].index == i;
          OrderedCons(ts[0], rest);
        }
      } else {
        ScanOrdered(v, rs, i + 1, lastTrigger);
      }
    }
  }

  /** Any two triggers, not only neighbours, have disjoint windows in stream order. */
  lemma ListenOrdered(g: Gate, rs: seq<TimedFrame>, i: nat, lastTrigger: int)
    requires FullChunks(rs)
    ensures Ordered(Listen(g, rs, i, lastTrigger))
  {
    ScanOrdered(Verdicts(g, rs), rs, i, lastTrigger);
  }

  /** Some trigger of `ts` is the frame at `k`. */
  predicate TriggeredAt(ts: seq<Trigger>, k: nat) {
    exists j :: 0 <= j < |ts| && ts[j].index == k
  }

  /** Frame `k` is one of the chunks some trigger of `ts` records. */
  predicate Recorded(ts: seq<Trigger>, k: nat) {
    exists j :: 0 <= j < |ts| && ts[j].index < k <= ts[j].index + WindowChunks
  }

  /** `last_trigger` when the loop reaches frame `k`: the time of the latest
      trigger of `ts` (in stream order) before `k`, or `last` if none. */
  function LastTriggerBefore(ts: seq<Trigger>, k: nat, last: int): int {
    if |ts| == 0 || ts[0].index >= k then last else LastTriggerBefore(ts[1..], k, ts[0].at)
  }

  /** Among the frames at or after `i` whose window fits in the stream, the
      triggers of `ts` are exactly the frames no earlier trigger records that
      pass against the latest trigger before them. */
  predicate ScanExactFrom(v: seq<bool>, rs: seq<TimedFrame>, i: nat, lastTrigger: int, ts: seq<Trigger>)
    requires |v| == |rs| && FullChunks(rs)
  {
    forall k :: i <= k && k + WindowChunks < |rs| ==>
      (TriggeredAt(ts, k) <==> !Recorded(ts, k) && Passes(v, rs, k, LastTriggerBefore(ts, k, lastTrigger)))
  }

  /** Skipping a frame that does not pass keeps the characterisation. */
  lemma ExactSkip(v: seq<bool>, rs: seq<TimedFrame>, i: nat, lastTrigger: int, ts: seq<Trigger>)
    requires |v| == |rs| && FullChunks(rs) && i < |rs|
    requires !Passes(v, rs, i, lastTrigger)
    requires ScanExactFrom(v, rs, i + 1, lastTrigger, ts)
    requires forall t :: t in ts ==> i < t.index
    ensures ScanExactFrom(v, rs, i, lastTrigger, ts)
  {
    if i + WindowChunks < |rs| {
      assert LastTriggerBefore(ts, i, lastTrigger) == lastTrigger by {
        if |ts| > 0 {
          assert ts[0] in ts;
        }
      }
      assert !TriggeredAt(ts, i) by {
        forall j | 0 <= j < |ts|
          ensures ts[j].index != i
        {
          assert ts[j] in ts;
        }
      }
    }
  }

  /** A trigger at `i` followed by the triggers from after its window keeps
      the characterisation. */
  lemma ExactFire(v: seq<bool>, rs: seq<TimedFrame>, i: nat, lastTrigger: int, t: Trigger, rest: seq<Trigger>)
    requires |v| == |rs| && FullChunks(rs) && i + WindowChunks < |rs|
    requires Passes(v, rs, i, lastTrigger)
    requires t.index == i && t.at == rs[i].at
    requires ScanExactFrom(v, rs, i + 1 + WindowChunks, t.at, rest)
    requires forall u :: u in rest ==> i + WindowChunks < u.index
    ensures ScanExactFrom(v, rs, i, lastTrigger, [t] + rest)
  {
    var ts := [t] + rest;
    var next := i + 1 + WindowChunks;
    assert ts[1..] == rest;
    forall k | i <= k && k + WindowChunks < |rs|
      ensures TriggeredAt(ts, k) <==> !Recorded(ts, k) && Passes(v, rs, k, LastTriggerBefore(ts, k, lastTrigger))
    {
      if k == i {
        assert TriggeredAt(ts, k) by { assert ts[0].index == k; }
        assert !Recorded(ts, k) by {
          forall j | 0 <= j < |ts|
            ensures !(ts[j].index < k <= ts[j].index + WindowChunks)
          {
            if j > 0 {
              assert ts[j] == rest[j - 1] && rest[j - 1] in rest;
            }
          }
        }
      } else if k < next {
        assert Recorded(ts, k) by { assert ts[0].index < k <= ts[0].index + WindowChunks; }
        assert !TriggeredAt(ts, k) by {
          forall j | 0 <= j < |ts|
            ensures ts[j].index != k
          {
            if j > 0 {
              assert ts[j] == rest[j - 1] && rest[j - 1] in rest;
            }
          }
        }
      } else {
        assert LastTriggerBefore(ts, k, lastTrigger) == LastTriggerBefore(rest, k, t.at);
        assert TriggeredAt(ts, k) <==> TriggeredAt(rest, k) by {
          if TriggeredAt(ts, k) {
            var j :| 0 <= j < |ts| && ts[j].index == k;
            assert j > 0 && ts[j] == rest[j - 1];
          }
          if TriggeredAt(rest, k) {
            var j :| 0 <= j < |rest| && rest[j].index == k;
            assert ts[j + 1] == rest[j];
          }
        }
        assert Recorded(ts, k) <==> Recorded(rest, k) by {
          if Recorded(ts, k) {
            var j :| 0 <= j < |ts| && ts[j].index < k <= ts[j].index + WindowChunks;
            assert j > 0 && ts[j] == rest[j - 1];
          }
          if Recorded(rest, k) {
            var j :| 0 <= j < |rest| && rest[j].index < k <= rest[j].index + WindowChunks;
            assert ts[j + 1] == rest[j];
          }
        }
      }
    }
  }

  lemma {:induction false} ScanExact(v: seq<bool>, rs: seq<TimedFrame>, i: nat, lastTrigger: int)
    requires |v| == |rs| && FullChunks(rs)
    ensures ScanExactFrom(v, rs, i, lastTrigger, Scan(v, rs, i, lastTrigger))
    decreases |rs| - i
  {
    if i < |rs| {
      if Passes(v, rs, i, lastTrigger) {
        if i + WindowChunks < |rs| {
          var next := i + 1 + WindowChunks;
          var rest := Scan(v, rs, next, rs[i].at);
          ScanExact(v, rs, next, rs[i].at);
          ScanPlaces(v, rs, next, rs[i].at);
          var ts := Scan(v, rs, i, lastTrigger);
          assert ts == [ts[0]] + rest && ts[0].index == i && ts[0].at == rs[i].at;
          ExactFire(v, rs, i, lastTrigger, ts[0], rest);
        }
      } else {
        var ts := Scan(v, rs, i + 1, lastTrigger);
        ScanExact(v, rs, i + 1, lastTrigger);
        ScanPlaces(v, rs, i + 1, lastTrigger);
        ExactSkip(v, rs, i, lastTrigger, ts);
      }
    }
  }

  /** Exactly which frames trigger: among the frames at or after `i` whose
      window fits in the stream, a frame is a trigger if and only if no
      earlier trigger is recording it and it fires (passes the gate, more
      than 0.30 s after the latest trigger before it). */
  lemma ListenExact(g: Gate, rs: seq<TimedFrame>, i: nat, lastTrigger: int)
    requires FullChunks(rs)
    ensures var ts := Listen(g, rs, i, lastTrigger);
      forall k :: i <= k && k + WindowChunks < |rs| ==>
        (TriggeredAt(ts, k) <==>
         !Recorded(ts, k) && Fires(g, LastTriggerBefore(ts, k, lastTrigger), rs[k].samples, rs[k].at))
  {
    var v := Verdicts(g, rs);
    ScanExact(v, rs, i, lastTrigger);
    var ts := Listen(g, rs, i, lastTrigger);
    forall k | i <= k && k + WindowChunks < |rs|
      ensures Fires(g, LastTriggerBefore(ts, k, lastTrigger), rs[k].samples, rs[k].at) <==>
              Passes(v, rs, k, LastTriggerBefore(ts, k, lastTrigger))
    {
      assert v[k] == LoudBy(g, rs[k].samples);
    }
  }

  /** Frames that never pass the gate never trigger. */
  lemma {:induction false} ScanQuiet(v: seq<bool>, rs: seq<TimedFrame>, i: nat, lastTrigger: int)
    requires |v| == |rs| && FullChunks(rs)
    requires forall k :: 0 <= k < |rs| ==> !v[k]
    ensures Scan(v, rs, i, lastTrigger) == []
    decreases |rs| - i
  {
    if i < |rs| {
      ScanQuiet(v, rs, i + 1, lastTrigger);
    }
  }

  lemma QuietNeverFires(g: Gate, rs: seq<TimedFrame>, i: nat, lastTrigger: int)
    requires FullChunks(rs)
    requires forall k :: 0 <= k < |rs| ==> !LoudBy(g, rs[k].samples)
    ensures Listen(g, rs, i, lastTrigger) == []
  {
    ScanQuiet(Verdicts(g, rs), rs, i, lastTrigger);
  }

  /** The reads are paced by the microphone and the clock does not step
      back: each chunk is returned at least one chunk's duration after the
      previous one. */
  predicate Paced(rs: seq<TimedFrame>) {
    forall k :: 0 < k < |rs| ==> rs[k - 1].at + ChunkMs <= rs[k].at
  }

  lemma {:induction false} PacedElapsed(rs: seq<TimedFrame>, j: nat, k: nat)
    requires Paced(rs) && j <= k < |rs|
    ensures rs[k].at - rs[j].at >= ChunkMs * (k - j)
    decreases k - j
  {
    if j < k {
      PacedElapsed(rs, j, k - 1);
      assert rs[k - 1].at + ChunkMs <= rs[k].at;
    }
  }

  lemma SecondsApart(x: nat, y: nat)
    requires x + 1000 <= y
    ensures x / 1000 < y / 1000
  {
  }

  lemma ScanDistinctSeconds(v: seq<bool>, rs: seq<TimedFrame>, i: nat, lastTrigger: int)
    requires |v| == |rs| && FullChunks(rs) && Paced(rs)
    ensures var ts := Scan(v, rs, i, lastTrigger);
      forall a, b :: 0 <= a < b < |ts| ==>
        ts[b].at - ts[a].at >= (WindowChunks + 1) * ChunkMs && ts[a].timestamp < ts[b].timestamp
  {
    var ts := Scan(v, rs, i, lastTrigger);
    ScanOrdered(v, rs, i, lastTrigger);
    ScanPlaces(v, rs, i, lastTrigger);
    assert ChunkMs == 64;
    forall a, b | 0 <= a < b < |ts|
      ensures ts[b].at - ts[a].at >= (WindowChunks + 1) * ChunkMs && ts[a].timestamp < ts[b].timestamp
    {
      var x, y := ts[a], ts[b];
      assert x in ts && y in ts;
      assert x.index + WindowChunks < y.index;
      PacedElapsed(rs, x.index, y.index);
      SecondsApart(x.at, y.at);
    }
  }

  /** With paced reads, the 31-chunk recording keeps any two triggers more
      than two seconds apart, so no two events share a `timestamp`. */
  lemma TriggersInDistinctSeconds(g: Gate, rs: seq<TimedFrame>, i: nat, lastTrigger: int)
    requires FullChunks(rs) && Paced(rs)
    ensures var ts := Listen(g, rs, i, lastTrigger);
      forall a, b :: 0 <= a < b < |ts| ==>
        ts[b].at - ts[a].at >= (WindowChunks + 1) * ChunkMs && ts[a].timestamp < ts[b].timestamp
  {
    var v := Verdicts(g, rs);
    ScanDistinctSeconds(v, rs, i, lastTrigger);
    assert Listen(g, rs, i, lastTrigger) == Scan(v, rs, i, lastTrigger);
  }

  /** A stream whose first chunk is silent but for one -32768 sample, then
      31 silent chunks: the loop as written records nothing, while the
      corrected gate records the event. */
  function SpikeFrame(k: nat): (f: TimedFrame)
    ensures f.at == 1000 + ChunkMs * k && |f.samples| == Chunk
  {
    TimedFrame(1000 + ChunkMs * k, if k == 0 then [-32768 as Sample] + Silence(Chunk - 1) else Silence(Chunk))
  }

  function SpikeStream(): (rs: seq<TimedFrame>)
    ensures |rs| == WindowChunks + 1 && FullChunks(rs) && Paced(rs)
  {
    seq(WindowChunks + 1, k requires 0 <= k => SpikeFrame(k))
  }

  lemma SilenceIsQuiet()
    ensures !LoudAsWritten(Silence(Chunk)) && !Loud(Silence(Chunk))
  {
    SilenceHasNoEnergy(Chunk);
    PeakAbove(Silence(Chunk));
    PeakAsWrittenAbove(Silence(Chunk));
  }

  /** As written, the spike stream records nothing. */
  lemma SpikeStreamMissed()
    ensures Listen(AsWritten, SpikeStream(), 0, 0) == []
  {
    var rs := SpikeStream();
    MinSampleMissed();
    SilenceIsQuiet();
    forall k | 0 <= k < |rs|
      ensures !LoudBy(AsWritten, rs[k].samples)
    {
      assert rs[k] == SpikeFrame(k);
    }
    QuietNeverFires(AsWritten, rs, 0, 0);
  }

  /** With the corrected gate, the spike stream records its one event. */
  lemma SpikeStreamCaught()
    ensures |Listen(Corrected, SpikeStream(), 0, 0)| == 1
  {
    var rs := SpikeStream();
    MinSampleMissed();
    assert rs[0] == SpikeFrame(0);
    ListenFiresHere(Corrected, rs, 0, 0);
  }
}
