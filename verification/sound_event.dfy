/** What the detector does with one trigger (lines 182-216): it keys every
    artifact of the event by the trigger's integer-second timestamp, keeps
    the top three labels and probabilities, persists the record and sends
    the alert. The classifier and the uploads are inputs. */
module SoundEvent {
  import opened Base
  import opened Decimal
  import SoundTrigger
  import SoundLabels
  import RecordStore
  import EmailAlert

  const WavDir: string := "./sound/recordings/rec_"
  const LabelsDir: string := "./sound/recording_data/rec_"
  const BlobPrefix: string := "rec_"

  /** `prefix + str(timestamp) + suffix`, with the number readable back from
      its position. */
  function Keyed(prefix: string, timestamp: nat, suffix: string): (name: string)
    ensures |name| > |prefix| + |suffix|
    ensures name[..|prefix|] == prefix && name[|name| - |suffix|..] == suffix
    ensures name[|prefix|..|name| - |suffix|] == NatToString(timestamp)
  {
    var name := prefix + NatToString(timestamp) + suffix;
    assert name[..|prefix|] == prefix;
    assert name[|name| - |suffix|..] == suffix;
    assert name[|prefix|..|name| - |suffix|] == NatToString(timestamp);
    name
  }

  /** Keyed names with the same prefix and suffix determine their timestamp. */
  lemma KeyedInjective(prefix: string, a: nat, b: nat, suffix: string)
    requires Keyed(prefix, a, suffix) == Keyed(prefix, b, suffix)
    ensures a == b
  {
    var x := Keyed(prefix, a, suffix);
    assert NatToString(a) == x[|prefix|..|x| - |suffix|] == NatToString(b);
    NatToStringInjective(a, b);
  }

  /** Line 121. */
  function WavPath(timestamp: nat): string {
    Keyed(WavDir, timestamp, ".wav")
  }

  /** Line 132. */
  function LabelsPath(timestamp: nat): string {
    Keyed(LabelsDir, timestamp, ".txt")
  }

  /** Line 203. */
  function BlobName(timestamp: nat): string {
    Keyed(BlobPrefix, timestamp, ".wav")
  }

  /** `torch.topk(output, 5)` as indices and probabilities, best first. */
  datatype Classification = Classification(topIdx: seq<nat>, topProbs: seq<real>)

  /** The artifacts of one event. */
  datatype Event = Event(
    wavPath: string,
    labelsPath: string,
    labelLines: seq<(string, real)>,
    blobName: string,
    record: RecordStore.Record,
    delivery: Result<EmailAlert.Delivery>)

  /** Lines 182-216 for a trigger, its classification, the URL the upload
      returned and the SMTP outcome; also the store after the record is saved. */
  function HandleTrigger(
    table: map<int, string>, t: SoundTrigger.Trigger, c: Classification,
    wavUrl: string, smtp: EmailAlert.Smtp, store: RecordStore.Store): (r: (Event, RecordStore.Store))
    requires |c.topIdx| == |c.topProbs|
    ensures var (e, after) := r;
      && e.record.timestamp == t.timestamp
      && |e.record.labels| == |e.record.probs| == Min(3, |c.topIdx|)
      && (forall k :: 0 <= k < |e.record.labels| ==>
            e.record.labels[k] == SoundLabels.LabelFor(table, c.topIdx[k]) && e.record.probs[k] == c.topProbs[k])
      && e.record.wavUrl == wavUrl
      && e.labelLines == SoundLabels.Zip(e.record.labels, e.record.probs)
      && e.labelLines == SoundLabels.Take3(SoundLabels.Zip(SoundLabels.TopLabels(table, c.topIdx), c.topProbs))
      && after == RecordStore.Save(store, e.record)
      && e.delivery == EmailAlert.SendAlertEmail(t.timestamp, e.record.labels, e.record.probs, wavUrl, smtp)
      && (e.delivery.Raised? <==> |c.topIdx| < 3)
  {
    var labels := SoundLabels.Take3(SoundLabels.TopLabels(table, c.topIdx));
    var probs := SoundLabels.Take3(c.topProbs);
    SoundLabels.Take3Zip(SoundLabels.TopLabels(table, c.topIdx), c.topProbs);
    var record := RecordStore.Record(t.timestamp, labels, probs, wavUrl);
    var e := Event(
      WavPath(t.timestamp), LabelsPath(t.timestamp), SoundLabels.Zip(labels, probs),
      BlobName(t.timestamp), record,
      EmailAlert.SendAlertEmail(t.timestamp, labels, probs, wavUrl, smtp));
    (e, RecordStore.Save(store, record))
  }

  /** Every artifact of an event carries the trigger's timestamp: the file
      names and blob name hold its decimal text, the record holds it, the
      record is stored under it, and the e-mail's link points at it. */
  lemma EventKeyedByTimestamp(
    table: map<int, string>, t: SoundTrigger.Trigger, c: Classification,
    wavUrl: string, smtp: EmailAlert.Smtp, store: RecordStore.Store)
    requires |c.topIdx| == |c.topProbs|
    ensures var (e, after) := HandleTrigger(table, t, c, wavUrl, smtp, store);
      var ts := NatToString(t.timestamp);
      && e.wavPath[|WavDir|..|e.wavPath| - 4] == ts
      && e.labelsPath[|LabelsDir|..|e.labelsPath| - 4] == ts
      && e.blobName[|BlobPrefix|..|e.blobName| - 4] == ts
      && after[RecordStore.DocumentKey(t.timestamp)] == e.record
      && RecordStore.DocumentKey(t.timestamp) == ts
      && (e.delivery.Ok? ==> e.delivery.value.alert.link == EmailAlert.FirestoreLink(t.timestamp))
      && (e.delivery.Ok? ==> e.delivery.value.alert.timestamp == t.timestamp)
  {
  }

  /** Events in different seconds never share a file, blob or document. */
  lemma ArtifactsDistinct(a: nat, b: nat)
    requires a != b
    ensures WavPath(a) != WavPath(b)
    ensures LabelsPath(a) != LabelsPath(b)
    ensures BlobName(a) != BlobName(b)
    ensures RecordStore.DocumentKey(a) != RecordStore.DocumentKey(b)
  {
    if WavPath(a) == WavPath(b) { KeyedInjective(WavDir, a, b, ".wav"); }
    if LabelsPath(a) == LabelsPath(b) { KeyedInjective(LabelsDir, a, b, ".txt"); }
    if BlobName(a) == BlobName(b) { KeyedInjective(BlobPrefix, a, b, ".wav"); }
  }

  /** While the chunk reads are paced and the clock does not step back, the
      events of one run of the loop never share a file, blob or document:
      each recording keeps the next trigger more than two seconds away. */
  lemma PacedEventsKeepArtifacts(g: SoundTrigger.Gate, rs: seq<SoundTrigger.TimedFrame>, i: nat, lastTrigger: int)
    requires SoundTrigger.FullChunks(rs) && SoundTrigger.Paced(rs)
    ensures var ts := SoundTrigger.Listen(g, rs, i, lastTrigger);
      forall a, b :: 0 <= a < b < |ts| ==>
        && WavPath(ts[a].timestamp) != WavPath(ts[b].timestamp)
        && LabelsPath(ts[a].timestamp) != LabelsPath(ts[b].timestamp)
        && BlobName(ts[a].timestamp) != BlobName(ts[b].timestamp)
        && RecordStore.DocumentKey(ts[a].timestamp) != RecordStore.DocumentKey(ts[b].timestamp)
  {
    var ts := SoundTrigger.Listen(g, rs, i, lastTrigger);
    SoundTrigger.TriggersInDistinctSeconds(g, rs, i, lastTrigger);
    forall a, b | 0 <= a < b < |ts|
      ensures && WavPath(ts[a].timestamp) != WavPath(ts[b].timestamp)
              && LabelsPath(ts[a].timestamp) != LabelsPath(ts[b].timestamp)
              && BlobName(ts[a].timestamp) != BlobName(ts[b].timestamp)
              && RecordStore.DocumentKey(ts[a].timestamp) != RecordStore.DocumentKey(ts[b].timestamp)
    {
      ArtifactsDistinct(ts[a].timestamp, ts[b].timestamp);
    }
  }
}
