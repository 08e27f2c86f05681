/** The ESP32's poll of the local image API (`checkForNewClassifiedImage`):
    rate-limited to one fetch every five seconds, it reports a new
    classification only when the newest image id changes away from an id
    it had already seen. */
module ClassificationPoll {

  const CheckIntervalMs: nat := 5000

  /** `lastClassificationCheck` and `lastImageID`. */
  datatype Poller = Poller(lastCheck: nat, lastImageId: string)

  const Boot := Poller(0, "")

  /** What one fetch of the image list yields. `Newest(id)` carries the `id`
      of the first array element, or "" when that element has no string id. */
  datatype Fetch =
    | Offline          // WiFi not connected
    | TransportError   // HTTP GET returned a code <= 0
    | Unparseable      // body is not JSON
    | NoImages         // JSON is not an array, or the array is empty
    | Newest(id: string)

  datatype Poll = Poll(poller: Poller, isNew: bool)

  predicate Due(p: Poller, now: nat)
    requires p.lastCheck <= now
  {
    now - p.lastCheck >= CheckIntervalMs
  }

  function Check(p: Poller, now: nat, fetch: Fetch): (r: Poll)
    requires p.lastCheck <= now
    // inside the interval: nothing is fetched and nothing changes
    ensures !Due(p, now) ==> r == Poll(p, false)
    // otherwise the check time is stamped whatever the fetch brings
    ensures Due(p, now) ==> r.poller.lastCheck == now
    // a new classification is an id change away from a non-empty remembered id
    ensures r.isNew <==>
      Due(p, now) && fetch.Newest? && p.lastImageId != "" && fetch.id != p.lastImageId
    // the first id ever seen is recorded silently
    ensures Due(p, now) && fetch.Newest? && p.lastImageId == "" ==>
      !r.isNew && r.poller.lastImageId == fetch.id
    // failed fetches leave the remembered id alone
    ensures !fetch.Newest? ==> r.poller.lastImageId == p.lastImageId
    ensures Due(p, now) && fetch.Newest? ==> r.poller.lastImageId == fetch.id
  {
    if now - p.lastCheck < CheckIntervalMs then Poll(p, false)
    else
      var stamped := p.(lastCheck := now);
      match fetch
      case Newest(imageId) =>
        if p.lastImageId != imageId then
          if p.lastImageId != "" then Poll(stamped.(lastImageId := imageId), true)
          else Poll(stamped.(lastImageId := imageId), false)
        else Poll(stamped, false)
      case _ => Poll(stamped, false)
  }

  /** One call of the detector per element, at non-decreasing times. */
  datatype Call = Call(at: nat, fetch: Fetch)

  predicate InOrder(p: Poller, calls: seq<Call>) {
    && (forall i :: 0 <= i < |calls| ==> p.lastCheck <= calls[i].at)
    && (forall i, j :: 0 <= i < j < |calls| ==> calls[i].at <= calls[j].at)
  }

  function Run(p: Poller, calls: seq<Call>): (outs: seq<Poll>)
    requires InOrder(p, calls)
    ensures |outs| == |calls|
    decreases |calls|
  {
    if |calls| == 0 then []
    else
      var first := Check(p, calls[0].at, calls[0].fetch);
      [first] + Run(first.poller, calls[1..])
  }

  /** The remembered check time never goes backwards along a run, and every
      reported classification is at least one interval after the start. */
  lemma {:induction false} RunStamps(p: Poller, calls: seq<Call>)
    requires InOrder(p, calls)
    ensures forall j :: 0 <= j < |calls| ==>
      p.lastCheck <= Run(p, calls)[j].poller.lastCheck <= calls[j].at
    ensures forall j :: 0 <= j < |calls| && Run(p, calls)[j].isNew ==>
      calls[j].at >= p.lastCheck + CheckIntervalMs
    decreases |calls|
  {
    if |calls| > 0 {
      var first := Check(p, calls[0].at, calls[0].fetch);
      var rest := calls[1..];
      assert InOrder(first.poller, rest);
      RunStamps(first.poller, rest);
      forall j | 0 < j < |calls|
        ensures Run(p, calls)[j] == Run(first.poller, rest)[j - 1]
      {
      }
    }
  }

  /** Two reported classifications are always at least five seconds apart. */
  lemma {:induction false} NewClassificationsSpaced(p: Poller, calls: seq<Call>)
    requires InOrder(p, calls)
    ensures forall i, j :: 0 <= i < j < |calls| && Run(p, calls)[i].isNew && Run(p, calls)[j].isNew ==>
      calls[j].at >= calls[i].at + CheckIntervalMs
    decreases |calls|
  {
    if |calls| > 0 {
      var outs := Run(p, calls);
      var first := outs[0];
      var rest := calls[1..];
      assert InOrder(first.poller, rest);
      NewClassificationsSpaced(first.poller, rest);
      RunStamps(first.poller, rest);
      forall i, j | 0 <= i < j < |calls| && outs[i].isNew && outs[j].isNew
        ensures calls[j].at >= calls[i].at + CheckIntervalMs
      {
        assert outs[j] == Run(first.poller, rest)[j - 1];
        if i > 0 {
          assert outs[i] == Run(first.poller, rest)[i - 1];
        } else {
          assert first.poller.lastCheck == calls[0].at;
        }
      }
    }
  }
}
