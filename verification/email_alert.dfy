/** The alert e-mail: a Firestore console link to the event's record, a
    subject naming the top label, and a body with the top three predictions.
    The message is built before the SMTP exchange, whose failures are
    caught and reported, never raised. */
module EmailAlert {
  import opened Base
  import opened Decimal
  import RecordStore

  const ProjectId: string := ""
  const Collection: string := "recordings"
  const ConsolePrefix: string := "https://console.firebase.google.com/project/"

  /** Everything of the link before the document key. */
  function CollectionLink(): string {
    ConsolePrefix + ProjectId + "/firestore/data/~2F" + Collection + "~2F"
  }

  /** Lines 19-23: the console page of document `timestamp` of the collection. */
  function FirestoreLink(timestamp: nat): (link: string)
    ensures |link| > |CollectionLink()|
    ensures link[..|CollectionLink()|] == CollectionLink()
    ensures IsDigitString(link[|CollectionLink()|..]) && Value(link[|CollectionLink()|..]) == timestamp
  {
    var link := CollectionLink() + NatToString(timestamp);
    assert link[|CollectionLink()|..] == NatToString(timestamp);
    link
  }

  /** Different events never share a link. */
  lemma FirestoreLinkInjective(a: nat, b: nat)
    requires FirestoreLink(a) == FirestoreLink(b)
    ensures a == b
  {
    var n := |CollectionLink()|;
    assert FirestoreLink(a)[n..] == FirestoreLink(b)[n..];
  }

  /** The link names the collection the record store writes to and the
      document key it writes under, so after the event's record is saved
      the link addresses exactly that record. */
  lemma LinkAddressesSavedRecord(store: RecordStore.Store, r: RecordStore.Record)
    ensures Collection == RecordStore.Collection
    ensures FirestoreLink(r.timestamp) == CollectionLink() + RecordStore.DocumentKey(r.timestamp)
    ensures RecordStore.Save(store, r)[FirestoreLink(r.timestamp)[|CollectionLink()|..]] == r
  {
    var link := FirestoreLink(r.timestamp);
    assert link[|CollectionLink()|..] == RecordStore.DocumentKey(r.timestamp);
  }

  const SubjectPrefix: string := "\U{1F6A8} Loud Sound Alert ("

  /** Line 50. */
  function Subject(topLabel: string): (subject: string)
    ensures |subject| == |SubjectPrefix| + |topLabel| + 1
    ensures subject[..|SubjectPrefix|] == SubjectPrefix && subject[|subject| - 1] == ')'
  {
    SubjectPrefix + topLabel + ")"
  }

  /** The top label can be read back from the subject. */
  lemma SubjectNamesTopLabel(topLabel: string)
    ensures var subject := Subject(topLabel);
      subject[|SubjectPrefix|..|subject| - 1] == topLabel
  {
    var subject := Subject(topLabel);
    assert subject == SubjectPrefix + topLabel + [')'];
  }

  /** The message of lines 30-52; the body is kept as its fields, with the
      probabilities not yet rounded to three decimals. */
  datatype Alert = Alert(
    subject: string,
    timestamp: nat,
    predictions: seq<(string, real)>,
    wavUrl: string,
    link: string)

  /** Lines 27-52: the message for an event, or the `IndexError` raised when
      fewer than three labels or probabilities are supplied. */
  function ComposeAlert(timestamp: nat, labels: seq<string>, probs: seq<real>, wavUrl: string): (r: Result<Alert>)
    ensures r.Raised? <==> |labels| < 3 || |probs| < 3
    ensures r.Ok? ==> && r.value.subject == Subject(labels[0])
                      && r.value.timestamp == timestamp
                      && |r.value.predictions| == 3
                      && (forall k :: 0 <= k < 3 ==> r.value.predictions[k] == (labels[k], probs[k]))
                      && r.value.link == FirestoreLink(timestamp)
                      && r.value.wavUrl == wavUrl
  {
    if |labels| < 3 || |probs| < 3 then Raised("IndexError: list index out of range")
    else
      Ok(Alert(Subject(labels[0]), timestamp,
               [(labels[0], probs[0]), (labels[1], probs[1]), (labels[2], probs[2])],
               wavUrl, FirestoreLink(timestamp)))
  }

  /** What the SMTP exchange of lines 55-59 does, decided outside the model. */
  datatype Smtp = Delivered | SmtpFailed(reason: string)

  datatype Delivery = Sent(alert: Alert) | Failed(alert: Alert, reason: string)

  /** Lines 26-63: a malformed call raises before any connection is made;
      otherwise the outcome of the exchange is reported and never raised. */
  function SendAlertEmail(timestamp: nat, labels: seq<string>, probs: seq<real>, wavUrl: string, smtp: Smtp): (r: Result<Delivery>)
    ensures r.Raised? <==> |labels| < 3 || |probs| < 3
    ensures r.Ok? ==> r.value.alert == ComposeAlert(timestamp, labels, probs, wavUrl).value
    ensures r.Ok? ==> (r.value.Sent? <==> smtp.Delivered?)
  {
    match ComposeAlert(timestamp, labels, probs, wavUrl)
    case Raised(e) => Raised(e)
    case Ok(alert) =>
      match smtp
      case Delivered => Ok(Sent(alert))
      case SmtpFailed(reason) => Ok(Failed(alert, reason))
  }
}
