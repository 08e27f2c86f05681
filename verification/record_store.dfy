/** The document store the detector persists to: one collection,
    "recordings", whose documents are keyed by the decimal text of the
    event's integer-second timestamp and written with `set` (an upsert). */
module RecordStore {
  import opened Decimal

  const Collection: string := "recordings"

  /** The persisted record of one loud-sound event. */
  datatype Record = Record(timestamp: nat, labels: seq<string>, probs: seq<real>, wavUrl: string)

  /** The documents of the collection, by key. */
  type Store = map<string, Record>

  function DocumentKey(timestamp: nat): (key: string)
    ensures IsDigitString(key) && Value(key) == timestamp
  {
    NatToString(timestamp)
  }

  /** `collection.document(str(timestamp)).set(record)`: the record's document
      now holds the record and no other document changes. */
  function Save(store: Store, r: Record): (after: Store)
    ensures DocumentKey(r.timestamp) in after && after[DocumentKey(r.timestamp)] == r
    ensures after.Keys == store.Keys + {DocumentKey(r.timestamp)}
    ensures forall k :: k in store && k != DocumentKey(r.timestamp) ==> after[k] == store[k]
  {
    store[DocumentKey(r.timestamp) := r]
  }

  /** Two events in the same second share a document: the later one
      replaces the earlier, which is lost. */
  lemma SameSecondOverwrites(store: Store, a: Record, b: Record)
    requires a.timestamp == b.timestamp
    ensures Save(Save(store, a), b) == Save(store, b)
  {
  }

  /** Events in different seconds keep separate documents. */
  lemma DistinctSecondsKept(store: Store, a: Record, b: Record)
    requires a.timestamp != b.timestamp
    ensures var after := Save(Save(store, a), b);
      after[DocumentKey(a.timestamp)] == a && after[DocumentKey(b.timestamp)] == b
  {
    NumberedNamesDistinct("", a.timestamp, b.timestamp, "");
    assert "" + NatToString(a.timestamp) + "" == DocumentKey(a.timestamp);
    assert "" + NatToString(b.timestamp) + "" == DocumentKey(b.timestamp);
  }

  /** Saving the same record twice is the same as saving it once. */
  lemma SaveIdempotent(store: Store, r: Record)
    ensures Save(Save(store, r), r) == Save(store, r)
  {
  }
}
