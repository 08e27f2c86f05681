/** `read_button_state`: the camera host's poll of ThingSpeak for the latest
    ButtonState (field2), with 0 as the answer to every failure. */
module ButtonPoll {
  import opened Base
  import Decimal
  import SB = SmartBox
  import opened Json

  /** The outcome of `requests.get(..., timeout=10)`; `body` is None when
      `r.json()` cannot decode it. */
  datatype Reply =
    | RequestFailed
    | Reply(status: int, body: Option<Value>)

  /** The field2 entry of the newest feed, when the reply reaches that far
      without an exception (`dict.get` on a non-dict, `feeds[0]` on a non-list). */
  function LatestField2(reply: Reply): Option<Value> {
    if reply.RequestFailed? || reply.status != 200 || reply.body.None? then None
    else
      var data := reply.body.value;
      if !data.Object? || "feeds" !in data.members then None
      else
        var feeds := data.members["feeds"];
        if !feeds.Array? || |feeds.items| == 0 then None
        else
          var first := feeds.items[0];
          if !first.Object? || "field2" !in first.members then None
          else Some(first.members["field2"])
  }

  /** Lines 17-37: the parsed ButtonState, 0 on every error path. */
  function ReadButtonState(reply: Reply): (n: nat)
    // transport errors and non-200 statuses read as "not pressed"
    ensures reply.RequestFailed? ==> n == 0
    ensures reply.Reply? && reply.status != 200 ==> n == 0
    ensures reply.Reply? && reply.body.None? ==> n == 0
    // a non-zero answer is always the decimal value of a digit-only field2
    ensures n != 0 ==>
      && LatestField2(reply).Some?
      && LatestField2(reply).value.Str?
      && Decimal.IsDigitString(LatestField2(reply).value.s)
      && n == Decimal.Value(LatestField2(reply).value.s)
    // and a digit-only field2 is always read at its value
    ensures LatestField2(reply).Some? && LatestField2(reply).value.Str? &&
            Decimal.IsDigitString(LatestField2(reply).value.s) ==>
      n == Decimal.Value(LatestField2(reply).value.s)
  {
    match reply
    case RequestFailed => 0
    case Reply(status, body) =>
      if status != 200 then 0
      else if body.None? then 0
      else
        var data := body.value;
        if !data.Object? then 0
        else
          var feeds := if "feeds" in data.members then data.members["feeds"] else Array([]);
          if !feeds.Truthy() then 0
          else if !feeds.Array? then 0
          else
            var first := feeds.items[0];
            if !first.Object? then 0
            else
              var value := if "field2" in first.members then first.members["field2"] else Str("0");
              if value.Str? && value.Truthy() && Decimal.AllDigits(value.s) then Decimal.Value(value.s)
              else 0
  }

  /** What ThingSpeak's `fields/2.json?results=1` answers once an entry exists. */
  function FeedReply(entry: map<string, Value>, channel: Value): Value {
    Object(map["channel" := channel, "feeds" := Array([Object(entry)])])
  }

  /** A field2 that is missing, empty or not all digits reads as 0. */
  lemma UnusableField2(entry: map<string, Value>, channel: Value)
    requires "field2" !in entry ||
      !entry["field2"].Str? || !Decimal.IsDigitString(entry["field2"].s)
    ensures ReadButtonState(Reply(200, Some(FeedReply(entry, channel)))) == 0
  {
    var reply := Reply(200, Some(FeedReply(entry, channel)));
    if "field2" in entry && entry["field2"].Str? && |entry["field2"].s| > 0 {
      assert LatestField2(reply) == Some(entry["field2"]);
    }
  }

  /** An empty or missing feed list reads as 0. */
  lemma NoFeeds(members: map<string, Value>)
    requires "feeds" !in members || members["feeds"] == Array([])
    ensures ReadButtonState(Reply(200, Some(Object(members)))) == 0
  {
  }

  /** The ESP32 uploads `String(buttonState)` as field2; reading the newest
      entry back on the camera host yields the same number. */
  lemma ButtonRelay(t: SB.Telemetry, entry: map<string, Value>, channel: Value)
    ensures ReadButtonState(Reply(200, Some(FeedReply(entry["field2" := Str(t.Field2())], channel)))) == t.buttonState
  {
    var reply := Reply(200, Some(FeedReply(entry["field2" := Str(t.Field2())], channel)));
    assert LatestField2(reply) == Some(Str(t.Field2()));
  }

  /** Lines 466-469: the camera host captures and classifies when the value read is 1. */
  predicate CaptureRequested(reply: Reply) {
    ReadButtonState(reply) == 1
  }

  /** The camera host starts a capture exactly when the box last uploaded a
      pressed button. */
  lemma PressStartsCapture(t: SB.Telemetry, entry: map<string, Value>, channel: Value)
    ensures CaptureRequested(Reply(200, Some(FeedReply(entry["field2" := Str(t.Field2())], channel)))) <==>
      t.buttonState == 1
  {
    ButtonRelay(t, entry, channel);
  }
}
