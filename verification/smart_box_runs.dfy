/** The smart box over many ticks of `loop()`: timestamps stay consistent,
    ThingSpeak hears from the box at most once per send interval, and an
    item nobody asks about turns the box from WAITING to ABNORMAL exactly
    when its grace time runs out. */
module SmartBoxRuns {
  import opened Base
  import SB = SmartBox

  /** The sensor readings of one tick and the `millis()` value it runs at. */
  datatype Reading = Reading(at: nat, sensors: SB.Sensors)

  /** The readings come at non-decreasing times, none earlier than the state's memory. */
  predicate Timed(s: SB.BoxState, rs: seq<Reading>) {
    && (|rs| > 0 ==> SB.Clocked(s, rs[0].at))
    && (forall i, j :: 0 <= i < j < |rs| ==> rs[i].at <= rs[j].at)
  }

  /** After the first tick the rest of the readings are still timed. */
  lemma TimedAfterStep(s: SB.BoxState, rs: seq<Reading>)
    requires Timed(s, rs) && |rs| > 0
    ensures Timed(SB.Step(s, rs[0].sensors, rs[0].at).box, rs[1..])
  {
    var b := SB.Step(s, rs[0].sensors, rs[0].at).box;
    if |rs| > 1 {
      assert rs[0].at <= rs[1].at;
      assert SB.Clocked(b, rs[1].at);
    }
  }

  function Run(s: SB.BoxState, rs: seq<Reading>): (ticks: seq<SB.Tick>)
    requires Timed(s, rs)
    ensures |ticks| == |rs|
    decreases |rs|
  {
    if |rs| == 0 then []
    else
      var t := SB.Step(s, rs[0].sensors, rs[0].at);
      [t] + Run(t.box, rs[1..])
  }

  /** The state after each tick is consistent with that tick's clock; every
      upload happens at least one send interval after the start state's last one. */
  lemma {:induction false} RunClocked(s: SB.BoxState, rs: seq<Reading>)
    requires Timed(s, rs)
    ensures forall j :: 0 <= j < |rs| ==> SB.Clocked(Run(s, rs)[j].box, rs[j].at)
    ensures forall j :: 0 <= j < |rs| && Run(s, rs)[j].telemetry.Some? ==>
      rs[j].at >= s.lastSendMillis + SB.SendIntervalMs
    decreases |rs|
  {
    if |rs| > 0 {
      var t := SB.Step(s, rs[0].sensors, rs[0].at);
      var rest := rs[1..];
      TimedAfterStep(s, rs);
      RunClocked(t.box, rest);
      forall j | 0 < j < |rs|
        ensures Run(s, rs)[j] == Run(t.box, rest)[j - 1]
      {
      }
    }
  }

  /** Two telemetry uploads along a run are at least one send interval apart. */
  lemma {:induction false} TelemetrySpaced(s: SB.BoxState, rs: seq<Reading>)
    requires Timed(s, rs)
    ensures forall i, j :: 0 <= i < j < |rs| && Run(s, rs)[i].telemetry.Some? && Run(s, rs)[j].telemetry.Some? ==>
      rs[j].at >= rs[i].at + SB.SendIntervalMs
    decreases |rs|
  {
    if |rs| > 0 {
      var ticks := Run(s, rs);
      var t := ticks[0];
      var rest := rs[1..];
      TimedAfterStep(s, rs);
      TelemetrySpaced(t.box, rest);
      RunClocked(t.box, rest);
      forall i, j | 0 <= i < j < |rs| && ticks[i].telemetry.Some? && ticks[j].telemetry.Some?
        ensures rs[j].at >= rs[i].at + SB.SendIntervalMs
      {
        assert ticks[j] == Run(t.box, rest)[j - 1];
        if i > 0 {
          assert ticks[i] == Run(t.box, rest)[i - 1];
        } else {
          assert t.box.lastSendMillis == rs[0].at;
        }
      }
    }
  }

  /** Readings of an item sitting on the counter of a closed box, the button untouched. */
  predicate Unattended(rs: seq<Reading>) {
    forall i :: 0 <= i < |rs| ==>
      && rs[i].sensors.magneticHigh
      && !rs[i].sensors.buttonHigh
      && rs[i].sensors.lightVal <= SB.LightThreshold
  }

  /** The item that arrived at `arrival` is still there and unrequested,
      and the box shows WAITING up to the grace period and ABNORMAL after. */
  predicate WaitingOnItem(t: SB.Tick, now: nat, arrival: nat) {
    && t.box.item.wasOnCounter
    && !t.box.item.processed
    && t.box.item.since == arrival
    && (t.shown == SB.Waiting <==> now - arrival <= SB.ItemOnCounterGraceMs)
    && (t.shown == SB.Abnormal <==> now - arrival > SB.ItemOnCounterGraceMs)
  }

  /** One tick of `UnattendedItem`. */
  lemma UnattendedTick(s: SB.BoxState, x: SB.Sensors, now: nat, arrival: nat)
    requires SB.Clocked(s, now)
    requires x.magneticHigh && !x.buttonHigh && x.lightVal <= SB.LightThreshold
    requires !s.item.wasOnCounter ==> arrival == now
    requires s.item.wasOnCounter ==> !s.item.processed && s.item.since == arrival
    ensures WaitingOnItem(SB.Step(s, x, now), now, arrival)
  {
    var v := SB.Supervise(s, x, now);
    assert SB.Step(s, x, now).box.item == v.box.item;
  }

  /** An item put on an empty counter and never requested: the box shows
      WAITING for the first 90 s and ABNORMAL from then on. */
  lemma {:induction false} UnattendedItem(s: SB.BoxState, rs: seq<Reading>, arrival: nat)
    requires Timed(s, rs) && Unattended(rs)
    requires |rs| > 0 && !s.item.wasOnCounter ==> arrival == rs[0].at
    requires s.item.wasOnCounter ==> !s.item.processed && s.item.since == arrival
    ensures forall j :: 0 <= j < |rs| ==> WaitingOnItem(Run(s, rs)[j], rs[j].at, arrival)
    decreases |rs|
  {
    if |rs| > 0 {
      var t := SB.Step(s, rs[0].sensors, rs[0].at);
      UnattendedTick(s, rs[0].sensors, rs[0].at, arrival);
      var rest := rs[1..];
      TimedAfterStep(s, rs);
      assert Unattended(rest);
      UnattendedItem(t.box, rest, arrival);
      forall j | 0 < j < |rs|
        ensures Run(s, rs)[j] == Run(t.box, rest)[j - 1]
      {
      }
    }
  }
}
