/** One 200 ms tick of the ESP32 smart box (`loop()`): discretise the
    sensors, latch door/item/button/AI facts, pick the shown state by strict
    priority ABNORMAL > WAITING > PROCESSING > NORMAL, apply the post-AI
    removal override, and hand telemetry to ThingSpeak every 20 s. */
module SmartBox {
  import opened Base
  import CP = ClassificationPoll
  import Decimal

  const LightThreshold: int := 2000
  const HandDistThresholdCm: real := 35.0
  const DoorOpenGraceMs: nat := 60000
  const ItemOnCounterGraceMs: nat := 90000
  const PickupWaitMs: nat := 60000
  const SendIntervalMs: nat := 20000

  datatype SystemState = Normal | Processing | Waiting | Abnormal

  /** Raw readings of one tick. `distanceRaw` is `readUltrasonicCM()`:
      -1.0 when the echo timed out. `fetch` is what the image-API poll would
      see if it is due this tick. */
  datatype Sensors = Sensors(
    magneticHigh: bool,
    buttonHigh: bool,
    lightVal: int,
    distanceRaw: real,
    fetch: CP.Fetch)

  /** The discretised facts the state machine works on. */
  datatype Facts = Facts(doorOpen: bool, counterEmpty: bool, buttonPressed: bool, handInPath: bool) {
    predicate ItemOnCounter() { !counterEmpty }
  }

  function Discretise(x: Sensors): (f: Facts)
    ensures f.doorOpen <==> !x.magneticHigh
    ensures f.ItemOnCounter() <==> x.lightVal <= LightThreshold
    ensures f.buttonPressed == x.buttonHigh
    ensures f.handInPath <==> f.doorOpen && 0.0 < x.distanceRaw < HandDistThresholdCm
  {
    var doorOpen := !x.magneticHigh;
    var distance := if x.distanceRaw < 0.0 then 9999.0 else x.distanceRaw;
    Facts(
      doorOpen,
      x.lightVal > LightThreshold,
      x.buttonHigh,
      doorOpen && x.distanceRaw > 0.0 && distance < HandDistThresholdCm)
  }

  // The global variables of main.cpp that survive from tick to tick, grouped
  // by the part of `loop()` that maintains them.

  datatype Door = Door(wasOpen: bool, openSince: nat, hadItemAtOpen: bool, handDuringOpen: bool)

  /** `processed`: classification requested for the current item;
      `aiDone`: `aiDoneForCurrentItem`. */
  datatype Item = Item(wasOnCounter: bool, since: nat, processed: bool, aiDone: bool)

  datatype Button = Button(lastState: bool, lastPress: nat)

  datatype Pickup = Pickup(waiting: bool, closeSince: nat)

  datatype BoxState = BoxState(
    door: Door,
    item: Item,
    button: Button,
    pickup: Pickup,
    handDetectLatched: bool,
    current: SystemState,
    poller: CP.Poller,
    lastSendMillis: nat)

  const Boot := BoxState(Door(false, 0, false, false), Item(false, 0, false, false), Button(false, 0),
                         Pickup(false, 0), false, Normal, CP.Boot, 0)

  /** Every remembered timestamp lies in the past of `now` (millis() never wraps here). */
  predicate Clocked(s: BoxState, now: nat) {
    && s.door.openSince <= now
    && s.item.since <= now
    && s.button.lastPress <= now
    && s.pickup.closeSince <= now
    && s.poller.lastCheck <= now
    && s.lastSendMillis <= now
  }

  // ---------------------------------------------------------------
  // Latching: main.cpp lines 297-360, in source order.
  // ---------------------------------------------------------------

  datatype Latched = Latched(box: BoxState, newImage: bool)

  /** Lines 297 and 302-307: hand latch, image-API poll, AI completion. */
  function PollStage(s: BoxState, x: Sensors, f: Facts, now: nat): (l: Latched)
    requires Clocked(s, now)
    ensures Clocked(l.box, now)
    ensures l.newImage == CP.Check(s.poller, now, x.fetch).isNew
    ensures l.box == s.(handDetectLatched := l.box.handDetectLatched, poller := l.box.poller,
                        item := s.item.(aiDone := l.box.item.aiDone))
    ensures l.box.handDetectLatched == (s.handDetectLatched || f.handInPath)
    ensures l.box.item.aiDone <==> s.item.aiDone || (l.newImage && s.item.processed)
  {
    var poll := CP.Check(s.poller, now, x.fetch);
    Latched(
      s.(handDetectLatched := s.handDetectLatched || f.handInPath,
         poller := poll.poller,
         item := s.item.(aiDone := s.item.aiDone || (poll.isNew && s.item.processed))),
      poll.isNew)
  }

  /** Lines 312-321: a rising edge requests classification of an item on the counter. */
  function ButtonStage(s: BoxState, f: Facts, now: nat): (r: BoxState)
    requires Clocked(s, now)
    ensures Clocked(r, now)
    ensures r == s.(button := r.button, item := s.item.(processed := r.item.processed, aiDone := r.item.aiDone))
    ensures r.button.lastState == f.buttonPressed
    ensures f.buttonPressed && !s.button.lastState && f.ItemOnCounter() ==> r.item.processed && !r.item.aiDone
    ensures !(f.buttonPressed && !s.button.lastState && f.ItemOnCounter()) ==> r.item == s.item
  {
    var item' :=
      if f.buttonPressed && !s.button.lastState && f.ItemOnCounter()
      then s.item.(processed := true, aiDone := false)
      else s.item;
    var press := if f.buttonPressed && !s.button.lastState then now else s.button.lastPress;
    s.(button := Button(f.buttonPressed, press), item := item')
  }

  /** Lines 324-339: door edges, the pickup announcement, the hand-during-open latch. */
  function DoorStage(s: BoxState, f: Facts, now: nat): (r: BoxState)
    requires Clocked(s, now)
    ensures Clocked(r, now)
    ensures r == s.(door := r.door, pickup := r.pickup)
    ensures r.door.wasOpen == f.doorOpen
    ensures f.doorOpen && !s.door.wasOpen ==> r.door.openSince == now && r.door.hadItemAtOpen == f.ItemOnCounter()
    ensures f.doorOpen ==> (r.door.handDuringOpen <==> f.handInPath || (s.door.wasOpen && s.door.handDuringOpen))
    ensures !f.doorOpen && s.door.wasOpen ==> !r.door.handDuringOpen
    // a closing edge after a hand reached in over an empty counter starts the pickup wait ...
    ensures !f.doorOpen && s.door.wasOpen && s.door.handDuringOpen && f.counterEmpty ==> r.pickup == Pickup(true, now)
    // ... and nothing else touches it
    ensures r.pickup != s.pickup ==>
      r.pickup == Pickup(true, now) && !f.doorOpen && s.door.wasOpen && s.door.handDuringOpen && f.counterEmpty
  {
    var d := s.door;
    var doorOpened := f.doorOpen && !d.wasOpen;
    var doorClosed := !f.doorOpen && d.wasOpen;
    var d1 :=
      if doorOpened then Door(true, now, f.ItemOnCounter(), false)
      else if doorClosed then d.(wasOpen := false, handDuringOpen := false)
      else d;
    var p1 := if doorClosed && d.handDuringOpen && f.counterEmpty then Pickup(true, now) else s.pickup;
    var d2 := if f.doorOpen && f.handInPath then d1.(handDuringOpen := true) else d1;
    s.(door := d2, pickup := p1)
  }

  /** Lines 344-360: item arrival and removal, and the end of a pickup wait. */
  function ItemStage(s: BoxState, f: Facts, now: nat): (r: BoxState)
    requires Clocked(s, now)
    ensures Clocked(r, now)
    ensures r == s.(item := r.item, pickup := s.pickup.(waiting := r.pickup.waiting))
    ensures r.item.wasOnCounter == f.ItemOnCounter()
    ensures f.ItemOnCounter() && !s.item.wasOnCounter ==> r.item == Item(true, now, false, false)
    ensures !(f.ItemOnCounter() && !s.item.wasOnCounter) ==> r.item == s.item.(wasOnCounter := f.ItemOnCounter())
    ensures r.pickup.waiting <==> s.pickup.waiting && !f.ItemOnCounter()
  {
    var i := s.item;
    var i1 :=
      if f.ItemOnCounter() && !i.wasOnCounter then Item(true, now, false, false)
      else if !f.ItemOnCounter() && i.wasOnCounter then i.(wasOnCounter := false)
      else i;
    var p1 := if s.pickup.waiting && f.ItemOnCounter() then s.pickup.(waiting := false) else s.pickup;
    s.(item := i1, pickup := p1)
  }

  function Latch(s: BoxState, x: Sensors, now: nat): (l: Latched)
    requires Clocked(s, now)
    ensures Clocked(l.box, now)
    ensures l.newImage == CP.Check(s.poller, now, x.fetch).isNew
    ensures l.box.item.wasOnCounter <==> Discretise(x).ItemOnCounter()
    ensures l.box.door.wasOpen <==> Discretise(x).doorOpen
    ensures l.box.button.lastState == x.buttonHigh
    ensures l.box.handDetectLatched == (s.handDetectLatched || Discretise(x).handInPath)
    ensures l.box.lastSendMillis == s.lastSendMillis
    ensures l.box.current == s.current
  {
    var f := Discretise(x);
    var polled := PollStage(s, x, f, now);
    var b := ItemStage(DoorStage(ButtonStage(polled.box, f, now), f, now), f, now);
    Latched(b, polled.newImage)
  }

  /** How the item flags come out of latching, read off the pre-state: a new
      item resets both; otherwise a rising edge on an item requests
      classification; otherwise a new classification completes a request. */
  lemma LatchItemFlags(s: BoxState, x: Sensors, now: nat)
    requires Clocked(s, now)
    ensures var f, l := Discretise(x), Latch(s, x, now);
      var arrived := f.ItemOnCounter() && !s.item.wasOnCounter;
      var requested := x.buttonHigh && !s.button.lastState && f.ItemOnCounter();
      && l.box.item.since == (if arrived then now else s.item.since)
      && l.box.item.processed == (if arrived then false else if requested then true else s.item.processed)
      && l.box.item.aiDone ==
         (if arrived || requested then false else s.item.aiDone || (l.newImage && s.item.processed))
      && l.box.pickup.waiting == (if f.ItemOnCounter() then false else l.box.pickup.waiting)
  {
  }

  // ---------------------------------------------------------------
  // The rules behind the shown state, one name per rule.
  // ---------------------------------------------------------------

  datatype Alarm =
    | RemovedBeforeAi      // item gone after a request, AI not finished
    | DoorLeftOpen         // door open on an empty counter past its grace time
    | ButtonWithoutItem    // button held with nothing on the counter
    | PickupOverdue        // pickup announced but counter still empty past its wait
    | ItemUnrequested      // item left without a request past its grace time
    | ReachInWithItem      // hand through the open door while an item sits there

  datatype WaitReason = AwaitingPickup | ItemAwaitingRequest | AwaitingAi

  function DoorOpenFor(b: BoxState, now: nat): nat
    requires Clocked(b, now)
  {
    if b.door.wasOpen then now - b.door.openSince else 0
  }

  function ItemOnCounterFor(b: BoxState, now: nat): nat
    requires Clocked(b, now)
  {
    if b.item.wasOnCounter then now - b.item.since else 0
  }

  /** The abnormal rules that hold on this tick, one alarm per rule. */
  function Alarms(b: BoxState, f: Facts, now: nat): (a: set<Alarm>)
    requires Clocked(b, now)
    ensures RemovedBeforeAi in a <==> !f.ItemOnCounter() && b.item.processed && !b.item.aiDone
    ensures DoorLeftOpen in a <==> f.doorOpen && f.counterEmpty && DoorOpenFor(b, now) > DoorOpenGraceMs
    ensures ButtonWithoutItem in a <==> f.buttonPressed && !f.ItemOnCounter()
    ensures PickupOverdue in a <==>
      b.pickup.waiting && f.counterEmpty && now - b.pickup.closeSince > PickupWaitMs
    ensures ItemUnrequested in a <==>
      f.ItemOnCounter() && !b.item.processed && ItemOnCounterFor(b, now) > ItemOnCounterGraceMs
    ensures ReachInWithItem in a <==> f.doorOpen && b.door.handDuringOpen && f.ItemOnCounter()
  {
    (if !f.ItemOnCounter() && b.item.processed && !b.item.aiDone then {RemovedBeforeAi} else {})
    + (if f.doorOpen && f.counterEmpty && DoorOpenFor(b, now) > DoorOpenGraceMs then {DoorLeftOpen} else {})
    + (if f.buttonPressed && !f.ItemOnCounter() then {ButtonWithoutItem} else {})
    + (if b.pickup.waiting && f.counterEmpty && now - b.pickup.closeSince > PickupWaitMs
       then {PickupOverdue} else {})
    + (if f.ItemOnCounter() && !b.item.processed && ItemOnCounterFor(b, now) > ItemOnCounterGraceMs
       then {ItemUnrequested} else {})
    + (if f.doorOpen && b.door.handDuringOpen && f.ItemOnCounter() then {ReachInWithItem} else {})
  }

  /** The waiting conditions that hold on this tick. */
  function WaitReasons(b: BoxState, f: Facts, now: nat): (w: set<WaitReason>)
    requires Clocked(b, now)
    ensures AwaitingPickup in w <==>
      b.pickup.waiting && f.counterEmpty && now - b.pickup.closeSince <= PickupWaitMs
    ensures ItemAwaitingRequest in w <==>
      f.ItemOnCounter() && !b.item.processed && ItemOnCounterFor(b, now) <= ItemOnCounterGraceMs
    ensures AwaitingAi in w <==> f.ItemOnCounter() && b.item.processed && !b.item.aiDone
  {
    (if b.pickup.waiting && f.counterEmpty && now - b.pickup.closeSince <= PickupWaitMs
     then {AwaitingPickup} else {})
    + (if f.ItemOnCounter() && !b.item.processed && ItemOnCounterFor(b, now) <= ItemOnCounterGraceMs
       then {ItemAwaitingRequest} else {})
    + (if f.ItemOnCounter() && b.item.processed && !b.item.aiDone then {AwaitingAi} else {})
  }

  /** The alarm set is non-empty exactly when one of the six rules fires. */
  lemma AlarmsNonEmpty(b: BoxState, f: Facts, now: nat)
    requires Clocked(b, now)
    ensures Alarms(b, f, now) != {} <==>
      || (!f.ItemOnCounter() && b.item.processed && !b.item.aiDone)
      || (f.doorOpen && f.counterEmpty && DoorOpenFor(b, now) > DoorOpenGraceMs)
      || (f.buttonPressed && !f.ItemOnCounter())
      || (b.pickup.waiting && f.counterEmpty && now - b.pickup.closeSince > PickupWaitMs)
      || (f.ItemOnCounter() && !b.item.processed && ItemOnCounterFor(b, now) > ItemOnCounterGraceMs)
      || (f.doorOpen && b.door.handDuringOpen && f.ItemOnCounter())
  {
  }

  /** The wait-reason set is non-empty exactly when one of the three reasons holds. */
  lemma WaitReasonsNonEmpty(b: BoxState, f: Facts, now: nat)
    requires Clocked(b, now)
    ensures WaitReasons(b, f, now) != {} <==>
      || (b.pickup.waiting && f.counterEmpty && now - b.pickup.closeSince <= PickupWaitMs)
      || (f.ItemOnCounter() && !b.item.processed && ItemOnCounterFor(b, now) <= ItemOnCounterGraceMs)
      || (f.ItemOnCounter() && b.item.processed && !b.item.aiDone)
  {
  }

  /** Each pending situation is reported either as a wait or, once its
      time is up, as an alarm, never both and never neither: the pickup
      wait, the unrequested item and the pending classification. */
  lemma PendingIsWaitOrAlarm(b: BoxState, f: Facts, now: nat)
    requires Clocked(b, now)
    ensures b.pickup.waiting && f.counterEmpty ==>
      (PickupOverdue in Alarms(b, f, now) <==> AwaitingPickup !in WaitReasons(b, f, now))
    ensures f.ItemOnCounter() && !b.item.processed ==>
      (ItemUnrequested in Alarms(b, f, now) <==> ItemAwaitingRequest !in WaitReasons(b, f, now))
    ensures b.item.processed && !b.item.aiDone ==>
      (RemovedBeforeAi in Alarms(b, f, now) <==> AwaitingAi !in WaitReasons(b, f, now))
  {
  }

  /** Blue: AI done with the item still there, the door open, or the button on an item. */
  predicate Busy(b: BoxState, f: Facts) {
    || (f.ItemOnCounter() && b.item.processed && b.item.aiDone)
    || f.doorOpen
    || (f.buttonPressed && f.ItemOnCounter())
  }

  /** The classified item has been taken away: the override back to NORMAL. */
  predicate PickedUpAfterAi(b: BoxState, f: Facts) {
    !f.ItemOnCounter() && b.item.processed && b.item.aiDone
  }

  datatype Decision = Decision(shown: SystemState, box: BoxState)

  /** Lines 365-427: flags computed in source order, then the override. */
  function Decide(b: BoxState, f: Facts, now: nat): (d: Decision)
    requires Clocked(b, now)
    // strict priority over the named rules, the override being the one exception
    ensures d.shown == Abnormal <==> Alarms(b, f, now) != {}
    ensures d.shown == Waiting <==>
      Alarms(b, f, now) == {} && WaitReasons(b, f, now) != {} && !PickedUpAfterAi(b, f)
    ensures d.shown == Processing <==>
      Alarms(b, f, now) == {} && WaitReasons(b, f, now) == {} && Busy(b, f) && !PickedUpAfterAi(b, f)
    ensures d.shown == Normal <==>
      Alarms(b, f, now) == {} && (PickedUpAfterAi(b, f) || (WaitReasons(b, f, now) == {} && !Busy(b, f)))
    // the override clears both AI flags; nothing else is touched
    ensures d.box == b.(item := d.box.item, current := d.shown)
    ensures d.box.item == (if Alarms(b, f, now) == {} && PickedUpAfterAi(b, f)
                           then b.item.(processed := false, aiDone := false) else b.item)
  {
    var itemOnCounter := f.ItemOnCounter();
    var doorOpenFor := DoorOpenFor(b, now);
    var itemOnCounterFor := ItemOnCounterFor(b, now);
    var processed, aiDone := b.item.processed, b.item.aiDone;

    var abnormal :=
      || (!itemOnCounter && processed && !aiDone)
      || (f.doorOpen && f.counterEmpty && doorOpenFor > DoorOpenGraceMs)
      || (f.buttonPressed && !itemOnCounter)
      || (b.pickup.waiting && f.counterEmpty && now - b.pickup.closeSince > PickupWaitMs)
      || (itemOnCounter && !processed && itemOnCounterFor > ItemOnCounterGraceMs)
      || (f.doorOpen && b.door.handDuringOpen && itemOnCounter);

    var classificationWaiting := itemOnCounter && processed && !aiDone;
    var classificationDoneOnCounter := itemOnCounter && processed && aiDone;

    var waiting :=
      !abnormal &&
      (|| (b.pickup.waiting && f.counterEmpty && now - b.pickup.closeSince <= PickupWaitMs)
       || (itemOnCounter && !processed && itemOnCounterFor <= ItemOnCounterGraceMs)
       || classificationWaiting);

    var processing :=
      !abnormal && !waiting &&
      (if classificationDoneOnCounter then true
       else f.doorOpen || (f.buttonPressed && itemOnCounter));

    AlarmsNonEmpty(b, f, now);
    WaitReasonsNonEmpty(b, f, now);
    var shown :=
      if abnormal then Abnormal
      else if waiting then Waiting
      else if processing then Processing
      else Normal;

    if !itemOnCounter && processed && aiDone && !abnormal then
      Decision(Normal, b.(item := b.item.(processed := false, aiDone := false), current := Normal))
    else
      Decision(shown, b.(current := shown))
  }

  // ---------------------------------------------------------------
  // The whole tick.
  // ---------------------------------------------------------------

  datatype Supervision = Supervision(box: BoxState, shown: SystemState, newImage: bool)

  /** Lines 290-429: everything the tick does except talking to ThingSpeak. */
  function Supervise(s: BoxState, x: Sensors, now: nat): (t: Supervision)
    requires Clocked(s, now)
    ensures Clocked(t.box, now)
    ensures t.box.current == t.shown
    ensures t.box.button.lastState == x.buttonHigh
    ensures t.box.lastSendMillis == s.lastSendMillis
    ensures t.box.handDetectLatched == (s.handDetectLatched || Discretise(x).handInPath)
    ensures t.box.item.wasOnCounter <==> Discretise(x).ItemOnCounter()
    ensures t.newImage == CP.Check(s.poller, now, x.fetch).isNew
    // an item taken away after a request, before the AI answered, is ABNORMAL
    ensures Discretise(x).counterEmpty && s.item.processed && !s.item.aiDone && !t.newImage ==>
      t.shown == Abnormal
    // the button held on an empty counter is ABNORMAL
    ensures x.buttonHigh && Discretise(x).counterEmpty ==> t.shown == Abnormal
    // a rising edge on an item already known to be there requests classification
    ensures x.buttonHigh && !s.button.lastState && Discretise(x).ItemOnCounter() && s.item.wasOnCounter ==>
      t.box.item.processed && !t.box.item.aiDone
    // ... but a rising edge in the very tick the item appears is lost
    ensures Discretise(x).ItemOnCounter() && !s.item.wasOnCounter ==>
      !t.box.item.processed && !t.box.item.aiDone && t.box.item.since == now
    // a held button is no new request
    ensures x.buttonHigh && s.button.lastState && !(Discretise(x).ItemOnCounter() && !s.item.wasOnCounter) ==>
      t.box.item.processed == s.item.processed &&
      t.box.item.aiDone == (s.item.aiDone || (t.newImage && s.item.processed))
    // the AI flag is only ever raised by a new classification on a requested item
    ensures !s.item.aiDone && t.box.item.aiDone ==> t.newImage && s.item.processed
    // an item picked up after the AI answered returns the box to NORMAL
    ensures Discretise(x).counterEmpty && s.item.processed && (s.item.aiDone || t.newImage) && t.shown != Abnormal ==>
      t.shown == Normal && !t.box.item.processed && !t.box.item.aiDone
    // an unrequested item waits for 90 s and then raises the alarm
    ensures Discretise(x).ItemOnCounter() && !t.box.item.processed &&
            !(Discretise(x).doorOpen && t.box.door.handDuringOpen) ==>
      && (t.shown == Waiting <==> now - t.box.item.since <= ItemOnCounterGraceMs)
      && (t.shown == Abnormal <==> now - t.box.item.since > ItemOnCounterGraceMs)
  {
    var f := Discretise(x);
    var l := Latch(s, x, now);
    LatchItemFlags(s, x, now);
    var d := Decide(l.box, f, now);
    Supervision(d.box, d.shown, l.newImage)
  }

  /** What `sendToThingSpeak` is handed; `buttonState` becomes ThingSpeak's field2. */
  datatype Telemetry = Telemetry(
    magnetic: nat, buttonState: nat, lightVal: int, lightState: nat, distance: real, distanceState: nat)
  {
    /** Arduino `String(buttonState)`, the text ThingSpeak stores as field2. */
    function Field2(): string {
      Decimal.NatToString(buttonState)
    }
  }

  datatype Tick = Tick(box: BoxState, shown: SystemState, newImage: bool, telemetry: Option<Telemetry>)

  /** Lines 451-457: every 20 s the readings and the latched hand flag go to
      ThingSpeak, and the latch is cleared. */
  function Transmit(v: Supervision, x: Sensors, now: nat): (t: Tick)
    requires Clocked(v.box, now)
    ensures Clocked(t.box, now)
    ensures t.shown == v.shown && t.newImage == v.newImage
    ensures t.telemetry.Some? <==> now - v.box.lastSendMillis >= SendIntervalMs
    ensures t.telemetry.None? ==> t.box == v.box
    ensures t.telemetry.Some? ==>
      && t.box == v.box.(lastSendMillis := now, handDetectLatched := false)
      && t.telemetry.value.Field2() == (if x.buttonHigh then "1" else "0")
      && (t.telemetry.value.distanceState == 1 <==> v.box.handDetectLatched)
  {
    if now - v.box.lastSendMillis >= SendIntervalMs then
      var telemetry := Telemetry(
        if x.magneticHigh then 1 else 0,
        if x.buttonHigh then 1 else 0,
        x.lightVal,
        if x.lightVal > LightThreshold then 1 else 0,
        if x.distanceRaw < 0.0 then 9999.0 else x.distanceRaw,
        if v.box.handDetectLatched then 1 else 0);
      Tick(v.box.(lastSendMillis := now, handDetectLatched := false), v.shown, v.newImage, Some(telemetry))
    else
      Tick(v.box, v.shown, v.newImage, None)
  }

  /** One whole `loop()`. */
  function Step(s: BoxState, x: Sensors, now: nat): (t: Tick)
    requires Clocked(s, now)
    ensures Clocked(t.box, now)
    ensures t.box.button.lastState == x.buttonHigh
    ensures t.telemetry.Some? <==> now - s.lastSendMillis >= SendIntervalMs
    ensures t.box.lastSendMillis == if t.telemetry.Some? then now else s.lastSendMillis
  {
    Transmit(Supervise(s, x, now), x, now)
  }
}
