/** The dashboard's pure fold over live frames, and why it tells the same story as the backend. */
module BlockStream {
  import opened Records
  import opened JsonText
  import opened Blocks
  import opened Activity
  import opened Timestamps
  import Readings
  import BlockFeeds

  datatype StreamReading = StreamReading(device: string, sensor: string, sensorType: Json, value: Json, unit: Json,
      seqno: Json, at: string)

  datatype StreamState = StreamState(connected: bool, lastSeen: map<string, string>, readings: seq<StreamReading>,
      dropped: int)

  const EMPTY_STREAM := StreamState(false, map[], [], 0)

  const MAX_STREAM_READINGS: nat := 500

  /** v?.key: None is undefined. */
  function Prop(v: Option<Json>, key: string): Option<Json> {
    match v
    case Some(Obj(ms)) => Find(ms, key)
    case _ => None
  }

  predicate IsLag(frame: Json) {
    Prop(Some(frame), "type") == Some(Str("lagged"))
  }

  function ReadingFrom(frame: Json, device: string, at: string): Option<StreamReading> {
    var event := Prop(Prop(Some(frame), "block"), "event");
    if Prop(event, "event_type") != Some(Str("SENSOR_READING")) then None
    else
      match Prop(event, "metadata")
      case Some(Obj(ms)) =>
        (match Find(ms, "sensor_id")
         case Some(Str(id)) =>
           if id == "" then None
           else
             Some(StreamReading(device, id, Field(ms, "sensor_type"), Field(ms, "value"), Field(ms, "unit"),
                                Field(ms, "seq"), at))
         case _ => None)
      case _ => None
  }

  /** The actor and timestamp of a frame that counts. */
  function Heard(frame: Json): Option<(string, string)> {
    if IsLag(frame) then None
    else
      var block := Prop(Some(frame), "block");
      match (Prop(Prop(block, "event"), "actor"), Prop(block, "timestamp"))
      case (Some(Str(actor)), Some(Str(at))) => if actor != "" then Some((actor, at)) else None
      case _ => None
  }

  /** What every object inherits: its property names, and the text each inherited value is compared as. */
  type Inherited = map<string, string>

  /** state.lastSeen[actor]: an entry of its own, else whatever it inherits under that name. */
  function Previous(proto: Inherited, lastSeen: map<string, string>, actor: string): Option<string> {
    if actor in lastSeen then Some(lastSeen[actor])
    else if actor in proto then Some(proto[actor])
    else None
  }

  function ApplyFrame(proto: Inherited, s: StreamState, frame: Json): StreamState {
    if IsLag(frame) then s.(dropped := s.dropped + BlockFeeds.IntOr0(Prop(Some(frame), "dropped")))
    else
      match Heard(frame)
      case None => s
      case Some((actor, at)) =>
        var previous := Previous(proto, s.lastSeen, actor);
        var lastSeen :=
          if previous.None? || Before(previous.value, at) then s.lastSeen[actor := at] else s.lastSeen;
        var readings := match ReadingFrom(frame, actor, at)
          case None => s.readings
          case Some(r) => Tail(s.readings + [r], MAX_STREAM_READINGS);
        s.(lastSeen := lastSeen, readings := readings)
  }

  function ApplyAll(proto: Inherited, s: StreamState, frames: seq<Json>): StreamState {
    if frames == [] then s else ApplyFrame(proto, ApplyAll(proto, s, frames[..|frames| - 1]), Last(frames))
  }

  // ----- what the fold computes ------------------------------------------------------------------------

  /** The reading a frame contributes. */
  function Extracted(frame: Json): seq<StreamReading> {
    match Heard(frame)
    case None => []
    case Some((actor, at)) => (match ReadingFrom(frame, actor, at) case None => [] case Some(r) => [r])
  }

  ghost function ExtractedAll(frames: seq<Json>): seq<StreamReading> {
    if frames == [] then [] else ExtractedAll(frames[..|frames| - 1]) + Extracted(Last(frames))
  }

  ghost function LostIn(frames: seq<Json>): int {
    if frames == [] then 0
    else
      LostIn(frames[..|frames| - 1])
      + if IsLag(Last(frames)) then BlockFeeds.IntOr0(Prop(Some(Last(frames)), "dropped")) else 0
  }

  /** The last 500 readings of the stream, and every announced loss. */
  lemma {:induction false} FoldKeepsNewestReadings(proto: Inherited, s: StreamState, frames: seq<Json>)
    requires |s.readings| <= 500
    ensures ApplyAll(proto, s, frames).readings == Tail(s.readings + ExtractedAll(frames), 500)
    ensures ApplyAll(proto, s, frames).dropped == s.dropped + LostIn(frames)
    ensures ApplyAll(proto, s, frames).connected == s.connected
  {
    hide Heard, IsLag, ReadingFrom, Prop, BlockFeeds.IntOr0, Previous, Before, Tail;
    if frames == [] {
      assert s.readings + [] == s.readings;
      ShortTail(s.readings, MAX_STREAM_READINGS);
    } else {
      var front, all := frames[..|frames| - 1], s.readings + ExtractedAll(frames[..|frames| - 1]);
      FoldKeepsNewestReadings(proto, s, front);
      LagIsNotHeard(Last(frames));
      if Extracted(Last(frames)) == [] {
        assert s.readings + ExtractedAll(frames) == all;
      } else {
        var r := Extracted(Last(frames))[0];
        assert s.readings + ExtractedAll(frames) == all + [r];
        TailOneMore(all, r, MAX_STREAM_READINGS);
      }
    }
  }

  lemma ShortTail<T>(s: seq<T>, n: nat)
    requires |s| <= n
    ensures Tail(s, n) == s
  {
  }

  lemma LagIsNotHeard(frame: Json)
    ensures IsLag(frame) ==> Heard(frame).None?
  {
  }

  ghost predicate HeardAt(frames: seq<Json>, i: nat, actor: string, at: string) {
    i < |frames| && Heard(frames[i]) == Some((actor, at))
  }

  /** Nothing inherited under the actor's name stands in the way of this timestamp. */
  ghost predicate Counts(proto: Inherited, actor: string, at: string) {
    actor in proto ==> Before(proto[actor], at)
  }

  /** Last seen is, per actor, the greatest timestamp text heard; and there is one exactly if some
      timestamp heard counts against what every object inherits under the actor's name. */
  lemma {:induction false} FoldKeepsLatestTimestamp(proto: Inherited, frames: seq<Json>, actor: string)
    ensures
      var seen := ApplyAll(proto, EMPTY_STREAM, frames).lastSeen;
      && (actor in seen <==> exists i, at :: HeardAt(frames, i, actor, at) && Counts(proto, actor, at))
      && (actor in seen ==>
            && (exists i :: HeardAt(frames, i, actor, seen[actor])) && Counts(proto, actor, seen[actor])
            && forall i, at :: HeardAt(frames, i, actor, at) ==> !Before(seen[actor], at))
  {
    hide Heard, IsLag, ReadingFrom, Prop, BlockFeeds.IntOr0, Before;
    if frames != [] {
      var n := |frames| - 1;
      var front, frame := frames[..n], frames[n];
      FoldKeepsLatestTimestamp(proto, front, actor);
      LagIsNotHeard(frame);
      var before := ApplyAll(proto, EMPTY_STREAM, front).lastSeen;
      var after := ApplyAll(proto, EMPTY_STREAM, frames).lastSeen;
      forall i: nat, at | i < n ensures HeardAt(frames, i, actor, at) <==> HeardAt(front, i, actor, at) {}
      if Heard(frame).Some? && Heard(frame).value.0 == actor {
        var at := Heard(frame).value.1;
        assert HeardAt(frames, n, actor, at);
        OneMoreTimestamp(proto, before, after, front, frames, actor, at);
      } else {
        assert actor in after <==> actor in before;
        if actor in before {
          var i: nat :| HeardAt(front, i, actor, before[actor]);
          assert HeardAt(frames, i, actor, after[actor]);
        }
        if i, at :| HeardAt(frames, i, actor, at) && Counts(proto, actor, at) { assert HeardAt(front, i, actor, at); }
      }
    }
  }

  lemma OneMoreTimestamp(proto: Inherited, before: map<string, string>, after: map<string, string>,
                         front: seq<Json>, frames: seq<Json>, actor: string, at: string)
    requires frames != [] && front == frames[..|frames| - 1] && HeardAt(frames, |front|, actor, at)
    requires var previous := Previous(proto, before, actor);
      after == if previous.None? || Before(previous.value, at) then before[actor := at] else before
    requires actor in before <==> exists i, t :: HeardAt(front, i, actor, t) && Counts(proto, actor, t)
    requires actor in before ==>
      && (exists i :: HeardAt(front, i, actor, before[actor])) && Counts(proto, actor, before[actor])
      && forall i, t :: HeardAt(front, i, actor, t) ==> !Before(before[actor], t)
    requires forall i: nat, t :: i < |front| ==> (HeardAt(frames, i, actor, t) <==> HeardAt(front, i, actor, t))
    ensures actor in after <==> exists i, t :: HeardAt(frames, i, actor, t) && Counts(proto, actor, t)
    ensures actor in after ==>
      && (exists i :: HeardAt(frames, i, actor, after[actor])) && Counts(proto, actor, after[actor])
      && forall i, t :: HeardAt(frames, i, actor, t) ==> !Before(after[actor], t)
  {
    hide Heard, Before;
    var n := |front|;
    BeforeTotal(at, at);
    if actor in before {
      BeforeTotal(before[actor], at);
      var i: nat :| HeardAt(front, i, actor, before[actor]);
      assert HeardAt(frames, i, actor, before[actor]);
      if actor in proto && Before(before[actor], at) { BeforeTransitive(proto[actor], before[actor], at); }
    } else if actor in after {
      assert HeardAt(frames, n, actor, after[actor]);
    } else {
      assert !Counts(proto, actor, at);
    }
    if actor in after {
      forall j: nat, t | HeardAt(frames, j, actor, t) ensures !Before(after[actor], t) {
        if j < n && Before(after[actor], t) {
          assert HeardAt(front, j, actor, t);
          if after[actor] == at && actor in before && Before(before[actor], at) {
            BeforeTransitive(before[actor], at, t);
          }
          if actor !in before && actor in proto { BeforeTransitive(proto[actor], at, t); }
        }
      }
    }
  }

  // ----- against the backend ------------------------------------------------------------------------------

  /** What the hub sends for a block; device is whatever the registry knows of the actor. */
  function Enriched(b: Block, device: Json): Json {
    Obj([Member("block", BlockJson(b)), Member("device", device), Member("type", Str("block"))])
  }

  lemma EnrichedFields(b: Block, device: Json)
    ensures var f := Some(Enriched(b, device));
      && Prop(f, "type") == Some(Str("block")) && Prop(f, "block") == Some(BlockJson(b))
      && Prop(Prop(f, "block"), "timestamp") == Some(Str(b.timestamp))
      && Prop(Prop(f, "block"), "event") == Some(EventJson(b.event))
  {
    hide Find, EventJson, Decimal;
    DistinctKeys();
    assert |"block"| == 5 && |"device"| == 6 && |"type"| == 4;
    var ms, bs := Enriched(b, device).members, BlockJson(b).members;
    FindAt(ms, 0);
    FindAt(ms, 2);
    FindAt(bs, 0);
    FindAt(bs, 4);
  }

  lemma EventFields(e: Event)
    ensures var v := Some(EventJson(e));
      && Prop(v, "actor") == Some(Str(e.actor)) && Prop(v, "event_type") == Some(Str(e.eventType))
      && Prop(v, "metadata") == Some(e.metadata)
  {
    hide Find;
    DistinctKeys();
    var ms := EventJson(e).members;
    FindAt(ms, 0);
    FindAt(ms, 2);
    FindAt(ms, 4);
  }

  /** A block is heard exactly if it has an actor, and with its own timestamp. */
  lemma BlockIsHeard(b: Block, device: Json)
    ensures Heard(Enriched(b, device)) == if b.event.actor == "" then None else Some((b.event.actor, b.timestamp))
    ensures !IsLag(Enriched(b, device))
  {
    hide Prop, EventJson, BlockJson, Enriched;
    EnrichedFields(b, device);
    EventFields(b.event);
    assert "block"[0] == 'b' && "lagged"[0] == 'l';
  }

  /** The dashboard's reading as the backend would hold it. */
  ghost function AsBackend(parse: Parse, r: StreamReading): Option<(Key, Reading)> {
    match parse(r.at)
    case Some(at) => Some((Key(r.device, r.sensor), Reading(r.sensor, r.sensorType, r.value, r.unit, r.seqno, at)))
    case None => None
  }

  /** Both sides read the same measurements out of the same blocks. */
  lemma ExtractionAgrees(parse: Parse, b: Block, device: Json)
    requires parse(b.timestamp).Some?
    ensures var xs := Extracted(Enriched(b, device));
      if ReadingOf(parse, b).Some? then |xs| == 1 && AsBackend(parse, xs[0]) == ReadingOf(parse, b) else xs == []
  {
    hide Prop, EventJson, BlockJson, Enriched, Heard;
    BlockIsHeard(b, device);
    EnrichedFields(b, device);
    EventFields(b.event);
  }

  /** parse reads the timestamps storage-core writes. */
  ghost predicate ReadsStamps(parse: Parse) {
    forall c :: Valid(c) ==> parse(Text(c)) == Some(Seconds(c))
  }

  /** There is such a parse. */
  lemma ReadStampReadsStamps()
    ensures ReadsStamps(ReadStamp)
  {
    hide Text, Seconds, ReadStamp, Valid;
    forall c | Valid(c) ensures ReadStamp(Text(c)) == Some(Seconds(c)) { StampRoundTrip(c); }
  }

  ghost predicate Stamped(b: Block) {
    exists c :: Valid(c) && b.timestamp == Text(c)
  }

  ghost predicate AllStamped(blocks: seq<Block>) {
    forall i :: 0 <= i < |blocks| ==> Stamped(blocks[i])
  }

  ghost predicate SameInstant(parse: Parse, text: string, at: int) {
    exists c :: Valid(c) && text == Text(c) && parse(text) == Some(at) && at == Seconds(c)
  }

  function FramesFor(blocks: seq<Block>, devices: seq<Json>): seq<Json>
    requires |devices| == |blocks|
  {
    seq(|blocks|, i requires 0 <= i < |blocks| => Enriched(blocks[i], devices[i]))
  }

  /** Comparing texts decides the same way as comparing instants. */
  lemma SameDecision(parse: Parse, a: string, x: int, b: Block)
    requires ReadsStamps(parse) && SameInstant(parse, a, x) && Stamped(b)
    ensures parse(b.timestamp).Some? && (Before(a, b.timestamp) <==> parse(b.timestamp).value > x)
    ensures SameInstant(parse, b.timestamp, parse(b.timestamp).value)
  {
    hide Text, Seconds, Before, Valid;
    var c :| Valid(c) && a == Text(c) && x == Seconds(c);
    var d :| Valid(d) && b.timestamp == Text(d);
    TextOrderIsTimeOrder(c, d);
  }

  lemma StampIsRead(parse: Parse, b: Block)
    requires ReadsStamps(parse) && Stamped(b)
    ensures parse(b.timestamp).Some? && SameInstant(parse, b.timestamp, parse(b.timestamp).value)
  {
    hide Text, Seconds, Valid;
  }

  ghost predicate SameSeen(parse: Parse, stream: map<string, string>, backend: map<string, int>) {
    && stream.Keys == backend.Keys
    && forall a :: a in stream ==> SameInstant(parse, stream[a], backend[a])
  }

  /** No timestamp storage-core writes sorts behind anything inherited. */
  ghost predicate OutlastsStamps(proto: Inherited) {
    forall a, c :: a in proto && Valid(c) ==> !Before(proto[a], Text(c))
  }

  /** Fed the same blocks, dashboard and backend agree on every device's last seen instant, the greatest
      text being the text of the greatest instant, except that the dashboard has none for a device named
      like something every object inherits. */
  lemma {:induction false} LastSeenAgreesUpToInherited(parse: Parse, proto: Inherited, blocks: seq<Block>,
                                                       devices: seq<Json>, cap: nat)
    requires ReadsStamps(parse) && AllStamped(blocks) && |devices| == |blocks| && OutlastsStamps(proto)
    ensures
      var stream := ApplyAll(proto, EMPTY_STREAM, FramesFor(blocks, devices)).lastSeen;
      var backend := Scan(parse, blocks, cap).lastSeen;
      && stream.Keys == backend.Keys - proto.Keys
      && forall a :: a in stream ==> SameInstant(parse, stream[a], backend[a])
  {
    hide ReadsStamps, Stamped, SameInstant, Heard, IsLag, ReadingFrom, Enriched, Before, Prop, LatestStep,
      HistoryStep, CameraStep, OutlastsStamps;
    if blocks != [] {
      var n := |blocks| - 1;
      var front, b := blocks[..n], blocks[n];
      var frames := FramesFor(blocks, devices);
      LastSeenAgreesUpToInherited(parse, proto, front, devices[..n], cap);
      assert frames[..n] == FramesFor(front, devices[..n]);
      BlockIsHeard(b, devices[n]);
      StampIsRead(parse, b);
      var a, seen := b.event.actor, ApplyAll(proto, EMPTY_STREAM, frames[..n]).lastSeen;
      if a in proto {
        StampDoesNotCount(proto, a, b);
      } else if a in seen {
        SameDecision(parse, seen[a], Scan(parse, front, cap).lastSeen[a], b);
      }
    }
  }

  lemma StampDoesNotCount(proto: Inherited, a: string, b: Block)
    requires OutlastsStamps(proto) && a in proto && Stamped(b)
    ensures !Before(proto[a], b.timestamp)
  {
    hide Valid, Text, Before;
  }

  /** The backend has exactly the actors heard. */
  lemma {:induction false} BackendHearsEveryone(parse: Parse, blocks: seq<Block>, cap: nat, a: string)
    requires ReadsStamps(parse) && AllStamped(blocks)
    ensures a in Scan(parse, blocks, cap).lastSeen
      <==> a != "" && exists i :: 0 <= i < |blocks| && blocks[i].event.actor == a
  {
    hide ReadsStamps, Stamped, LatestStep, HistoryStep, CameraStep;
    if blocks != [] {
      var n := |blocks| - 1;
      BackendHearsEveryone(parse, blocks[..n], cap, a);
      StampIsRead(parse, blocks[n]);
      if i :| 0 <= i < n && blocks[i].event.actor == a { assert blocks[..n][i].event.actor == a; }
      if i :| 0 <= i < n && blocks[..n][i].event.actor == a { assert blocks[i].event.actor == a; }
    }
  }

  ghost predicate NobodyInherited(proto: Inherited, blocks: seq<Block>) {
    forall i :: 0 <= i < |blocks| && blocks[i].event.actor != "" ==> blocks[i].event.actor !in proto
  }

  /** So they agree exactly if no device that was heard is named like something every object inherits. */
  lemma LastSeenAgreesIff(parse: Parse, proto: Inherited, blocks: seq<Block>, devices: seq<Json>, cap: nat)
    requires ReadsStamps(parse) && AllStamped(blocks) && |devices| == |blocks| && OutlastsStamps(proto)
    ensures
      SameSeen(parse, ApplyAll(proto, EMPTY_STREAM, FramesFor(blocks, devices)).lastSeen,
               Scan(parse, blocks, cap).lastSeen)
      <==> NobodyInherited(proto, blocks)
  {
    hide ReadsStamps, AllStamped, OutlastsStamps, SameInstant, ApplyAll, FramesFor, Scan;
    var stream := ApplyAll(proto, EMPTY_STREAM, FramesFor(blocks, devices)).lastSeen;
    var backend := Scan(parse, blocks, cap).lastSeen;
    LastSeenAgreesUpToInherited(parse, proto, blocks, devices, cap);
    if NobodyInherited(proto, blocks) {
      forall a | a in backend ensures a !in proto { BackendHearsEveryone(parse, blocks, cap, a); }
      assert stream.Keys == backend.Keys;
    } else {
      var i :| 0 <= i < |blocks| && blocks[i].event.actor != "" && blocks[i].event.actor in proto;
      BackendHearsEveryone(parse, blocks, cap, blocks[i].event.actor);
    }
  }

  const INHERITED_FUNCTIONS: set<string> :=
    {"constructor", "hasOwnProperty", "isPrototypeOf", "propertyIsEnumerable", "toLocaleString", "toString", "valueOf",
     "__defineGetter__", "__defineSetter__", "__lookupGetter__", "__lookupSetter__"}

  function FunctionText(name: string): string {
    "function " + (if name == "constructor" then "Object" else name) + "() { [native code] }"
  }

  /** What an ordinary object inherits in JavaScript: functions, which compare as their source text, and
      the prototype itself. */
  const OBJECT_PROTOTYPE: Inherited :=
    (map name | name in INHERITED_FUNCTIONS :: FunctionText(name))["__proto__" := "[object Object]"]

  lemma PrototypeOutlastsStamps()
    ensures OutlastsStamps(OBJECT_PROTOTYPE)
    ensures OBJECT_PROTOTYPE.Keys
         == {"constructor", "hasOwnProperty", "isPrototypeOf", "propertyIsEnumerable", "toLocaleString", "toString",
             "valueOf", "__defineGetter__", "__defineSetter__", "__lookupGetter__", "__lookupSetter__", "__proto__"}
  {
    hide Text, Valid, Before;
    forall a, c | a in OBJECT_PROTOTYPE && Valid(c) ensures !Before(OBJECT_PROTOTYPE[a], Text(c)) {
      StampStarts(c);
      assert FunctionText(a)[0] == 'f' && "[object Object]"[0] == '[';
      LaterLetter(OBJECT_PROTOTYPE[a], Text(c));
    }
    assert "constructor" in INHERITED_FUNCTIONS;
  }

  lemma StampStarts(c: Timestamps.Civil)
    requires Valid(c)
    ensures Text(c) != "" && Text(c)[0] <= '9'
  {
    hide Power10;
    assert Text(c)[0] == Pad(c.year, 4)[0];
    assert Pad(c.year, 4) == Pad(c.year / 10, 3) + [DigitChar(c.year % 10)];
    assert Pad(c.year / 10, 3) == Pad(c.year / 10 / 10, 2) + [DigitChar(c.year / 10 % 10)];
    assert Pad(c.year / 10 / 10, 2) == Pad(c.year / 10 / 10 / 10, 1) + [DigitChar(c.year / 10 / 10 % 10)];
    assert Pad(c.year / 10 / 10 / 10, 1) == "" + [DigitChar(c.year / 10 / 10 / 10 % 10)];
  }

  lemma LaterLetter(a: string, b: string)
    requires a != "" && b != "" && b[0] < a[0]
    ensures !Before(a, b)
  {
  }

  // ----- the histories -----------------------------------------------------------------------------------

  /** Everything one sensor reported, in order. */
  ghost function AllOf(parse: Parse, blocks: seq<Block>, key: Key): seq<Reading> {
    if blocks == [] then []
    else
      var r := ReadingOf(parse, Last(blocks));
      AllOf(parse, blocks[..|blocks| - 1], key) + (if r.Some? && r.value.0 == key then [r.value.1] else [])
  }

  /** The stream's readings of one sensor, as the backend would hold them. */
  ghost function OfSensor(parse: Parse, rs: seq<StreamReading>, key: Key): seq<Reading> {
    if rs == [] then []
    else
      var r := AsBackend(parse, Last(rs));
      OfSensor(parse, rs[..|rs| - 1], key) + (if r.Some? && r.value.0 == key then [r.value.1] else [])
  }

  lemma {:induction false} StreamHearsEverything(parse: Parse, blocks: seq<Block>, devices: seq<Json>, key: Key)
    requires ReadsStamps(parse) && AllStamped(blocks) && |devices| == |blocks|
    ensures OfSensor(parse, ExtractedAll(FramesFor(blocks, devices)), key) == AllOf(parse, blocks, key)
  {
    hide ReadsStamps, Stamped, Extracted, Enriched, AsBackend, ReadingOf;
    if blocks != [] {
      var n := |blocks| - 1;
      var frames := FramesFor(blocks, devices);
      StreamHearsEverything(parse, blocks[..n], devices[..n], key);
      assert frames[..n] == FramesFor(blocks[..n], devices[..n]);
      StampIsRead(parse, blocks[n]);
      ExtractionAgrees(parse, blocks[n], devices[n]);
      var before, xs := ExtractedAll(frames[..n]), Extracted(frames[n]);
      if xs == [] { assert before + xs == before; } else { assert (before + xs)[..|before|] == before; }
    }
  }

  lemma {:induction false} OrderedIsAccepted(parse: Parse, blocks: seq<Block>, key: Key)
    requires Readings.TimeOrdered(AllOf(parse, blocks, key))
    ensures Readings.Accepted(parse, blocks, key) == AllOf(parse, blocks, key)
  {
    hide ReadingOf, Readings.LatestOf;
    if blocks != [] {
      var front := blocks[..|blocks| - 1];
      var before, all := AllOf(parse, front, key), AllOf(parse, blocks, key);
      assert forall i :: 0 <= i < |before| ==> before[i] == all[i];
      OrderedIsAccepted(parse, front, key);
      Readings.AcceptedOrder(parse, front, key);
      var r := ReadingOf(parse, Last(blocks));
      if r.Some? && r.value.0 == key && before != [] {
        assert all == before + [r.value.1];
        assert all[|before| - 1] == Last(before) && all[|before|] == r.value.1;
        assert Last(before).at <= r.value.1.at;
      }
    }
  }

  /** The dashboard has no out-of-order check of its own: for one sensor its readings are the ones the
      backend accepts if and only if they come in time order. */
  lemma StreamAgreesWithHistoryIffOrdered(parse: Parse, blocks: seq<Block>, devices: seq<Json>, key: Key)
    requires ReadsStamps(parse) && AllStamped(blocks) && |devices| == |blocks|
    ensures
      OfSensor(parse, ExtractedAll(FramesFor(blocks, devices)), key) == Readings.Accepted(parse, blocks, key)
      <==> Readings.TimeOrdered(AllOf(parse, blocks, key))
  {
    hide ReadsStamps, AllStamped, AllOf, Readings.Accepted, Readings.TimeOrdered, OfSensor, ExtractedAll;
    StreamHearsEverything(parse, blocks, devices, key);
    if Readings.TimeOrdered(AllOf(parse, blocks, key)) {
      OrderedIsAccepted(parse, blocks, key);
    } else {
      Readings.AcceptedOrder(parse, blocks, key);
    }
  }
}
