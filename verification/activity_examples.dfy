/** Ledgers on which the cache's shortcuts show: sequence numbers that fall while the clock stands still,
    and a clock that goes back. Both are chains storage-core would build and verify. */
module ActivityExamples {
  import opened Records
  import opened JsonText
  import opened Blocks
  import opened Chains
  import opened Activity
  import opened ActivityRefresh
  import opened Readings
  import opened Timestamps
  import opened BlockStream

  /** A measurement as a device posts it. */
  function Measurement(device: string, sensor: string, seqno: Json): Event {
    Event("SENSOR_READING", "lab", device, "", Obj([Member("sensor_id", Str(sensor)), Member("seq", seqno)]))
  }

  function Measured(sensor: string, seqno: Json, at: int): Reading {
    Reading(sensor, Null, Null, Null, seqno, at)
  }

  lemma MeasurementKeys()
    ensures "sensor_id" != "seq" && "sensor_type" != "sensor_id" && "sensor_type" != "seq"
    ensures "value" != "sensor_id" && "value" != "seq" && "unit" != "sensor_id" && "unit" != "seq"
    ensures Before("sensor_id", "seq")
  {
    assert |"sensor_id"| == 9 && |"seq"| == 3 && |"sensor_type"| == 11 && |"value"| == 5 && |"unit"| == 4;
    var a, b := "sensor_id", "seq";
    assert a[1..][1..] == a[2..] && b[1..][1..] == b[2..];
    assert a[0] == b[0] && a[1] == b[1] && a[2] == 'n' && b[2] == 'q';
    assert Before(a[2..], b[2..]);
    assert Before(a[1..], b[1..]);
  }

  lemma MeasurementIsRead(parse: Parse, b: Block, device: string, sensor: string, seqno: Json)
    requires b.event == Measurement(device, sensor, seqno) && device != "" && sensor != "" && parse(b.timestamp).Some?
    ensures ReadingOf(parse, b) == Some((Key(device, sensor), Measured(sensor, seqno, parse(b.timestamp).value)))
  {
    MeasurementKeys();
    var ms := b.event.metadata.members;
    FindAt(ms, 0);
    FindAt(ms, 1);
    NotFound(ms, "sensor_type");
    NotFound(ms, "value");
    NotFound(ms, "unit");
  }

  lemma GenesisIsNoReading(sha: Sha, parse: Parse, now: string)
    ensures ReadingOf(parse, Genesis(sha, now)) == None
  {
    hide ComputeHash;
    assert "GENESIS"[0] == 'G' && "SENSOR_READING"[0] == 'S';
  }

  // ----- a sequence number falls -------------------------------------------------------------------------

  /** A genesis block, a measurement with one sequence number, and n with another, all at one time. */
  ghost function Standstill(sha: Sha, now: string, first: Event, later: Event, n: nat): seq<Block>
    ensures Standstill(sha, now, first, later, n) != []
  {
    if n == 0 then [Genesis(sha, now)] + [BuildNext(sha, [Genesis(sha, now)], first, now)]
    else
      var chain := Standstill(sha, now, first, later, n - 1);
      chain + [BuildNext(sha, chain, later, now)]
  }

  lemma {:induction false} StandstillIsSound(sha: Sha, now: string, first: Event, later: Event, n: nat)
    ensures Sound(sha, Standstill(sha, now, first, later, n)) && |Standstill(sha, now, first, later, n)| == n + 2
  {
    hide Sound, BuildNext, Genesis;
    if n == 0 {
      GenesisIsSound(sha, now);
      GrowthKeepsSound(sha, [Genesis(sha, now)], first, now);
    } else {
      StandstillIsSound(sha, now, first, later, n - 1);
      GrowthKeepsSound(sha, Standstill(sha, now, first, later, n - 1), later, now);
    }
  }

  lemma AcceptNext(parse: Parse, front: seq<Block>, b: Block, key: Key, r: Reading)
    requires ReadingOf(parse, b) == Some((key, r))
    requires var h := Accepted(parse, front, key); h == [] || Last(h).at <= r.at
    ensures Accepted(parse, front + [b], key) == Accepted(parse, front, key) + [r]
  {
    hide ReadingOf;
    assert (front + [b])[..|front|] == front;
    AcceptedOrder(parse, front, key);
  }

  lemma NothingAccepted(parse: Parse, b: Block, key: Key)
    requires ReadingOf(parse, b) == None
    ensures Accepted(parse, [b], key) == []
  {
    hide ReadingOf;
    assert [b][..0] == [];
  }

  lemma {:induction false} StandstillHistory(sha: Sha, parse: Parse, now: string, device: string, sensor: string,
                                             a: Json, b: Json, n: nat)
    requires device != "" && sensor != "" && parse(now).Some?
    ensures var at := parse(now).value;
      Accepted(parse, Standstill(sha, now, Measurement(device, sensor, a), Measurement(device, sensor, b), n),
          Key(device, sensor))
      == [Measured(sensor, a, at)] + Copies(Measured(sensor, b, at), n)
  {
    hide ReadingOf, BuildNext, Genesis, Accepted, Measurement;
    var first, later, key := Measurement(device, sensor, a), Measurement(device, sensor, b), Key(device, sensor);
    var ra, rb := Measured(sensor, a, parse(now).value), Measured(sensor, b, parse(now).value);
    if n == 0 {
      var g := [Genesis(sha, now)];
      GenesisIsNoReading(sha, parse, now);
      NothingAccepted(parse, g[0], key);
      BuiltBlockHasEvent(sha, g, first, now);
      MeasurementIsRead(parse, BuildNext(sha, g, first, now), device, sensor, a);
      AcceptNext(parse, g, BuildNext(sha, g, first, now), key, ra);
    } else {
      var chain := Standstill(sha, now, first, later, n - 1);
      StandstillHistory(sha, parse, now, device, sensor, a, b, n - 1);
      BuiltBlockHasEvent(sha, chain, later, now);
      MeasurementIsRead(parse, BuildNext(sha, chain, later, now), device, sensor, b);
      AcceptNext(parse, chain, BuildNext(sha, chain, later, now), key, rb);
      assert [ra] + Copies(rb, n - 1) + [rb] == [ra] + Copies(rb, n);
    }
  }

  /** For every capacity: a device whose sequence number falls from a to b while its clock stands still,
      and that then reports as often as the history holds, has pushed out the reading that sorts last.
      Some query the cache answers, it answers differently from an unbounded one. */
  lemma FallingSeqIsForgotten(sha: Sha, parse: Parse, q: SeqOf, now: string, device: string, sensor: string, a: Json,
                              b: Json, cap: nat)
    returns (chain: seq<Block>, since: Option<int>, limit: nat)
    requires device != "" && sensor != "" && parse(now).Some? && q(a) > q(b) && cap >= 1
    ensures Sound(sha, chain) && |chain| == cap + 2 && 1 <= limit <= cap
    ensures Query(q, Histories(Scan(parse, chain, cap).history, [Key(device, sensor)]), since, limit)
         != Query(q, Uncapped(parse, chain, [Key(device, sensor)]), since, limit)
  {
    hide Sound, Query, Scan, Standstill, Measurement;
    var key, at := Key(device, sensor), parse(now).value;
    chain := Standstill(sha, now, Measurement(device, sensor, a), Measurement(device, sensor, b), cap);
    StandstillIsSound(sha, now, Measurement(device, sensor, a), Measurement(device, sensor, b), cap);
    StandstillHistory(sha, parse, now, device, sensor, a, b, cap);
    var h := Accepted(parse, chain, key);
    AcceptedOrder(parse, chain, key);
    HistoryIsTail(parse, chain, cap, key);
    BeforeIrreflexive(sensor);
    assert !AtMost(q, h[0], h[cap]);
    assert !EvictionSafe(q, h, cap);
    BoundedAnswersExactlyWhenSafe(q, h, cap);
    since, limit :| 1 <= limit <= cap && Query(q, [Tail(h, cap)], since, limit) != Query(q, [h], since, limit);
    assert Histories(Scan(parse, chain, cap).history, [key]) == [Tail(h, cap)];
    assert Uncapped(parse, chain, [key]) == [h];
  }

  // ----- the clock goes back -----------------------------------------------------------------------------

  lemma AllOfNext(parse: Parse, front: seq<Block>, b: Block, key: Key, r: Reading)
    requires ReadingOf(parse, b) == Some((key, r))
    ensures AllOf(parse, front + [b], key) == AllOf(parse, front, key) + [r]
  {
    hide ReadingOf;
    assert (front + [b])[..|front|] == front;
  }

  /** A clock set back between two measurements: the dashboard shows both, the backend keeps the first. */
  lemma ClockSetBackDisagrees(sha: Sha, parse: Parse, device: string, sensor: string, late: Civil, early: Civil,
                              seqno: Json)
    returns (chain: seq<Block>)
    requires ReadsStamps(parse) && Timestamps.Valid(late) && Timestamps.Valid(early) && Seconds(early) < Seconds(late)
    requires device != "" && sensor != ""
    ensures Sound(sha, chain) && AllStamped(chain) && |chain| == 3
    ensures forall devices :: |devices| == 3 ==>
      OfSensor(parse, ExtractedAll(FramesFor(chain, devices)), Key(device, sensor))
      != Accepted(parse, chain, Key(device, sensor))
  {
    hide Sound, BuildNext, Genesis, Measurement, ReadingOf, Accepted, AllOf, ExtractedAll, OfSensor, FramesFor,
        Seconds, Text;
    var key, e := Key(device, sensor), Measurement(device, sensor, seqno);
    var g := [Genesis(sha, Text(late))];
    var b1 := BuildNext(sha, g, e, Text(late));
    var b2 := BuildNext(sha, g + [b1], e, Text(early));
    chain := g + [b1] + [b2];
    GenesisIsSound(sha, Text(late));
    GrowthKeepsSound(sha, g, e, Text(late));
    GrowthKeepsSound(sha, g + [b1], e, Text(early));
    BuiltBlockHasEvent(sha, g, e, Text(late));
    BuiltBlockHasEvent(sha, g + [b1], e, Text(early));
    GenesisIsStamped(sha, late);
    MeasurementIsRead(parse, b1, device, sensor, seqno);
    MeasurementIsRead(parse, b2, device, sensor, seqno);
    AllOfNext(parse, g, b1, key, Measured(sensor, seqno, Seconds(late)));
    AllOfNext(parse, g + [b1], b2, key, Measured(sensor, seqno, Seconds(early)));
    var all := AllOf(parse, chain, key);
    assert all[|all| - 2].at > all[|all| - 1].at;
    forall devices | |devices| == 3
      ensures OfSensor(parse, ExtractedAll(FramesFor(chain, devices)), key) != Accepted(parse, chain, key)
    {
      StreamAgreesWithHistoryIffOrdered(parse, chain, devices, key);
    }
  }

  lemma GenesisIsStamped(sha: Sha, c: Civil)
    ensures Genesis(sha, Text(c)).timestamp == Text(c)
  {
    hide ComputeHash, Text;
  }

  // ----- a device with an inherited name -------------------------------------------------------------------

  /** A device that calls itself "constructor": the backend sees it, the dashboard never does. */
  lemma ConstructorIsNeverSeen(sha: Sha, parse: Parse, c: Civil, sensor: string, seqno: Json, cap: nat)
    returns (chain: seq<Block>)
    requires ReadsStamps(parse) && Timestamps.Valid(c)
    ensures Sound(sha, chain) && AllStamped(chain) && |chain| == 2
    ensures "constructor" in Scan(parse, chain, cap).lastSeen
    ensures forall devices :: |devices| == 2 ==>
      "constructor" !in ApplyAll(OBJECT_PROTOTYPE, EMPTY_STREAM, FramesFor(chain, devices)).lastSeen
  {
    hide Sound, BuildNext, Genesis, ApplyAll, FramesFor, Seconds, Text, Scan, OutlastsStamps;
    var g, e := [Genesis(sha, Text(c))], Measurement("constructor", sensor, seqno);
    var b := BuildNext(sha, g, e, Text(c));
    chain := g + [b];
    GenesisIsSound(sha, Text(c));
    GrowthKeepsSound(sha, g, e, Text(c));
    GenesisIsStamped(sha, c);
    BuiltBlockHasEvent(sha, g, e, Text(c));
    PrototypeOutlastsStamps();
    assert chain[1].event.actor == "constructor";
    BackendHearsEveryone(parse, chain, cap, "constructor");
    forall devices | |devices| == 2
      ensures "constructor" !in ApplyAll(OBJECT_PROTOTYPE, EMPTY_STREAM, FramesFor(chain, devices)).lastSeen
    {
      LastSeenAgreesUpToInherited(parse, OBJECT_PROTOTYPE, chain, devices, cap);
    }
  }
}
