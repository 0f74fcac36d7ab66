/** What the cache holds, told from the blocks' own fields: which words make a reading or a camera report,
    and what each of them does to a cache that has read everything before it. */
module ActivityMeaning {
  import opened Records
  import opened Activity

  lemma ScanOneMore(parse: Parse, blocks: seq<Block>, b: Block, cap: nat)
    ensures Scan(parse, blocks + [b], cap) == ConsumeBlock(parse, Scan(parse, blocks, cap), b, cap)
  {
    hide ConsumeBlock;
    assert (blocks + [b])[..|blocks + [b]| - 1] == blocks;
  }

  /** An actor is last seen at the greatest readable instant of its blocks. */
  lemma SeenAfterOneMore(parse: Parse, blocks: seq<Block>, b: Block, cap: nat)
    ensures Scan(parse, [], cap) == Cache(map[], map[], map[], map[])
    ensures
      var before, after := Scan(parse, blocks, cap).lastSeen, Scan(parse, blocks + [b], cap).lastSeen;
      var a, at := b.event.actor, parse(b.timestamp);
      if a != "" && at.Some? then
        && (forall a' :: a' != a ==> (a' in after <==> a' in before) && (a' in after ==> after[a'] == before[a']))
        && a in after && after[a] == if a in before && before[a] > at.value then before[a] else at.value
      else after == before
  {
    hide LatestStep, HistoryStep, CameraStep;
    ScanOneMore(parse, blocks, b, cap);
  }

  /** The newest cap of a history and one more reading. */
  ghost predicate IsNewestPart(h: seq<Reading>, old_: seq<Reading>, r: Reading, cap: nat) {
    && |h| == (if |old_| + 1 <= cap then |old_| + 1 else cap)
    && h == (old_ + [r])[|old_| + 1 - |h|..]
  }

  /** A reading that is not older than the sensor's latest becomes the latest and joins the history, with
      the metadata's own values; anything else leaves readings as they were. */
  lemma ReadingsAfterOneMore(parse: Parse, blocks: seq<Block>, b: Block, cap: nat, key: Key, at: int)
    ensures
      var before, after := Scan(parse, blocks, cap), Scan(parse, blocks + [b], cap);
      && (SaysNothing(parse, b, "SENSOR_READING") ==> after.latest == before.latest && after.history == before.history)
      && (SaysReport(parse, b, "SENSOR_READING", key, at) ==>
            var r := Reading(key.sensor, Said(b, "sensor_type"), Said(b, "value"), Said(b, "unit"), Said(b, "seq"), at);
            if key in before.latest && before.latest[key].at > at
            then after.latest == before.latest && after.history == before.history
            else
              && after.latest == before.latest[key := r]
              && key in after.history && after.history == before.history[key := after.history[key]]
              && IsNewestPart(after.history[key], if key in before.history then before.history[key] else [], r, cap))
  {
    hide ReportOf, MakeReading, Said, SaysReport, SeenStep, CameraStep, SaysNothing, Scan;
    hide LatestStep, HistoryStep, IsNewestPart;
    ScanOneMore(parse, blocks, b, cap);
    ReportIsSaid(parse, b, "SENSOR_READING", key, at);
    NothingIsSaid(parse, b, "SENSOR_READING");
    ReadingIsSaid(b, key, at);
    ReadingSteps(parse, Scan(parse, blocks, cap), b, cap);
  }

  lemma ReadingSteps(parse: Parse, c: Cache, b: Block, cap: nat)
    ensures var report := ReportOf(parse, b, "SENSOR_READING");
      var latest, history := LatestStep(parse, c.latest, b), HistoryStep(parse, c.latest, c.history, b, cap);
      if report.None? || (report.value.0 in c.latest && c.latest[report.value.0].at > report.value.1)
      then latest == c.latest && history == c.history
      else
        var (key, at) := report.value;
        var r := MakeReading(b, key, at);
        && latest == c.latest[key := r]
        && key in history && history == c.history[key := history[key]]
        && IsNewestPart(history[key], if key in c.history then c.history[key] else [], r, cap)
  {
    hide ReportOf, MakeReading, IsNewestPart, Tail;
    var report := ReportOf(parse, b, "SENSOR_READING");
    if report.Some? {
      var (key, at) := report.value;
      var r := MakeReading(b, key, at);
      ReadingIsSaid(b, key, at);
      TailIsNewestPart(if key in c.history then c.history[key] else [], r, cap);
    }
  }

  lemma TailIsNewestPart(h: seq<Reading>, r: Reading, cap: nat)
    ensures IsNewestPart(Tail(h + [r], cap), h, r, cap)
  {
  }

  /** A camera report that is not older than the camera's state replaces it: with the event it names, and
      the address it announces or else the one the camera had. */
  lemma CameraAfterOneMore(parse: Parse, blocks: seq<Block>, b: Block, cap: nat, key: Key, at: int)
    ensures
      var before, after := Scan(parse, blocks, cap).camera, Scan(parse, blocks + [b], cap).camera;
      && (SaysNothing(parse, b, "CAMERA_EVENT") ==> after == before)
      && (SaysReport(parse, b, "CAMERA_EVENT", key, at) ==>
            if key in before && before[key].at > at then after == before
            else
              && key in after && after == before[key := after[key]]
              && after[key].(url := None) == CameraState(key.sensor, Said(b, "event"), at, None)
              && (forall url :: SaysUrl(b, url) ==> after[key].url == Some(url))
              && ((forall url :: !SaysUrl(b, url)) ==>
                    after[key].url == if key in before then before[key].url else None))
  {
    hide Field, Said, ReportOf, SaysReport, SeenStep, LatestStep, HistoryStep, SaysNothing, AnnouncedUrl, SaysUrl;
    ScanOneMore(parse, blocks, b, cap);
    ReportIsSaid(parse, b, "CAMERA_EVENT", key, at);
    NothingIsSaid(parse, b, "CAMERA_EVENT");
    FieldIsSaid(b, "event");
    UrlIsSaid(b);
  }
}
