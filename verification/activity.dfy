/** The backend's incremental view of the ledger: last seen, latest reading, bounded history and
    camera state per device, kept up to date by refreshes that overlap and re-read. */
module Activity {
  import opened Records
  import opened Blocks

  /** Parsing a block's timestamp into an instant. */
  type Parse = string -> Option<int>

  /** (device_id, sensor_id) */
  datatype Key = Key(device: string, sensor: string)

  /** JSON null stands for an absent field, as None does in the source. */
  datatype Reading = Reading(sensor: string, sensorType: Json, value: Json, unit: Json, seqno: Json, at: int)

  datatype CameraState = CameraState(sensor: string, event: Json, at: int, url: Option<string>)

  datatype Cache = Cache(
    lastSeen: map<string, int>,
    latest: map<Key, Reading>,
    history: map<Key, seq<Reading>>,
    camera: map<Key, CameraState>)

  const EMPTY_CACHE := Cache(map[], map[], map[], map[])

  // ----- what a block says -----------------------------------------------------------------------

  function Field(ms: seq<Member>, key: string): Json {
    match Find(ms, key)
    case Some(v) => v
    case None => Null
  }

  /** The instant of a block that is considered at all: it has an actor and a readable timestamp. */
  function Instant(parse: Parse, b: Block): Option<int> {
    if b.event.actor == "" then None else parse(b.timestamp)
  }

  /** The sensor a block's metadata names, if it is an object that names one. */
  function SensorOf(b: Block): Option<string> {
    match b.event.metadata
    case Obj(ms) =>
      (match Field(ms, "sensor_id")
       case Str(s) => if s != "" then Some(s) else None
       case _ => None)
    case _ => None
  }

  /** The block as a report of one kind about one sensor at one instant. */
  function ReportOf(parse: Parse, b: Block, kind: string): Option<(Key, int)> {
    var at, sensor := Instant(parse, b), SensorOf(b);
    if at.Some? && sensor.Some? && b.event.eventType == kind
    then Some((Key(b.event.actor, sensor.value), at.value))
    else None
  }

  function MakeReading(b: Block, key: Key, at: int): Reading {
    var ms := if b.event.metadata.Obj? then b.event.metadata.members else [];
    Reading(key.sensor, Field(ms, "sensor_type"), Field(ms, "value"), Field(ms, "unit"), Field(ms, "seq"), at)
  }

  function ReadingOf(parse: Parse, b: Block): Option<(Key, Reading)> {
    match ReportOf(parse, b, "SENSOR_READING")
    case Some((key, at)) => Some((key, MakeReading(b, key, at)))
    case None => None
  }

  /** The stream address a camera announces, if any. */
  function AnnouncedUrl(b: Block): Option<string> {
    match b.event.metadata
    case Obj(ms) =>
      (match Field(ms, "url")
       case Str(s) => if s != "" then Some(s) else None
       case _ => None)
    case _ => None
  }

  // ----- the same, told from the block's own fields ----------------------------------------------

  /** A member of the block's metadata; null if there is none of that name, or no object to hold one. */
  ghost function Said(b: Block, name: string): Json {
    if b.event.metadata.Obj? && Find(b.event.metadata.members, name).Some?
    then Find(b.event.metadata.members, name).value
    else Null
  }

  /** An actor, a readable timestamp, the kind of event, and a sensor named in the metadata. */
  ghost predicate SaysReport(parse: Parse, b: Block, kind: string, key: Key, at: int) {
    && b.event.actor == key.device && key.device != ""
    && parse(b.timestamp) == Some(at)
    && b.event.eventType == kind
    && Said(b, "sensor_id") == Str(key.sensor) && key.sensor != ""
  }

  ghost predicate SaysNothing(parse: Parse, b: Block, kind: string) {
    forall key, at :: !SaysReport(parse, b, kind, key, at)
  }

  lemma ReportIsSaid(parse: Parse, b: Block, kind: string, key: Key, at: int)
    ensures ReportOf(parse, b, kind) == Some((key, at)) <==> SaysReport(parse, b, kind, key, at)
  {
    hide Find;
  }

  lemma NothingIsSaid(parse: Parse, b: Block, kind: string)
    ensures ReportOf(parse, b, kind).None? <==> SaysNothing(parse, b, kind)
  {
    hide ReportOf, SaysReport;
    forall key, at ensures ReportOf(parse, b, kind) == Some((key, at)) <==> SaysReport(parse, b, kind, key, at) {
      ReportIsSaid(parse, b, kind, key, at);
    }
    if ReportOf(parse, b, kind).Some? {
      var (key, at) := ReportOf(parse, b, kind).value;
      assert SaysReport(parse, b, kind, key, at);
    }
  }

  lemma FieldIsSaid(b: Block, name: string)
    ensures Field(if b.event.metadata.Obj? then b.event.metadata.members else [], name) == Said(b, name)
  {
  }

  lemma ReadingIsSaid(b: Block, key: Key, at: int)
    ensures MakeReading(b, key, at)
         == Reading(key.sensor, Said(b, "sensor_type"), Said(b, "value"), Said(b, "unit"), Said(b, "seq"), at)
  {
    hide Field, Said;
    FieldIsSaid(b, "sensor_type");
    FieldIsSaid(b, "value");
    FieldIsSaid(b, "unit");
    FieldIsSaid(b, "seq");
  }

  /** The address a camera report announces under "url", if it is a text and not empty. */
  ghost predicate SaysUrl(b: Block, url: string) {
    Said(b, "url") == Str(url) && url != ""
  }

  lemma UrlIsSaid(b: Block)
    ensures forall url :: AnnouncedUrl(b) == Some(url) <==> SaysUrl(b, url)
    ensures AnnouncedUrl(b).Some? ==> SaysUrl(b, AnnouncedUrl(b).value)
  {
    hide Find;
  }

  lemma UrlsAreSaid(blocks: seq<Block>)
    ensures forall i, url :: 0 <= i < |blocks| ==> (AnnouncedUrl(blocks[i]) == Some(url) <==> SaysUrl(blocks[i], url))
    ensures forall i :: 0 <= i < |blocks| && AnnouncedUrl(blocks[i]).Some? ==>
      SaysUrl(blocks[i], AnnouncedUrl(blocks[i]).value)
  {
    hide AnnouncedUrl, SaysUrl;
    forall i | 0 <= i < |blocks|
      ensures forall url :: AnnouncedUrl(blocks[i]) == Some(url) <==> SaysUrl(blocks[i], url)
      ensures AnnouncedUrl(blocks[i]).Some? ==> SaysUrl(blocks[i], AnnouncedUrl(blocks[i]).value)
    {
      UrlIsSaid(blocks[i]);
    }
  }

  // ----- consuming one block ------------------------------------------------------------------------

  /** max, not assign. */
  function SeenStep(parse: Parse, m: map<string, int>, b: Block): map<string, int> {
    match Instant(parse, b)
    case None => m
    case Some(at) =>
      var a := b.event.actor;
      if a !in m || at > m[a] then m[a := at] else m
  }

  /** The rule readings and cameras share: only a strictly newer one keeps its place. */
  predicate Accepts(previous: Option<int>, at: int) {
    previous.None? || previous.value <= at
  }

  function LatestAt(m: map<Key, Reading>, key: Key): Option<int> {
    if key in m then Some(m[key].at) else None
  }

  function CameraAt(m: map<Key, CameraState>, key: Key): Option<int> {
    if key in m then Some(m[key].at) else None
  }

  function LatestStep(parse: Parse, m: map<Key, Reading>, b: Block): map<Key, Reading> {
    match ReadingOf(parse, b)
    case Some((key, r)) => if Accepts(LatestAt(m, key), r.at) then m[key := r] else m
    case None => m
  }

  /** The newest n: what deque(maxlen=n) keeps of a sequence, and what s[-n:] and slice(-n) keep for n >= 1. */
  function Tail<T>(s: seq<T>, n: nat): seq<T> {
    if |s| <= n then s else s[|s| - n..]
  }

  lemma TailOneMore<T>(s: seq<T>, x: T, n: nat)
    ensures Tail(Tail(s, n) + [x], n) == Tail(s + [x], n)
  {
  }

  function HistoryAt(m: map<Key, seq<Reading>>, key: Key): seq<Reading> {
    if key in m then m[key] else []
  }

  function HistoryStep(parse: Parse, latest: map<Key, Reading>, m: map<Key, seq<Reading>>, b: Block,
                       cap: nat): map<Key, seq<Reading>> {
    match ReadingOf(parse, b)
    case Some((key, r)) =>
      if Accepts(LatestAt(latest, key), r.at) then m[key := Tail(HistoryAt(m, key) + [r], cap)] else m
    case None => m
  }

  /** The stream address is carried forward from the last accepted announcement. */
  function CameraStep(parse: Parse, m: map<Key, CameraState>, b: Block): map<Key, CameraState> {
    match ReportOf(parse, b, "CAMERA_EVENT")
    case None => m
    case Some((key, at)) =>
      if !Accepts(CameraAt(m, key), at) then m
      else
        var ms := if b.event.metadata.Obj? then b.event.metadata.members else [];
        var url := if AnnouncedUrl(b).Some? then AnnouncedUrl(b) else if key in m then m[key].url else None;
        m[key := CameraState(key.sensor, Field(ms, "event"), at, url)]
  }

  function ConsumeBlock(parse: Parse, c: Cache, b: Block, cap: nat): Cache {
    Cache(SeenStep(parse, c.lastSeen, b),
          LatestStep(parse, c.latest, b),
          HistoryStep(parse, c.latest, c.history, b, cap),
          CameraStep(parse, c.camera, b))
  }

  function Consume(parse: Parse, c: Cache, blocks: seq<Block>, cap: nat): Cache {
    if blocks == [] then c
    else ConsumeBlock(parse, Consume(parse, c, blocks[..|blocks| - 1], cap), Last(blocks), cap)
  }

  /** A single scan from nothing. */
  ghost function Scan(parse: Parse, blocks: seq<Block>, cap: nat): Cache {
    Consume(parse, EMPTY_CACHE, blocks, cap)
  }

  // ----- GET /blocks ------------------------------------------------------------------------------

  /** What a refresh gets back. */
  datatype Response =
    | Blocks(blocks: seq<Block>, chainLength: Option<nat>)
    | BadRequest      // 400
    | Unavailable     // any other status, a network failure or an unreadable body

  /** A range parameter: absent, or a text. */
  function ParseIndex(value: Option<string>, fallback: u64): Option<u64> {
    match value
    case None => Some(fallback)
    case Some(t) =>
      if t == "" || exists i :: 0 <= i < |t| && !('0' <= t[i] <= '9') then None
      else if DecimalValue(t) < U64 then Some(DecimalValue(t)) else None
  }

  /** The handler: `to` is clamped to the end of the chain, and an empty range is the caller's fault. */
  function ServeRange(chain: seq<Block>, from: Option<string>, to: Option<string>): Response {
    var f, t := ParseIndex(from, 0), ParseIndex(to, U64 - 1);
    if f.None? || t.None? || chain == [] then BadRequest
    else
      var last := |chain| - 1;
      var end := if t.value <= last then t.value else last;
      if f.value > end then BadRequest else Blocks(chain[f.value..end + 1], Some(|chain|))
  }

  /** The first index a refresh asks for: the last block it has consumed, again. */
  function RequestFrom(nextIndex: nat): nat {
    if nextIndex == 0 then 0 else nextIndex - 1
  }

  lemma DecimalParses(n: u64)
    ensures ParseIndex(Some(Decimal(n)), 0) == Some(n)
  {
    hide Decimal, DecimalValue;
    DecimalDigits(n);
    DecimalRoundTrip(n);
  }

  /** Asking for one block before the cursor is never out of range on a chain that reaches the cursor;
      asking for the cursor itself would be, on every poll that finds nothing new. */
  lemma RefreshIsNeverRefused(chain: seq<Block>, nextIndex: nat)
    requires 0 < |chain| < U64 && nextIndex <= |chain|
    ensures ServeRange(chain, Some(Decimal(RequestFrom(nextIndex))), None)
         == Blocks(chain[RequestFrom(nextIndex)..], Some(|chain|))
    ensures ServeRange(chain, Some(Decimal(nextIndex)), None).BadRequest? <==> nextIndex == |chain|
  {
    hide Decimal, DecimalValue;
    DecimalParses(RequestFrom(nextIndex));
    DecimalParses(nextIndex);
    assert chain[RequestFrom(nextIndex)..|chain| - 1 + 1] == chain[RequestFrom(nextIndex)..];
  }

  // ----- the cache object -----------------------------------------------------------------------------

  class LedgerActivity {
    var lastSeen: map<string, int>
    var latest: map<Key, Reading>
    var history: map<Key, seq<Reading>>
    var camera: map<Key, CameraState>
    var nextIndex: nat
    var reachable: bool
    const historyLimit: nat

    ghost function View(): Cache
      reads this
    {
      Cache(lastSeen, latest, history, camera)
    }

    constructor (historyLimit: nat)
      ensures View() == EMPTY_CACHE && nextIndex == 0 && reachable && this.historyLimit == historyLimit
    {
      lastSeen, latest, history, camera := map[], map[], map[], map[];
      nextIndex, reachable := 0, true;
      this.historyLimit := historyLimit;
    }

    /** Everything after the request: a failure keeps the cache, a 400 rewinds the cursor, a payload
        is consumed and the cursor follows the reported chain length, not the blocks received. */
    method Receive(parse: Parse, response: Response)
      modifies this
      ensures reachable == response.Blocks?
      ensures response.Blocks? ==> View() == Consume(parse, old(View()), response.blocks, historyLimit)
      ensures !response.Blocks? ==> View() == old(View())
      ensures nextIndex == match response
        case Blocks(_, Some(n)) => n
        case BadRequest => 0
        case _ => old(nextIndex)
    {
      match response
      case BadRequest =>
        reachable := false;
        nextIndex := 0;
      case Unavailable => reachable := false;
      case Blocks(blocks, chainLength) =>
        reachable := true;
        ConsumeBlocks(parse, blocks);
        if chainLength.Some? {
          nextIndex := chainLength.value;
        }
    }

    method ConsumeBlocks(parse: Parse, blocks: seq<Block>)
      modifies `lastSeen, `latest, `history, `camera
      ensures View() == Consume(parse, old(View()), blocks, historyLimit)
    {
      hide ReadingOf, ReportOf, Instant, AnnouncedUrl;
      assert blocks[..0] == [];
      for i := 0 to |blocks|
        invariant View() == Consume(parse, old(View()), blocks[..i], historyLimit)
      {
        assert blocks[..i + 1][..i] == blocks[..i] && Last(blocks[..i + 1]) == blocks[i];
        var b := blocks[i];
        var at := Instant(parse, b);
        if at.Some? {
          var a := b.event.actor;
          if a !in lastSeen || at.value > lastSeen[a] {
            lastSeen := lastSeen[a := at.value];
          }
        }
        ConsumeReading(parse, b);
      }
      assert blocks[..|blocks|] == blocks;
    }

    method ConsumeReading(parse: Parse, b: Block)
      modifies `latest, `history, `camera
      ensures latest == LatestStep(parse, old(latest), b)
      ensures history == HistoryStep(parse, old(latest), old(history), b, historyLimit)
      ensures camera == CameraStep(parse, old(camera), b)
    {
      if b.event.eventType == "CAMERA_EVENT" {
        NotBothKinds(parse, b);
        ConsumeCameraEvent(parse, b);
        return;
      }
      var report := ReportOf(parse, b, "SENSOR_READING");
      if report.None? {
        return;
      }
      var key, at := report.value.0, report.value.1;
      if key in latest && latest[key].at > at {
        return;
      }
      var reading := MakeReading(b, key, at);
      latest := latest[key := reading];
      history := history[key := Tail((if key in history then history[key] else []) + [reading], historyLimit)];
    }

    method ConsumeCameraEvent(parse: Parse, b: Block)
      modifies `camera
      ensures camera == CameraStep(parse, old(camera), b)
    {
      var report := ReportOf(parse, b, "CAMERA_EVENT");
      if report.None? {
        return;
      }
      var key, at := report.value.0, report.value.1;
      if key in camera && camera[key].at > at {
        return;
      }
      var ms := if b.event.metadata.Obj? then b.event.metadata.members else [];
      var url := AnnouncedUrl(b);
      if url.None? && key in camera {
        url := camera[key].url;
      }
      camera := camera[key := CameraState(key.sensor, Field(ms, "event"), at, url)];
    }
  }

  lemma NotBothKinds(parse: Parse, b: Block)
    requires b.event.eventType == "CAMERA_EVENT"
    ensures ReportOf(parse, b, "SENSOR_READING").None?
  {
    assert "CAMERA_EVENT"[0] == 'C' && "SENSOR_READING"[0] == 'S';
  }
}
