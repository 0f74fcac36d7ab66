/** Blocks and what is hashed: the JSON form of events and blocks, the preimage layout of
    compute_hash, and how a block is made. SHA-256 is any function from texts to texts. */
module Blocks {
  import opened Records
  import opened JsonText

  type Sha = string -> string

  /** Hex of a 32-byte digest. */
  ghost predicate HexDigest(sha: Sha) {
    forall x :: |sha(x)| == 64
  }

  ghost predicate Collision(sha: Sha, x: string, y: string) {
    x != y && sha(x) == sha(y)
  }

  // ----- JSON form ----------------------------------------------------------------------------

  /** NLOHMANN_DEFINE_TYPE for EventPayload; the object keeps its keys sorted. */
  function EventJson(e: Event): Json {
    Obj([Member("actor", Str(e.actor)),
         Member("description", Str(e.description)),
         Member("event_type", Str(e.eventType)),
         Member("location_id", Str(e.locationId)),
         Member("metadata", e.metadata)])
  }

  function BlockJson(b: Block): Json {
    Obj([Member("event", EventJson(b.event)),
         Member("hash", Str(b.hash)),
         Member("index", Num(Decimal(b.index))),
         Member("prev_hash", Str(b.prevHash)),
         Member("timestamp", Str(b.timestamp))])
  }

  function Decimal(n: nat): string {
    if n < 10 then [DigitChar(n)] else Decimal(n / 10) + [DigitChar(n % 10)]
  }

  function DigitChar(d: nat): char
    requires d < 10
  {
    "0123456789"[d]
  }

  function Find(ms: seq<Member>, key: string): Option<Json> {
    if ms == [] then None
    else if ms[0].key == key then Some(ms[0].value)
    else Find(ms[1..], key)
  }

  function AsString(v: Option<Json>): Option<string> {
    match v
    case Some(Str(s)) => Some(s)
    case _ => None
  }

  function DecimalValue(t: string): nat {
    if t == "" then 0
    else DecimalValue(t[..|t| - 1]) * 10 + DigitValue(Last(t))
  }

  function DigitValue(c: char): nat {
    if IsDigit(c) then (c - '0') as nat else 0
  }

  /** get<std::uint64_t>(): an unsigned decimal that fits. */
  function AsIndex(v: Option<Json>): Option<u64> {
    match v
    case Some(Num(t)) =>
      if LeadingDigits(t) == |t| && DecimalValue(t) < U64 then Some(DecimalValue(t)) else None
    case _ => None
  }

  /** get<EventPayload>(): every field has to be there with its type; other keys are ignored. */
  function EventFromJson(v: Json): Option<Event> {
    match v
    case Obj(ms) =>
      var actor, description, eventType, locationId :=
        AsString(Find(ms, "actor")), AsString(Find(ms, "description")),
        AsString(Find(ms, "event_type")), AsString(Find(ms, "location_id"));
      var metadata := Find(ms, "metadata");
      if actor.Some? && description.Some? && eventType.Some? && locationId.Some? && metadata.Some?
      then Some(Event(eventType.value, locationId.value, actor.value, description.value, metadata.value))
      else None
    case _ => None
  }

  function BlockFromJson(v: Json): Option<Block> {
    match v
    case Obj(ms) =>
      var eventJson := Find(ms, "event");
      var event := if eventJson.Some? then EventFromJson(eventJson.value) else None;
      var index := AsIndex(Find(ms, "index"));
      var timestamp, prevHash, hash :=
        AsString(Find(ms, "timestamp")), AsString(Find(ms, "prev_hash")), AsString(Find(ms, "hash"));
      if event.Some? && index.Some? && timestamp.Some? && prevHash.Some? && hash.Some?
      then Some(Block(index.value, timestamp.value, event.value, prevHash.value, hash.value))
      else None
    case _ => None
  }

  /** Metadata is a JSON value; the other fields are arbitrary strings. */
  predicate WellFormedEvent(e: Event) {
    WellFormed(e.metadata)
  }

  function EventText(e: Event): string {
    Dump(EventJson(e))
  }

  function BlockText(b: Block): string {
    Dump(BlockJson(b))
  }

  /** One line of the ledger log, without its newline. */
  function ReadBlock(text: string): Option<Block> {
    match Parse(text)
    case Some(v) => BlockFromJson(v)
    case None => None
  }

  lemma KeysInOrder()
    ensures Before("actor", "description") && Before("description", "event_type")
    ensures Before("event_type", "location_id") && Before("location_id", "metadata")
    ensures Before("event", "hash") && Before("hash", "index")
    ensures Before("index", "prev_hash") && Before("prev_hash", "timestamp")
  {
    assert "actor"[0] == 'a' && "description"[0] == 'd' && "event_type"[0] == 'e' && "location_id"[0] == 'l';
    assert "metadata"[0] == 'm' && "event"[0] == 'e' && "hash"[0] == 'h' && "index"[0] == 'i';
    assert "prev_hash"[0] == 'p' && "timestamp"[0] == 't';
  }

  lemma {:induction false} DecimalDigits(n: nat)
    ensures Decimal(n) != "" && (Decimal(n)[0] == '0' ==> n == 0)
    ensures forall i :: 0 <= i < |Decimal(n)| ==> IsDigit(Decimal(n)[i])
    ensures n == 0 ==> Decimal(n) == "0"
  {
    if n >= 10 {
      DecimalDigits(n / 10);
    }
  }

  lemma {:induction false} AllDigits(t: string)
    requires forall i :: 0 <= i < |t| ==> IsDigit(t[i])
    ensures LeadingDigits(t) == |t|
  {
    if t != "" {
      AllDigits(t[1..]);
    }
  }

  lemma {:induction false} DecimalRoundTrip(n: nat)
    ensures LeadingDigits(Decimal(n)) == |Decimal(n)| && DecimalValue(Decimal(n)) == n
  {
    hide LeadingDigits;
    DecimalDigits(n);
    AllDigits(Decimal(n));
    if n >= 10 {
      DecimalRoundTrip(n / 10);
      assert Decimal(n)[..|Decimal(n)| - 1] == Decimal(n / 10);
    } else {
      assert Decimal(n)[..0] == "";
    }
  }

  lemma DecimalIsNumber(n: nat)
    ensures NumberText(Decimal(n))
  {
    DecimalDigits(n);
    AllDigits(Decimal(n));
    assert Decimal(n)[|Decimal(n)|..] == "";
  }

  lemma EventJsonWellFormed(e: Event)
    requires WellFormedEvent(e)
    ensures WellFormed(EventJson(e))
  {
    KeysInOrder();
    var ms := EventJson(e).members;
    assert SortedKeys(ms[4..]) && SortedKeys(ms[3..]) && SortedKeys(ms[2..]) && SortedKeys(ms[1..]);
  }

  lemma BlockJsonWellFormed(b: Block)
    requires WellFormedEvent(b.event)
    ensures WellFormed(BlockJson(b))
  {
    hide EventJson, NumberText, Decimal;
    KeysInOrder();
    EventJsonWellFormed(b.event);
    DecimalIsNumber(b.index);
    var ms := BlockJson(b).members;
    assert SortedKeys(ms[4..]) && SortedKeys(ms[3..]) && SortedKeys(ms[2..]) && SortedKeys(ms[1..]);
  }

  lemma {:induction false} FindAt(ms: seq<Member>, i: nat)
    requires i < |ms| && forall j :: 0 <= j < i ==> ms[j].key != ms[i].key
    ensures Find(ms, ms[i].key) == Some(ms[i].value)
  {
    if i > 0 {
      FindAt(ms[1..], i - 1);
    }
  }

  lemma {:induction false} NotFound(ms: seq<Member>, key: string)
    requires forall i :: 0 <= i < |ms| ==> ms[i].key != key
    ensures Find(ms, key) == None
  {
    if ms != [] {
      NotFound(ms[1..], key);
    }
  }

  lemma DistinctKeys()
    ensures "actor" != "description" && "actor" != "event_type" && "actor" != "location_id" && "actor" != "metadata"
    ensures "description" != "event_type" && "description" != "location_id" && "description" != "metadata"
    ensures "event_type" != "location_id" && "event_type" != "metadata" && "location_id" != "metadata"
    ensures "event" != "hash" && "event" != "index" && "event" != "prev_hash" && "event" != "timestamp"
    ensures "hash" != "index" && "hash" != "prev_hash" && "hash" != "timestamp"
    ensures "index" != "prev_hash" && "index" != "timestamp" && "prev_hash" != "timestamp"
  {
    assert |"actor"| == 5 && |"description"| == 11 && |"event_type"| == 10 && |"metadata"| == 8;
    assert "location_id"[0] == 'l' && "description"[0] == 'd';
    assert |"event"| == 5 && |"hash"| == 4 && "index"[0] == 'i' && "event"[0] == 'e';
    assert |"prev_hash"| == 9 && |"timestamp"| == 9 && "prev_hash"[0] == 'p' && "timestamp"[0] == 't';
  }

  lemma EventJsonRoundTrip(e: Event)
    ensures EventFromJson(EventJson(e)) == Some(e)
  {
    hide Find;
    DistinctKeys();
    var ms := EventJson(e).members;
    FindAt(ms, 0);
    FindAt(ms, 1);
    FindAt(ms, 2);
    FindAt(ms, 3);
    FindAt(ms, 4);
  }

  lemma BlockJsonRoundTrip(b: Block)
    ensures BlockFromJson(BlockJson(b)) == Some(b)
  {
    hide Find, EventFromJson, EventJson;
    DistinctKeys();
    EventJsonRoundTrip(b.event);
    DecimalRoundTrip(b.index);
    var ms := BlockJson(b).members;
    FindAt(ms, 0);
    FindAt(ms, 1);
    FindAt(ms, 2);
    FindAt(ms, 3);
    FindAt(ms, 4);
  }

  /** A written line reads back as the block it was written from. */
  lemma BlockRoundTrip(b: Block)
    requires WellFormedEvent(b.event)
    ensures ReadBlock(BlockText(b)) == Some(b)
  {
    hide BlockJson, BlockFromJson, Parse, Dump;
    BlockJsonWellFormed(b);
    ParseRoundTrip(BlockJson(b));
    BlockJsonRoundTrip(b);
  }

  lemma BlockJsonIsObject(b: Block)
    ensures BlockJson(b).Obj? && BlockJson(b).members != []
    ensures EventJson(b.event).Obj? && EventJson(b.event).members != []
  {
  }

  /** A line cut off anywhere before its end does not read back at all. */
  lemma CutBlockDoesNotRead(b: Block, n: nat)
    requires WellFormedEvent(b.event) && n < |BlockText(b)|
    ensures ReadBlock(BlockText(b)[..n]).None?
  {
    hide BlockJson, Parse, Dump;
    BlockJsonIsObject(b);
    BlockJsonWellFormed(b);
    CutObjectDoesNotParse(BlockJson(b), n);
  }

  // ----- the hash preimage ----------------------------------------------------------------------

  /** The n low bytes of a number, least significant first. */
  function LowBytes(a: nat, n: nat): (bytes: string)
    ensures |bytes| == n
    decreases n
  {
    if n == 0 then "" else [(a % 256) as char] + LowBytes(a / 256, n - 1)
  }

  function LittleEndian(index: u64): (bytes: string)
    ensures |bytes| == 8
  {
    LowBytes(index, 8)
  }

  function Power256(i: nat): (p: nat)
    ensures p >= 1
  {
    if i == 0 then 1 else 256 * Power256(i - 1)
  }

  /** Byte i is what shifting right by 8i bits and masking gives. */
  lemma {:induction false} LowBytesAt(a: nat, n: nat, i: nat)
    requires i < n
    ensures LowBytes(a, n)[i] == (a / Power256(i) % 256) as char
  {
    if i > 0 {
      LowBytesAt(a / 256, n - 1, i - 1);
      DivideTwice(a, Power256(i - 1));
    }
  }

  method WriteIndex(index: u64) returns (b: array<char>)
    ensures fresh(b) && b[..] == LittleEndian(index)
  {
    b := new char[8];
    for i := 0 to 8
      invariant forall j :: 0 <= j < i ==> b[j] == LittleEndian(index)[j]
    {
      LowBytesAt(index, 8, i);
      b[i] := (index / Power256(i) % 256) as char;
    }
  }

  function Preimage(index: u64, timestamp: string, event: Event, prevHash: string): string {
    LittleEndian(index) + timestamp + EventText(event) + prevHash
  }

  function ComputeHash(sha: Sha, index: u64, timestamp: string, event: Event, prevHash: string): string {
    sha(Preimage(index, timestamp, event, prevHash))
  }

  function HashOf(sha: Sha, b: Block): string {
    ComputeHash(sha, b.index, b.timestamp, b.event, b.prevHash)
  }

  function MakeBlock(sha: Sha, index: u64, timestamp: string, event: Event, prevHash: string): Block {
    Block(index, timestamp, event, prevHash, ComputeHash(sha, index, timestamp, event, prevHash))
  }

  function Zeros(n: nat): (z: string)
    ensures |z| == n && forall i :: 0 <= i < n ==> z[i] == '0'
  {
    if n == 0 then "" else "0" + Zeros(n - 1)
  }

  const ZERO_HASH: string := Zeros(64)

  const GENESIS_EVENT := Event("GENESIS", "system", "system", "Genesis block", Obj([]))

  function Genesis(sha: Sha, timestamp: string): Block {
    MakeBlock(sha, 0, timestamp, GENESIS_EVENT, ZERO_HASH)
  }

  lemma {:induction false} LowBytesInjective(a: nat, b: nat, n: nat)
    requires a < Power256(n) && b < Power256(n) && LowBytes(a, n) == LowBytes(b, n)
    ensures a == b
  {
    if n > 0 {
      assert LowBytes(a, n)[0] == LowBytes(b, n)[0];
      assert LowBytes(a, n)[1..] == LowBytes(a / 256, n - 1) && LowBytes(b, n)[1..] == LowBytes(b / 256, n - 1);
      LowBytesInjective(a / 256, b / 256, n - 1);
    }
  }

  lemma DivideTwice(a: nat, p: nat)
    requires p >= 1
    ensures a / 256 / p == a / (256 * p)
  {
    var q := a / (256 * p);
    var r := a % (256 * p);
    assert a == 256 * p * q + r;
    assert a / 256 == p * q + r / 256 by {
      assert a == 256 * (p * q) + r;
    }
    assert r / 256 < p;
    DivideExactly(p, q, r / 256);
  }

  lemma DivideExactly(p: int, q: int, r: int)
    requires p >= 1 && 0 <= r < p
    ensures (p * q + r) / p == q
  {
    var d, m := (p * q + r) / p, (p * q + r) % p;
    assert p * d + m == p * q + r;
    var k := d - q;
    assert p * k == r - m by { assert p * k == p * d - p * q; }
    assert k >= 1 ==> p * k >= p;
    assert k <= -1 ==> p * k <= -p;
  }

  lemma EightBytesHoldU64()
    ensures Power256(8) == U64
  {
    assert Power256(4) == 0x1_0000_0000;
    assert Power256(8) == 256 * (256 * (256 * (256 * Power256(4))));
  }

  /** With timestamps of equal length, equal preimages have equal parts, whatever the lengths of
      the previous hashes: an event's text is never a proper prefix of another's. */
  lemma PreimageInjective(i: u64, t: string, e: Event, p: string, i': u64, t': string, e': Event, p': string)
    requires WellFormedEvent(e) && WellFormedEvent(e') && |t| == |t'|
    requires Preimage(i, t, e, p) == Preimage(i', t', e', p')
    ensures i == i' && t == t' && e == e' && p == p'
  {
    hide EventJson, EventFromJson, Dump, LowBytes;
    var x, y := Preimage(i, t, e, p), Preimage(i', t', e', p');
    assert x[..8] == LittleEndian(i) && y[..8] == LittleEndian(i');
    assert x[8..8 + |t|] == t && y[8..8 + |t|] == t';
    assert x[8 + |t|..] == EventText(e) + p && y[8 + |t|..] == EventText(e') + p';
    EightBytesHoldU64();
    LowBytesInjective(i, i', 8);
    EventJsonWellFormed(e);
    EventJsonWellFormed(e');
    EventJsonIsObject(e);
    EventJsonIsObject(e');
    DumpIsUnambiguous(EventJson(e), p, EventJson(e'), p');
    EventJsonRoundTrip(e);
    EventJsonRoundTrip(e');
  }

  lemma EventJsonIsObject(e: Event)
    ensures EventJson(e).Obj?
  {
  }
}
