/** What is hashed, byte for byte; what a block's line says; and what a fresh ledger starts with. */
module HashInputs {
  import opened Records
  import opened JsonText
  import opened Blocks
  import opened GetBlocks

  /** The number that some bytes stand for, least significant first. */
  function FromBytes(x: string): nat {
    if x == "" then 0 else x[0] as nat + 256 * FromBytes(x[1..])
  }

  ghost predicate SaysFields(v: Json, e: Event) {
    && v.Obj? && |v.members| == 5
    && Find(v.members, "actor") == Some(Str(e.actor)) && Find(v.members, "description") == Some(Str(e.description))
    && Find(v.members, "event_type") == Some(Str(e.eventType))
    && Find(v.members, "location_id") == Some(Str(e.locationId)) && Find(v.members, "metadata") == Some(e.metadata)
  }

  /** Eight bytes of index, the timestamp, a JSON text of the event, the previous hash; nothing before,
      between or behind. */
  ghost predicate LaidOut(x: string, index: nat, timestamp: string, e: Event, prevHash: string) {
    && |x| >= 8 + |timestamp| + |prevHash|
    && (forall j :: 0 <= j < 8 ==> x[j] < 256 as char) && FromBytes(x[..8]) == index
    && x[8..8 + |timestamp|] == timestamp
    && x[|x| - |prevHash|..] == prevHash
    && var text := x[8 + |timestamp|..|x| - |prevHash|];
       Parse(text).Some? && SaysFields(Parse(text).value, e)
  }

  lemma {:induction false} BytesOf(a: nat, n: nat)
    requires a < Power256(n)
    ensures FromBytes(LowBytes(a, n)) == a && forall j :: 0 <= j < n ==> LowBytes(a, n)[j] < 256 as char
  {
    if n > 0 {
      BytesOf(a / 256, n - 1);
      assert LowBytes(a, n)[1..] == LowBytes(a / 256, n - 1);
    }
  }

  lemma EventTextSaysFields(e: Event)
    requires WellFormedEvent(e)
    ensures Parse(EventText(e)) == Some(EventJson(e)) && SaysFields(EventJson(e), e)
  {
    hide Parse, Dump, Find;
    EventJsonWellFormed(e);
    ParseRoundTrip(EventJson(e));
    DistinctKeys();
    var ms := EventJson(e).members;
    FindAt(ms, 0);
    FindAt(ms, 1);
    FindAt(ms, 2);
    FindAt(ms, 3);
    FindAt(ms, 4);
  }

  /** The hash of a block made from these parts is the digest of that layout, and checking a block
      digests the layout of the parts it holds. */
  lemma HashIsOverTheLayout(sha: Sha, index: u64, timestamp: string, e: Event, prevHash: string)
    returns (x: string)
    requires WellFormedEvent(e)
    ensures LaidOut(x, index, timestamp, e, prevHash)
    ensures MakeBlock(sha, index, timestamp, e, prevHash) == Block(index, timestamp, e, prevHash, sha(x))
    ensures forall hash :: HashOf(sha, Block(index, timestamp, e, prevHash, hash)) == sha(x)
  {
    hide Parse, EventText, LowBytes, FromBytes, SaysFields;
    x := Preimage(index, timestamp, e, prevHash);
    var n := 8 + |timestamp|;
    EightBytesHoldU64();
    BytesOf(index, 8);
    EventTextSaysFields(e);
    assert x[..8] == LittleEndian(index) && forall j :: 0 <= j < 8 ==> x[j] == LittleEndian(index)[j];
    assert x[8..n] == timestamp && x[|x| - |prevHash|..] == prevHash;
    assert x[n..|x| - |prevHash|] == EventText(e);
  }

  // ----- a block's line -----------------------------------------------------------------------------------

  /** The five members of a block's object. */
  ghost predicate SaysBlock(v: Json, b: Block) {
    && v.Obj? && |v.members| == 5
    && Find(v.members, "event").Some? && SaysFields(Find(v.members, "event").value, b.event)
    && Find(v.members, "hash") == Some(Str(b.hash)) && Find(v.members, "prev_hash") == Some(Str(b.prevHash))
    && Find(v.members, "timestamp") == Some(Str(b.timestamp))
    && SaysNumber(Find(v.members, "index"), b.index)
  }

  /** A number written in digits. */
  ghost predicate SaysNumber(v: Option<Json>, n: nat) {
    v.Some? && v.value.Num? && InDigits(v.value.lexeme) && v.value.lexeme != "" && Positional(v.value.lexeme) == n
  }

  /** What is written for a block names every part of it. */
  lemma BlockTextSaysBlock(b: Block)
    requires WellFormedEvent(b.event)
    ensures Parse(BlockText(b)).Some? && SaysBlock(Parse(BlockText(b)).value, b)
  {
    hide Parse, Dump, Find, BlockJson, SaysBlock, WellFormed;
    BlockJsonWellFormed(b);
    ParseRoundTrip(BlockJson(b));
    BlockJsonSaysBlock(b);
  }

  lemma BlockJsonSaysBlock(b: Block)
    requires WellFormedEvent(b.event)
    ensures SaysBlock(BlockJson(b), b)
  {
    hide Parse, Dump, Find, EventJson, Decimal, SaysFields, WellFormed, InDigits, Positional, EventText;
    EventTextSaysFields(b.event);
    DecimalSays(b.index);
    DistinctKeys();
    var ms := BlockJson(b).members;
    FindAt(ms, 0);
    FindAt(ms, 1);
    FindAt(ms, 2);
    FindAt(ms, 3);
    FindAt(ms, 4);
  }

  // ----- genesis --------------------------------------------------------------------------------------------

  /** A fresh ledger starts with block 0, whose event is always the same and whose previous hash is
      sixty-four zeros. */
  lemma GenesisSays(sha: Sha, timestamp: string) returns (x: string)
    ensures var g := Genesis(sha, timestamp);
      && g.index == 0 && g.timestamp == timestamp
      && g.event.eventType == "GENESIS" && g.event.locationId == "system" && g.event.actor == "system"
      && g.event.description == "Genesis block" && g.event.metadata == Obj([])
      && |g.prevHash| == 64 && (forall i :: 0 <= i < 64 ==> g.prevHash[i] == '0')
      && LaidOut(x, 0, timestamp, g.event, g.prevHash) && g.hash == sha(x)
  {
    hide MakeBlock, LaidOut;
    assert WellFormed(Obj([]));
    x := HashIsOverTheLayout(sha, 0, timestamp, GENESIS_EVENT, ZERO_HASH);
  }
}
