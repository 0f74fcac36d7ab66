/** What the frames of the live feed say, and what one of them does to the dashboard, told from the members
    of their JSON objects. */
module FrameMeaning {
  import opened Records
  import opened JsonText
  import opened Blocks
  import opened GetBlocks
  import opened HashInputs
  import opened FeedOrder
  import opened BlockStream

  /** Following members by name from an object to a value. */
  function At(v: Json, path: seq<string>): Option<Json>
    decreases |path|
  {
    if path == [] then Some(v)
    else if v.Obj? && Find(v.members, path[0]).Some? then At(Find(v.members, path[0]).value, path[1..])
    else None
  }

  lemma AtProp(v: Json, path: seq<string>)
    requires path != []
    ensures At(v, path) == match Prop(Some(v), path[0]) case Some(w) => At(w, path[1..]) case None => None
  {
  }

  lemma AtNothing(v: Json)
    ensures At(v, []) == Some(v)
  {
  }

  // ----- upstream ------------------------------------------------------------------------------------------

  /** On the wire, a lag notice says its type and how many blocks were lost, and a block says what its line
      in the log says. */
  lemma FrameTextSays(f: Frame)
    requires f.BlockFrame? ==> WellFormedEvent(f.block.event)
    ensures Parse(BlockFeeds.FrameText(f)).Some?
    ensures var v := Parse(BlockFeeds.FrameText(f)).value;
      match f
      case LagFrame(n) =>
        v.Obj? && |v.members| == 2 && At(v, ["type"]) == Some(Str("lagged")) && SaysNumber(At(v, ["dropped"]), n)
      case BlockFrame(b) => SaysBlock(v, b)
  {
    hide Parse, Dump, BlockText, At, SaysNumber, SaysBlock, BlockFeeds.LagJson;
    match f
    case LagFrame(n) =>
      BlockFeeds.LagJsonWellFormed(n);
      ParseRoundTrip(BlockFeeds.LagJson(n));
      LagJsonSays(n);
    case BlockFrame(b) => BlockTextSaysBlock(b);
  }

  lemma LagJsonSays(n: nat)
    ensures var v := BlockFeeds.LagJson(n);
      v.Obj? && |v.members| == 2 && At(v, ["type"]) == Some(Str("lagged")) && SaysNumber(At(v, ["dropped"]), n)
  {
    hide Find, Decimal, InDigits, Positional, WellFormed;
    BlockFeeds.LagJsonWellFormed(n);
    DecimalSays(n);
  }

  /** Digits, with or without a sign. */
  predicate IsInteger(t: string) {
    var digits := if t != "" && t[0] == '-' then t[1..] else t;
    digits != "" && InDigits(digits)
  }

  /** The number a frame gives for its losses: an integer in digits, with or without a sign; anything else
      that is not a boolean counts for nothing. */
  lemma LossIsRead(v: Option<Json>)
    ensures forall n: nat :: SaysNumber(v, n) ==> BlockFeeds.IntOr0(v) == n
    ensures forall n: nat, t :: v == Some(Num("-" + t)) && SaysNumber(Some(Num(t)), n) ==>
      BlockFeeds.IntOr0(v) == 0 - n
    ensures v == Some(Bool(true)) ==> BlockFeeds.IntOr0(v) == 1
    ensures v.None? || !(v.value.Num? || v.value.Bool?) || v.value == Bool(false) ==> BlockFeeds.IntOr0(v) == 0
    ensures v.Some? && v.value.Num? && !IsInteger(v.value.lexeme) ==> BlockFeeds.IntOr0(v) == 0
  {
    hide Positional, DecimalValue;
    forall n: nat | SaysNumber(v, n) ensures BlockFeeds.IntOr0(v) == n {
      PositionalIsValue(v.value.lexeme);
      Blocks.AllDigits(v.value.lexeme);
      assert '0' <= v.value.lexeme[0];
    }
    forall n: nat, t | v == Some(Num("-" + t)) && SaysNumber(Some(Num(t)), n) ensures BlockFeeds.IntOr0(v) == 0 - n {
      PositionalIsValue(t);
      Blocks.AllDigits(t);
      assert ("-" + t)[1..] == t;
    }
    if v.Some? && v.value.Num? && BlockFeeds.IntText(v.value.lexeme) {
      var t := v.value.lexeme;
      var digits := if t != "" && t[0] == '-' then t[1..] else t;
      assert forall i :: 0 <= i < LeadingDigits(digits) ==> IsDigit(digits[i]);
    }
  }

  /** What the backend makes of a message that is an object: a loss, if its type says so; nothing to pass on,
      if it has an event that is no object; and otherwise a block, passed on as it came. */
  lemma MessageIsTold(v: Json)
    ensures var news := BlockFeeds.Classify(Some(v));
      && (news.Ignored? <==> !v.Obj?)
      && (news.Lagged? <==> At(v, ["type"]) == Some(Str("lagged")))
      && (news.Lagged? ==> news.dropped == BlockFeeds.IntOr0(At(v, ["dropped"])))
      && (news.Broken? <==> v.Obj? && At(v, ["type"]) != Some(Str("lagged"))
                            && At(v, ["event"]).Some? && !At(v, ["event"]).value.Obj?)
      && (news.NewBlock? ==> news.payload == v)
    ensures BlockFeeds.Classify(None).Ignored?
  {
    hide Find, BlockFeeds.IntOr0;
  }

  // ----- GET /blocks -----------------------------------------------------------------------------------------

  function BlockJsons(blocks: seq<Block>): seq<Json> {
    seq(|blocks|, i requires 0 <= i < |blocks| => BlockJson(blocks[i]))
  }

  /** The body of an answer with some blocks and the length of the chain. */
  function AnswerText(blocks: seq<Block>, length: nat): string {
    Dump(Obj([Member("blocks", Arr(BlockJsons(blocks))), Member("chain_length", Num(Decimal(length)))]))
  }

  /** The body lists the blocks in order, each with all its parts, and gives the length in digits. */
  lemma AnswerSays(blocks: seq<Block>, length: nat)
    requires forall i :: 0 <= i < |blocks| ==> WellFormedEvent(blocks[i].event)
    ensures JsonText.Parse(AnswerText(blocks, length)).Some?
    ensures var v := JsonText.Parse(AnswerText(blocks, length)).value;
      && SaysNumber(At(v, ["chain_length"]), length)
      && At(v, ["blocks"]).Some? && At(v, ["blocks"]).value.Arr? && |At(v, ["blocks"]).value.items| == |blocks|
      && forall i :: 0 <= i < |blocks| ==> SaysBlock(At(v, ["blocks"]).value.items[i], blocks[i])
  {
    hide JsonText.Parse, Dump, BlockJson, SaysBlock, Decimal, InDigits, Positional, NumberText, Find, WellFormedEvent;
    var ms := [Member("blocks", Arr(BlockJsons(blocks))), Member("chain_length", Num(Decimal(length)))];
    assert "blocks"[0] == 'b' && "chain_length"[0] == 'c' && ms[1..] == [ms[1]];
    forall i | 0 <= i < |blocks|
      ensures WellFormed(BlockJsons(blocks)[i]) && SaysBlock(BlockJson(blocks[i]), blocks[i])
    {
      BlockJsonWellFormed(blocks[i]);
      BlockJsonSaysBlock(blocks[i]);
    }
    DecimalIsNumber(length);
    DecimalSays(length);
    assert WellFormed(Arr(BlockJsons(blocks))) && Before("blocks", "chain_length") && SortedKeys(ms[1..]);
    assert WellFormed(Obj(ms));
    ParseRoundTrip(Obj(ms));
    FindAt(ms, 0);
    FindAt(ms, 1);
  }

  // ----- downstream -----------------------------------------------------------------------------------------

  /** A browser's frame wraps the block as it came, beside what the registry knows of the device. */
  lemma WrappedBlockSays(b: Block, device: Json)
    ensures var v := Enriched(b, device);
      && At(v, ["type"]) == Some(Str("block"))
      && At(v, ["block"]) == Some(BlockJson(b)) && At(v, ["device"]) == Some(device)
  {
    hide Find;
    var ms := Enriched(b, device).members;
    assert "block"[0] == 'b' && "device"[0] == 'd' && "type"[0] == 't';
    FindAt(ms, 0);
    FindAt(ms, 1);
    FindAt(ms, 2);
  }

  ghost predicate SaysLag(frame: Json) { At(frame, ["type"]) == Some(Str("lagged")) }

  /** A frame that is no lag notice and names an actor and a time. */
  ghost predicate SaysHeard(frame: Json, actor: string, at: string) {
    && !SaysLag(frame)
    && At(frame, ["block", "event", "actor"]) == Some(Str(actor)) && actor != ""
    && At(frame, ["block", "timestamp"]) == Some(Str(at))
  }

  function OrNull(v: Option<Json>): Json { if v.Some? then v.value else Null }

  /** And a sensor's reading, with what its metadata gives. */
  ghost predicate SaysStreamReading(frame: Json, actor: string, at: string, r: StreamReading) {
    && SaysHeard(frame, actor, at)
    && At(frame, ["block", "event", "event_type"]) == Some(Str("SENSOR_READING"))
    && At(frame, ["block", "event", "metadata", "sensor_id"]) == Some(Str(r.sensor)) && r.sensor != ""
    && r.device == actor && r.at == at
    && r.sensorType == OrNull(At(frame, ["block", "event", "metadata", "sensor_type"]))
    && r.value == OrNull(At(frame, ["block", "event", "metadata", "value"]))
    && r.unit == OrNull(At(frame, ["block", "event", "metadata", "unit"]))
    && r.seqno == OrNull(At(frame, ["block", "event", "metadata", "seq"]))
  }

  lemma TwoSteps(v: Json, a: string, b: string)
    ensures At(v, [a, b]) == Prop(Prop(Some(v), a), b)
  {
    AtProp(v, [a, b]);
    assert [a, b][1..] == [b];
    if Prop(Some(v), a).Some? {
      AtProp(Prop(Some(v), a).value, [b]);
      assert [b][1..] == [];
    }
  }

  lemma ThreeSteps(v: Json, a: string, b: string, c: string)
    ensures At(v, [a, b, c]) == Prop(Prop(Prop(Some(v), a), b), c)
  {
    AtProp(v, [a, b, c]);
    assert [a, b, c][1..] == [b, c];
    if Prop(Some(v), a).Some? { TwoSteps(Prop(Some(v), a).value, b, c); }
  }

  lemma FourSteps(v: Json, a: string, b: string, c: string, d: string)
    ensures At(v, [a, b, c, d]) == Prop(Prop(Prop(Prop(Some(v), a), b), c), d)
  {
    AtProp(v, [a, b, c, d]);
    assert [a, b, c, d][1..] == [b, c, d];
    if Prop(Some(v), a).Some? { ThreeSteps(Prop(Some(v), a).value, b, c, d); }
  }

  lemma HeardIsSaid(frame: Json, actor: string, at: string)
    ensures IsLag(frame) <==> SaysLag(frame)
    ensures SaysHeard(frame, actor, at) ==> !SaysLag(frame)
    ensures Heard(frame) == Some((actor, at)) <==> SaysHeard(frame, actor, at)
  {
    hide At, Prop;
    AtProp(frame, ["type"]);
    assert ["type"][1..] == [];
    if Prop(Some(frame), "type").Some? { AtNothing(Prop(Some(frame), "type").value); }
    ThreeSteps(frame, "block", "event", "actor");
    TwoSteps(frame, "block", "timestamp");
  }

  lemma StreamReadingIsSaid(frame: Json, actor: string, at: string, r: StreamReading)
    requires Heard(frame) == Some((actor, at))
    ensures ReadingFrom(frame, actor, at) == Some(r) <==> SaysStreamReading(frame, actor, at, r)
  {
    hide At, Heard, Find;
    HeardIsSaid(frame, actor, at);
    ThreeSteps(frame, "block", "event", "event_type");
    FourSteps(frame, "block", "event", "metadata", "sensor_id");
    FourSteps(frame, "block", "event", "metadata", "sensor_type");
    FourSteps(frame, "block", "event", "metadata", "value");
    FourSteps(frame, "block", "event", "metadata", "unit");
    FourSteps(frame, "block", "event", "metadata", "seq");
  }

  /** The newest five hundred of some readings and one more. */
  ghost predicate IsNewest500(after: seq<StreamReading>, before: seq<StreamReading>, r: StreamReading) {
    && |after| == (if |before| < 500 then |before| + 1 else 500)
    && after == (before + [r])[|before| + 1 - |after|..]
  }

  lemma TailIsNewest500(before: seq<StreamReading>, r: StreamReading)
    ensures IsNewest500(Activity.Tail(before + [r], MAX_STREAM_READINGS), before, r)
  {
  }

  /** The dashboard starts with nothing seen, nothing read and nothing lost. */
  lemma DashboardStartsEmpty()
    ensures ApplyAll(map[], EMPTY_STREAM, []) == StreamState(false, map[], [], 0)
  {
  }

  /** The dashboard after a frame that names an actor and a time. */
  ghost predicate MovedOn(proto: Inherited, before: StreamState, after: StreamState, frame: Json, actor: string,
                          at: string) {
    && after.connected == before.connected && after.dropped == before.dropped
    && after.lastSeen == (if Overtaken(proto, before.lastSeen, actor, at) then before.lastSeen[actor := at]
                          else before.lastSeen)
    && ReadingsMoved(frame, actor, at, before.readings, after.readings)
  }

  /** The reading the frame carries has joined, and nothing if it carries none. */
  ghost predicate ReadingsMoved(frame: Json, actor: string, at: string, before: seq<StreamReading>,
                                after: seq<StreamReading>) {
    && (forall r :: SaysStreamReading(frame, actor, at, r) ==> IsNewest500(after, before, r))
    && ((forall r :: !SaysStreamReading(frame, actor, at, r)) ==> after == before)
  }

  /** The time is later than what is seen of the actor, or than what every object inherits under its name. */
  ghost predicate Overtaken(proto: Inherited, lastSeen: map<string, string>, actor: string, at: string) {
    if actor in lastSeen then Before(lastSeen[actor], at) else actor in proto ==> Before(proto[actor], at)
  }

  /** What one frame does to the dashboard. A lag notice adds to the losses and does nothing else. A frame
      that names no actor or no time does nothing. Any other moves the actor's last seen forward if its time
      is greater, and adds the reading it carries, if it carries one. */
  lemma DashboardAfterFrame(proto: Inherited, s: StreamState, frame: Json)
    ensures SaysLag(frame) ==>
      ApplyFrame(proto, s, frame) == s.(dropped := s.dropped + BlockFeeds.IntOr0(At(frame, ["dropped"])))
    ensures !SaysLag(frame) && SaysNobody(frame) ==> ApplyFrame(proto, s, frame) == s
    ensures forall actor, at :: SaysHeard(frame, actor, at) ==>
      MovedOn(proto, s, ApplyFrame(proto, s, frame), frame, actor, at)
  {
    hide At, Heard, IsLag, SaysLag, SaysHeard, MovedOn, BlockFeeds.IntOr0, Before, ReadingFrom;
    AtDropped(frame);
    HeardIsSaid(frame, "", "");
    if !SaysLag(frame) && Heard(frame).Some? {
      var (a, t) := Heard(frame).value;
      HeardIsSaid(frame, a, t);
    }
    forall actor, at | SaysHeard(frame, actor, at)
      ensures MovedOn(proto, s, ApplyFrame(proto, s, frame), frame, actor, at)
    {
      HeardFrameMoves(proto, s, frame, actor, at);
    }
  }

  ghost predicate SaysNobody(frame: Json) {
    forall actor, at :: !SaysHeard(frame, actor, at)
  }

  lemma HeardFrameMoves(proto: Inherited, s: StreamState, frame: Json, actor: string, at: string)
    requires SaysHeard(frame, actor, at)
    ensures MovedOn(proto, s, ApplyFrame(proto, s, frame), frame, actor, at)
  {
    hide Heard, IsLag, SaysLag, SaysHeard, ReadingFrom, Before, BlockFeeds.IntOr0, ReadingsMoved, Activity.Tail;
    HeardIsSaid(frame, actor, at);
    ReadingsMove(frame, actor, at, s.readings);
  }

  lemma ReadingsMove(frame: Json, actor: string, at: string, before: seq<StreamReading>)
    requires Heard(frame) == Some((actor, at))
    ensures var read := ReadingFrom(frame, actor, at);
      ReadingsMoved(frame, actor, at, before,
        match read case None => before case Some(r) => Activity.Tail(before + [r], MAX_STREAM_READINGS))
  {
    hide Activity.Tail, Heard, ReadingFrom, ReadingsMoved;
    match ReadingFrom(frame, actor, at)
    case None => NothingJoins(frame, actor, at, before);
    case Some(r) => ReadingJoins(frame, actor, at, before, r);
  }

  lemma NothingJoins(frame: Json, actor: string, at: string, before: seq<StreamReading>)
    requires Heard(frame) == Some((actor, at)) && ReadingFrom(frame, actor, at).None?
    ensures ReadingsMoved(frame, actor, at, before, before)
  {
    hide IsNewest500, Heard, ReadingFrom, SaysStreamReading;
    forall r ensures !SaysStreamReading(frame, actor, at, r) { StreamReadingIsSaid(frame, actor, at, r); }
  }

  lemma ReadingJoins(frame: Json, actor: string, at: string, before: seq<StreamReading>, r: StreamReading)
    requires Heard(frame) == Some((actor, at)) && ReadingFrom(frame, actor, at) == Some(r)
    ensures ReadingsMoved(frame, actor, at, before, Activity.Tail(before + [r], MAX_STREAM_READINGS))
  {
    hide Activity.Tail, IsNewest500, Heard, ReadingFrom, SaysStreamReading;
    StreamReadingIsSaid(frame, actor, at, r);
    TailIsNewest500(before, r);
    forall r' | SaysStreamReading(frame, actor, at, r') ensures r' == r {
      StreamReadingIsSaid(frame, actor, at, r');
    }
  }

  lemma AtDropped(frame: Json)
    ensures At(frame, ["dropped"]) == Prop(Some(frame), "dropped")
  {
    hide Prop;
    AtProp(frame, ["dropped"]);
    assert ["dropped"][1..] == [];
    if Prop(Some(frame), "dropped").Some? { AtNothing(Prop(Some(frame), "dropped").value); }
  }
}
