/** The backend's persistent subscription to the block feed: telling lag notices from blocks, counting
    both, handing them to the hub, and reconnecting with jittered exponential backoff. */
module BlockFeeds {
  import opened Records
  import opened JsonText
  import opened Blocks
  import opened FeedOrder
  import opened Hub

  /** json.loads of a frame; None where it raises. */
  type Loads = string -> Option<Json>

  // ----- frames on the wire ------------------------------------------------------------------------

  function LagJson(dropped: nat): Json {
    Obj([Member("dropped", Num(Decimal(dropped))), Member("type", Str("lagged"))])
  }

  /** What storage-core's pump writes. */
  function FrameText(f: Frame): string {
    match f
    case LagFrame(n) => Dump(LagJson(n))
    case BlockFrame(b) => BlockText(b)
  }

  /** What becomes of a frame. A block whose event is no object is counted, and then the listener raises
      on it, which ends the connection. */
  datatype News = Ignored | Lagged(dropped: int) | NewBlock(payload: Json) | Broken(payload: Json)

  /** json.loads reads a number without fraction or exponent as an int. */
  predicate IntText(t: string) {
    var digits := if t != "" && t[0] == '-' then t[1..] else t;
    digits != "" && LeadingDigits(digits) == |digits|
  }

  /** isinstance(v, int) holds of booleans as well. */
  function IntOr0(v: Option<Json>): int {
    match v
    case Some(Num(t)) =>
      if !IntText(t) then 0
      else if t[0] == '-' then 0 - DecimalValue(t[1..]) else DecimalValue(t)
    case Some(Bool(b)) => if b then 1 else 0
    case _ => 0
  }

  function Classify(payload: Option<Json>): News {
    match payload
    case Some(Obj(ms)) =>
      var event := Find(ms, "event");
      if Find(ms, "type") == Some(Str("lagged")) then Lagged(IntOr0(Find(ms, "dropped")))
      else if event.Some? && !event.value.Obj? then Broken(Obj(ms))
      else NewBlock(Obj(ms))
    case _ => Ignored
  }

  /** What the frame means. */
  function Meaning(f: Frame): News {
    match f
    case LagFrame(n) => Lagged(n)
    case BlockFrame(b) => NewBlock(BlockJson(b))
  }

  lemma LagJsonWellFormed(n: nat)
    ensures WellFormed(LagJson(n)) && Find(LagJson(n).members, "type") == Some(Str("lagged"))
    ensures Find(LagJson(n).members, "dropped") == Some(Num(Decimal(n)))
  {
    hide Decimal, NumberText;
    var ms := LagJson(n).members;
    DecimalIsNumber(n);
    assert "dropped"[0] == 'd' && "type"[0] == 't';
    assert Before("dropped", "type");
    assert SortedKeys(ms[1..]);
    FindAt(ms, 0);
    FindAt(ms, 1);
  }

  lemma BlockHasNoType(b: Block)
    ensures Find(BlockJson(b).members, "type").None?
  {
    hide Decimal, EventJson;
    assert |"timestamp"| == 9 && |"type"| == 4 && |"event"| == 5 && |"prev_hash"| == 9 && |"index"| == 5;
    assert "hash"[0] == 'h' && "type"[0] == 't';
    NotFound(BlockJson(b).members, "type");
  }

  /** No block is ever taken for a lag notice or the other way round, and each arrives whole. */
  lemma FramesAreTold(f: Frame)
    requires f.BlockFrame? ==> WellFormedEvent(f.block.event)
    ensures Classify(Parse(FrameText(f))) == Meaning(f)
    ensures f.BlockFrame? ==> BlockFromJson(Meaning(f).payload) == Some(f.block)
  {
    hide Decimal, Dump, DecimalValue, Parse, IntText, WellFormed, Find, LeadingDigits;
    match f
    case LagFrame(n) =>
      LagJsonWellFormed(n);
      ParseRoundTrip(LagJson(n));
      DecimalIsInt(n);
    case BlockFrame(b) =>
      BlockJsonWellFormed(b);
      ParseRoundTrip(BlockJson(b));
      BlockHasNoType(b);
      FindAt(BlockJson(b).members, 0);
      BlockJsonRoundTrip(b);
  }

  lemma DecimalIsInt(n: nat)
    ensures IntText(Decimal(n)) && IntOr0(Some(Num(Decimal(n)))) == n
  {
    hide Decimal, DecimalValue;
    DecimalDigits(n);
    DecimalRoundTrip(n);
    AllDigits(Decimal(n));
  }

  // ----- attempts -----------------------------------------------------------------------------------

  const INITIAL_BACKOFF: real := 0.5
  const MAX_BACKOFF: real := 30.0

  /** One pass of the endless loop: whether the connect succeeded, what was received before the
      connection ended, how long that took, and the jitter drawn afterwards. */
  datatype Attempt = Attempt(connected: bool, messages: seq<string>, lasted: real, jitter: real)

  predicate Possible(a: Attempt) {
    a.lasted >= 0.0 && 0.0 <= a.jitter < 1.0
  }

  ghost predicate AllPossible(attempts: seq<Attempt>) {
    forall i :: 0 <= i < |attempts| ==> Possible(attempts[i])
  }

  function Doubled(backoff: real): real {
    if backoff * 2.0 < MAX_BACKOFF then backoff * 2.0 else MAX_BACKOFF
  }

  /** The backoff the attempt sleeps with. */
  function BackoffOf(backoff: real, a: Attempt): real {
    if a.connected then INITIAL_BACKOFF else backoff
  }

  function Pause(backoff: real, a: Attempt): real {
    BackoffOf(backoff, a) * (0.5 + a.jitter)
  }

  /** When each attempt starts, and the one after the last. */
  ghost function StartTimes(start: real, backoff: real, attempts: seq<Attempt>): seq<real>
    decreases |attempts|
  {
    if attempts == [] then [start]
    else
      var a := attempts[0];
      [start] + StartTimes(start + a.lasted + Pause(backoff, a), Doubled(BackoffOf(backoff, a)), attempts[1..])
  }

  /** What a connection tells, up to and including the first frame that ends it. */
  ghost function NewsOf(loads: Loads, messages: seq<string>): seq<News> {
    if messages == [] then []
    else
      var news := Classify(loads(messages[0]));
      if news.Ignored? then NewsOf(loads, messages[1..])
      else if news.Broken? then [news]
      else [news] + NewsOf(loads, messages[1..])
  }

  /** How much of it reaches the hub. */
  ghost function PassedIn(news: seq<News>): nat {
    if news == [] then 0 else (if news[0].Broken? then 0 else 1) + PassedIn(news[1..])
  }

  ghost function AllNews(loads: Loads, attempts: seq<Attempt>): seq<News> {
    if attempts == [] then []
    else (if attempts[0].connected then NewsOf(loads, attempts[0].messages) else []) + AllNews(loads, attempts[1..])
  }

  ghost function Connects(attempts: seq<Attempt>): nat {
    if attempts == [] then 0 else (if attempts[0].connected then 1 else 0) + Connects(attempts[1..])
  }

  ghost function BlocksIn(news: seq<News>): nat {
    if news == [] then 0 else (if news[0].NewBlock? || news[0].Broken? then 1 else 0) + BlocksIn(news[1..])
  }

  ghost function LossIn(news: seq<News>): int {
    if news == [] then 0 else (if news[0].Lagged? then news[0].dropped else 0) + LossIn(news[1..])
  }

  /** A mailbox after a sequence of frames. */
  ghost function AfterAll(m: Mailbox<News>, news: seq<News>): Mailbox<News>
    decreases |news|
  {
    if news == [] then m else AfterAll(if news[0].Broken? then m else AfterPut(m, news[0]), news[1..])
  }

  lemma {:induction false} NewsConcat(a: seq<News>, b: seq<News>, m: Mailbox<News>)
    ensures BlocksIn(a + b) == BlocksIn(a) + BlocksIn(b) && LossIn(a + b) == LossIn(a) + LossIn(b)
    ensures PassedIn(a + b) == PassedIn(a) + PassedIn(b)
    ensures AfterAll(m, a + b) == AfterAll(AfterAll(m, a), b)
    decreases |a|
  {
    hide AfterPut;
    if a == [] {
      assert a + b == b;
    } else {
      assert (a + b)[1..] == a[1..] + b;
      NewsConcat(a[1..], b, if a[0].Broken? then m else AfterPut(m, a[0]));
    }
  }

  // ----- the feed object -----------------------------------------------------------------------------

  class BlockFeed {
    var connected: bool
    var connects: nat
    var blocksReceived: nat
    var blocksDropped: int

    constructor ()
      ensures !connected && connects == blocksReceived == 0 && blocksDropped == 0
    {
      connected, connects, blocksReceived, blocksDropped := false, 0, 0, 0;
    }

    /** The listeners are the two the application registers: each hands its argument to the hub. */
    method Dispatch(loads: Loads, message: string, hub: BrowserHub<News>) returns (raised: bool)
      requires hub.Valid()
      modifies `blocksReceived, `blocksDropped, hub, hub.subscriptions
      ensures hub.Valid() && hub.subscriptions == old(hub.subscriptions) && raised == Classify(loads(message)).Broken?
      ensures var news := NewsOf(loads, [message]);
        && blocksReceived == old(blocksReceived) + BlocksIn(news) && blocksDropped == old(blocksDropped) + LossIn(news)
        && hub.delivered == old(hub.delivered) + PassedIn(news)
        && forall s :: s in hub.subscriptions ==> s.View() == AfterAll(old(s.View()), news)
    {
      hide AfterPut;
      var payload := loads(message);
      if payload.None? || !payload.value.Obj? {
        return false;
      }
      var ms := payload.value.members;
      if Find(ms, "type") == Some(Str("lagged")) {
        var dropped := IntOr0(Find(ms, "dropped"));
        blocksDropped := blocksDropped + dropped;
        hub.Broadcast(Lagged(dropped));
        return false;
      }
      blocksReceived := blocksReceived + 1;
      var event := Find(ms, "event");
      if event.Some? && !event.value.Obj? {
        return true;
      }
      hub.Broadcast(NewBlock(payload.value));
      return false;
    }

    /** async for message in socket, left early if a listener raises. */
    method Listen(loads: Loads, messages: seq<string>, hub: BrowserHub<News>)
      requires hub.Valid()
      modifies `blocksReceived, `blocksDropped, hub, hub.subscriptions
      ensures hub.Valid() && hub.subscriptions == old(hub.subscriptions)
      ensures var news := NewsOf(loads, messages);
        && blocksReceived == old(blocksReceived) + BlocksIn(news) && blocksDropped == old(blocksDropped) + LossIn(news)
        && hub.delivered == old(hub.delivered) + PassedIn(news)
        && forall s :: s in hub.subscriptions ==> s.View() == AfterAll(old(s.View()), news)
    {
      hide AfterPut, Classify, BlocksIn, LossIn, AfterAll, PassedIn, NewsOf;
      ghost var told: seq<News> := [];
      NothingTold(loads, messages);
      for i := 0 to |messages|
        invariant hub.Valid() && hub.subscriptions == old(hub.subscriptions)
        invariant NewsOf(loads, messages) == told + NewsOf(loads, messages[i..])
        invariant blocksReceived == old(blocksReceived) + BlocksIn(told) &&
          blocksDropped == old(blocksDropped) + LossIn(told)
        invariant hub.delivered == old(hub.delivered) + PassedIn(told)
        invariant forall s :: s in hub.subscriptions ==> s.View() == AfterAll(old(s.View()), told)
      {
        ghost var news := NewsOf(loads, [messages[i]]);
        OneMessage(loads, messages, i);
        NewsConcat(told, news, Mailbox([], 0, 0));
        var raised := Dispatch(loads, messages[i], hub);
        forall s | s in hub.subscriptions ensures s.View() == AfterAll(old(s.View()), told + news) {
          NewsConcat(told, news, old(s.View()));
        }
        told := told + news;
        if raised {
          assert news + [] == news;
          return;
        }
      }
      NothingTold(loads, messages);
      assert told + [] == told;
    }

    /** Any number of passes of the endless loop. */
    method Run(loads: Loads, attempts: seq<Attempt>, start: real, hub: BrowserHub<News>) returns (starts: seq<real>)
      requires hub.Valid()
      modifies this, hub, hub.subscriptions
      ensures hub.Valid() && hub.subscriptions == old(hub.subscriptions)
      ensures starts == StartTimes(start, INITIAL_BACKOFF, attempts)
      ensures connects == old(connects) + Connects(attempts) && (attempts != [] ==> !connected)
      ensures var news := AllNews(loads, attempts);
        && blocksReceived == old(blocksReceived) + BlocksIn(news) && blocksDropped == old(blocksDropped) + LossIn(news)
        && hub.delivered == old(hub.delivered) + PassedIn(news)
        && forall s :: s in hub.subscriptions ==> s.View() == AfterAll(old(s.View()), news)
    {
      hide AfterPut, Classify, BlocksIn, LossIn, AfterAll, PassedIn, NewsOf, AllNews, StartTimes, Connects;
      var backoff, now := INITIAL_BACKOFF, start;
      starts := [];
      ghost var told: seq<News> := [];
      NothingTold(loads, []);
      NothingTried(loads, attempts, start);
      for i := 0 to |attempts|
        invariant hub.Valid() && hub.subscriptions == old(hub.subscriptions)
        invariant StartTimes(start, INITIAL_BACKOFF, attempts) == starts + StartTimes(now, backoff, attempts[i..])
        invariant connects + Connects(attempts[i..]) == old(connects) + Connects(attempts) && (i > 0 ==> !connected)
        invariant AllNews(loads, attempts) == told + AllNews(loads, attempts[i..])
        invariant blocksReceived == old(blocksReceived) + BlocksIn(told) &&
          blocksDropped == old(blocksDropped) + LossIn(told)
        invariant hub.delivered == old(hub.delivered) + PassedIn(told)
        invariant forall s :: s in hub.subscriptions ==> s.View() == AfterAll(old(s.View()), told)
      {
        var a := attempts[i];
        ghost var news := if a.connected then NewsOf(loads, a.messages) else [];
        OneAttempt(loads, attempts, i, now, backoff);
        NewsConcat(told, news, Mailbox([], 0, 0));
        NothingTold(loads, []);
        starts := starts + [now];
        if a.connected {
          backoff := INITIAL_BACKOFF;
          connected := true;
          connects := connects + 1;
          Listen(loads, a.messages, hub);
        }
        forall s | s in hub.subscriptions ensures s.View() == AfterAll(old(s.View()), told + news) {
          NewsConcat(told, news, old(s.View()));
        }
        connected := false;
        now := now + a.lasted + backoff * (0.5 + a.jitter);
        backoff := if backoff * 2.0 < MAX_BACKOFF then backoff * 2.0 else MAX_BACKOFF;
        told := told + news;
      }
      starts := starts + [now];
      NothingTried(loads, attempts, now);
      assert told + [] == told;
    }
  }

  lemma NothingTried(loads: Loads, attempts: seq<Attempt>, now: real)
    ensures attempts[0..] == attempts && attempts[|attempts|..] == []
    ensures AllNews(loads, []) == [] && Connects([]) == 0
    ensures forall backoff :: StartTimes(now, backoff, []) == [now]
  {
  }

  lemma OneAttempt(loads: Loads, attempts: seq<Attempt>, i: nat, now: real, backoff: real)
    requires i < |attempts|
    ensures var a := attempts[i];
      && AllNews(loads, attempts[i..])
         == (if a.connected then NewsOf(loads, a.messages) else []) + AllNews(loads, attempts[i + 1..])
      && Connects(attempts[i..]) == (if a.connected then 1 else 0) + Connects(attempts[i + 1..])
      && StartTimes(now, backoff, attempts[i..])
         == [now] + StartTimes(now + a.lasted + Pause(backoff, a), Doubled(BackoffOf(backoff, a)), attempts[i + 1..])
  {
    hide NewsOf;
    assert attempts[i..][0] == attempts[i] && attempts[i..][1..] == attempts[i + 1..];
  }

  lemma NothingTold(loads: Loads, messages: seq<string>)
    ensures messages[0..] == messages && messages[|messages|..] == [] && NewsOf(loads, []) == []
    ensures BlocksIn([]) == 0 && LossIn([]) == 0
    ensures PassedIn([]) == 0 && forall m: Mailbox<News> :: AfterAll(m, []) == m
  {
  }

  lemma OneMessage(loads: Loads, messages: seq<string>, i: nat)
    requires i < |messages|
    ensures NewsOf(loads, messages[i..])
         == NewsOf(loads, [messages[i]])
            + (if Classify(loads(messages[i])).Broken? then [] else NewsOf(loads, messages[i + 1..]))
  {
    hide Classify;
    assert messages[i..][0] == messages[i] && messages[i..][1..] == messages[i + 1..];
    assert NewsOf(loads, [messages[i]][1..]) == [];
  }

  // ----- how often it tries ----------------------------------------------------------------------------

  /** The times from the i-th attempt on are those of a fresh start with some backoff in range, reset if
      the attempt before connected. */
  lemma {:induction false} FromAttempt(start: real, backoff: real, attempts: seq<Attempt>, i: nat)
    returns (backoff': real)
    requires AllPossible(attempts) && INITIAL_BACKOFF <= backoff <= MAX_BACKOFF && i <= |attempts|
    ensures |StartTimes(start, backoff, attempts)| == |attempts| + 1
    ensures INITIAL_BACKOFF <= backoff' <= MAX_BACKOFF
    ensures StartTimes(start, backoff, attempts)[i..]
         == StartTimes(StartTimes(start, backoff, attempts)[i], backoff', attempts[i..])
    decreases |attempts|
  {
    TimesLength(start, backoff, attempts);
    if i == 0 {
      backoff' := backoff;
      assert attempts[0..] == attempts;
    } else {
      var a := attempts[0];
      var next := start + a.lasted + Pause(backoff, a);
      backoff' := FromAttempt(next, Doubled(BackoffOf(backoff, a)), attempts[1..], i - 1);
      assert attempts[1..][i - 1..] == attempts[i..];
      var rest := StartTimes(next, Doubled(BackoffOf(backoff, a)), attempts[1..]);
      assert StartTimes(start, backoff, attempts)[i..] == rest[i - 1..];
    }
  }

  lemma {:induction false} TimesLength(start: real, backoff: real, attempts: seq<Attempt>)
    ensures |StartTimes(start, backoff, attempts)| == |attempts| + 1 && StartTimes(start, backoff, attempts)[0] == start
    decreases |attempts|
  {
    if attempts != [] {
      var a := attempts[0];
      TimesLength(start + a.lasted + Pause(backoff, a), Doubled(BackoffOf(backoff, a)), attempts[1..]);
    }
  }

  lemma PauseRange(backoff: real, a: Attempt)
    requires Possible(a) && INITIAL_BACKOFF <= backoff <= MAX_BACKOFF
    ensures 0.5 * BackoffOf(backoff, a) <= Pause(backoff, a) < 1.5 * BackoffOf(backoff, a)
  {
    Scaled(BackoffOf(backoff, a), a.jitter);
  }

  lemma Scaled(b: real, j: real)
    requires b > 0.0 && 0.0 <= j < 1.0
    ensures 0.5 * b <= b * (0.5 + j) < 1.5 * b
  {
    assert b * (1.0 - j) > 0.0;
    assert b * (0.5 + j) == 1.5 * b - b * (1.0 - j);
    assert b * (0.5 + j) == 0.5 * b + b * j;
  }

  /** Never faster than four attempts a second, never a pause of 45 seconds or more, and at most three
      quarters of a second after a connection that had been established. */
  lemma AttemptsAreSpaced(start: real, attempts: seq<Attempt>, i: nat)
    requires AllPossible(attempts) && i < |attempts|
    ensures
      var ts := StartTimes(start, INITIAL_BACKOFF, attempts);
      && |ts| == |attempts| + 1
      && ts[i + 1] - ts[i] >= 0.25
      && ts[i + 1] - (ts[i] + attempts[i].lasted) < if attempts[i].connected then 0.75 else 45.0
  {
    var ts := StartTimes(start, INITIAL_BACKOFF, attempts);
    var backoff := FromAttempt(start, INITIAL_BACKOFF, attempts, i);
    var a := attempts[i];
    PauseRange(backoff, a);
    assert attempts[i..][0] == a;
    TimesLength(ts[i] + a.lasted + Pause(backoff, a), Doubled(BackoffOf(backoff, a)), attempts[i..][1..]);
    assert ts[i..][1] == ts[i + 1];
  }

  /** Jitter spreads the attempts: every pause from half the backoff up to one and a half of it comes from
      some jitter, and from no other, so two clients that draw differently wait differently. */
  lemma JitterSpreads(backoff: real, a: Attempt, pause: real) returns (jitter: real)
    requires BackoffOf(backoff, a) > 0.0
    requires 0.5 * BackoffOf(backoff, a) <= pause < 1.5 * BackoffOf(backoff, a)
    ensures 0.0 <= jitter < 1.0 && Pause(backoff, a.(jitter := jitter)) == pause
    ensures forall j :: Pause(backoff, a.(jitter := j)) == pause ==> j == jitter
  {
    var b := BackoffOf(backoff, a);
    jitter := Solved(b, pause);
    forall j | Pause(backoff, a.(jitter := j)) == pause ensures j == jitter { OnlySolution(b, j, jitter); }
  }

  lemma Solved(b: real, pause: real) returns (j: real)
    requires b > 0.0 && 0.5 * b <= pause < 1.5 * b
    ensures 0.0 <= j < 1.0 && b * (0.5 + j) == pause
  {
    var q := pause / b;
    assert q * b == pause;
    j := q - 0.5;
    if q < 0.5 { ScalesUp(b, q, 0.5); }
    if q >= 1.5 { ScalesUp(b, 1.5, q); }
  }

  lemma ScalesUp(b: real, x: real, y: real)
    requires b > 0.0 && x <= y
    ensures x * b <= y * b && (x < y ==> x * b < y * b)
  {
    assert (y - x) * b >= 0.0;
  }

  lemma OnlySolution(b: real, j: real, j': real)
    requires b > 0.0 && b * (0.5 + j) == b * (0.5 + j')
    ensures j == j'
  {
    if j < j' { ScalesUp(b, 0.5 + j, 0.5 + j'); }
    if j > j' { ScalesUp(b, 0.5 + j', 0.5 + j); }
  }

  /** The least time k unsuccessful attempts take when the first of them sleeps with this backoff. */
  ghost function LeastWait(backoff: real, k: nat): real
    decreases k
  {
    if k == 0 then 0.0 else 0.5 * backoff + LeastWait(Doubled(backoff), k - 1)
  }

  lemma {:induction false} WaitsAtLeast(start: real, backoff: real, attempts: seq<Attempt>)
    requires AllPossible(attempts) && INITIAL_BACKOFF <= backoff <= MAX_BACKOFF
    requires forall i :: 0 <= i < |attempts| ==> !attempts[i].connected
    ensures |StartTimes(start, backoff, attempts)| == |attempts| + 1
    ensures Last(StartTimes(start, backoff, attempts)) >= start + LeastWait(backoff, |attempts|)
    decreases |attempts|
  {
    TimesLength(start, backoff, attempts);
    if attempts != [] {
      var a := attempts[0];
      PauseRange(backoff, a);
      WaitsAtLeast(start + a.lasted + Pause(backoff, a), Doubled(backoff), attempts[1..]);
    }
  }

  lemma {:induction false} LeastWaitGrows(a: real, b: real, k: nat)
    requires a <= b
    ensures LeastWait(a, k) <= LeastWait(b, k)
    decreases k
  {
    if k > 0 { LeastWaitGrows(Doubled(a), Doubled(b), k - 1); }
  }

  lemma {:induction false} AtTheCeiling(k: nat)
    ensures LeastWait(MAX_BACKOFF, k) == 15.0 * k as real
  {
    if k > 0 { AtTheCeiling(k - 1); }
  }

  lemma FromTheFloor(k: nat)
    ensures LeastWait(INITIAL_BACKOFF, k) >= 15.0 * k as real - 74.25
    ensures k >= 6 ==> LeastWait(INITIAL_BACKOFF, k) == 15.0 * k as real - 74.25
  {
    if k >= 6 {
      AtTheCeiling(k - 6);
      assert LeastWait(0.5, k) == 0.25 + LeastWait(1.0, k - 1);
      assert LeastWait(1.0, k - 1) == 0.5 + LeastWait(2.0, k - 2);
      assert LeastWait(2.0, k - 2) == 1.0 + LeastWait(4.0, k - 3);
      assert LeastWait(4.0, k - 3) == 2.0 + LeastWait(8.0, k - 4);
      assert LeastWait(8.0, k - 4) == 4.0 + LeastWait(16.0, k - 5);
      assert LeastWait(16.0, k - 5) == 8.0 + LeastWait(30.0, k - 6);
    } else {
      LeastWaitPositive(INITIAL_BACKOFF, k);
    }
  }

  lemma {:induction false} LeastWaitPositive(backoff: real, k: nat)
    requires backoff >= 0.5
    ensures LeastWait(backoff, k) >= 0.25 * k as real
    decreases k
  {
    if k > 0 { LeastWaitPositive(Doubled(backoff), k - 1); }
  }

  /** Whatever the jitter and however the attempts fail: k attempts in a row without a successful
      connect, anywhere in the run, take at least 15k - 74.25 seconds. */
  lemma OutagesBackOff(start: real, attempts: seq<Attempt>, i: nat, k: nat)
    requires AllPossible(attempts) && i + k <= |attempts|
    requires forall j :: i <= j < i + k ==> !attempts[j].connected
    ensures
      var ts := StartTimes(start, INITIAL_BACKOFF, attempts);
      |ts| == |attempts| + 1 && ts[i + k] - ts[i] >= 15.0 * k as real - 74.25
  {
    var front := attempts[..i + k];
    var ts := StartTimes(start, INITIAL_BACKOFF, attempts);
    TimesLength(start, INITIAL_BACKOFF, attempts);
    TimesPrefix(start, INITIAL_BACKOFF, attempts, i + k);
    var backoff := FromAttempt(start, INITIAL_BACKOFF, front, i);
    WaitsAtLeast(ts[i], backoff, front[i..]);
    LeastWaitGrows(INITIAL_BACKOFF, backoff, k);
    FromTheFloor(k);
  }

  lemma {:induction false} TimesPrefix(start: real, backoff: real, attempts: seq<Attempt>, n: nat)
    requires n <= |attempts|
    ensures |StartTimes(start, backoff, attempts)| == |attempts| + 1
    ensures StartTimes(start, backoff, attempts[..n]) == StartTimes(start, backoff, attempts)[..n + 1]
    decreases |attempts|
  {
    TimesLength(start, backoff, attempts);
    if n > 0 {
      var a := attempts[0];
      assert attempts[..n][1..] == attempts[1..][..n - 1];
      TimesPrefix(start + a.lasted + Pause(backoff, a), Doubled(BackoffOf(backoff, a)), attempts[1..], n - 1);
    }
  }

  /** The bound is reached: a connect that fails at once, every time, with no jitter. */
  lemma {:induction false} BoundIsReached(start: real, backoff: real, k: nat) returns (attempts: seq<Attempt>)
    requires INITIAL_BACKOFF <= backoff <= MAX_BACKOFF
    ensures |attempts| == k && AllPossible(attempts) && forall i :: 0 <= i < k ==> !attempts[i].connected
    ensures |StartTimes(start, backoff, attempts)| == k + 1
    ensures Last(StartTimes(start, backoff, attempts)) == start + LeastWait(backoff, k)
    decreases k
  {
    if k == 0 {
      attempts := [];
    } else {
      var a := Attempt(false, [], 0.0, 0.0);
      var rest := BoundIsReached(start + a.lasted + Pause(backoff, a), Doubled(backoff), k - 1);
      attempts := [a] + rest;
      assert attempts[1..] == rest;
    }
  }
}
