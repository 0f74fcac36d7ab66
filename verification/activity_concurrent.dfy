/** Refreshes that overlap: any number of requests in flight against a growing ledger, answered and
    delivered in any order. Consuming one response is atomic; everything else interleaves. */
module ActivityConcurrent {
  import opened Records
  import opened Blocks
  import opened Activity
  import opened ActivityRefresh

  datatype Flight =
    | Asked(from: nat)                     // the cursor has been read, the request is on its way
    | Answered(from: nat, response: Response)  // the server has taken its snapshot

  /** The ledger, the cache and the refreshes under way; consumed and seen record which block indices
      the cache has been fed, and how far. */
  datatype World = World(
    chain: seq<Block>,
    cache: Cache,
    nextIndex: nat,
    flights: map<nat, Flight>,
    consumed: set<nat>,
    seen: nat)

  datatype Label =
    | Growth(more: seq<Block>)
    | Issue(r: nat)
    | Answer(r: nat)
    | Lose(r: nat)
    | Deliver(r: nat)

  ghost predicate Enabled(w: World, l: Label) {
    match l
    case Growth(more) => |w.chain + more| < U64
    case Issue(r) => r !in w.flights
    case Answer(r) => r in w.flights && w.flights[r].Asked?
    case Lose(r) => r in w.flights
    case Deliver(r) => r in w.flights && w.flights[r].Answered?
  }

  ghost predicate Between(from: nat, i: nat, end: nat) { from <= i < end }

  ghost function Indices(from: nat, end: nat): set<nat> {
    set i: nat | i < end && Between(from, i, end)
  }

  ghost function Apply(parse: Parse, w: World, l: Label, cap: nat): World
    requires Enabled(w, l)
  {
    match l
    case Growth(more) => w.(chain := w.chain + more)
    case Issue(r) => w.(flights := w.flights[r := Asked(RequestFrom(w.nextIndex))])
    case Answer(r) =>
      var from := w.flights[r].from;
      w.(flights := w.flights[r := Answered(from, ServeRange(w.chain, Some(Decimal(from)), None))])
    case Lose(r) => w.(flights := w.flights - {r})
    case Deliver(r) =>
      var flights := w.flights - {r};
      (match w.flights[r].response
       case BadRequest => w.(flights := flights, nextIndex := 0)
       case Unavailable => w.(flights := flights)
       case Blocks(blocks, n) =>
         w.(flights := flights,
            cache := Consume(parse, w.cache, blocks, cap),
            nextIndex := if n.Some? then n.value else w.nextIndex,
            consumed := w.consumed + Indices(w.flights[r].from, w.flights[r].from + |blocks|),
            seen := if w.flights[r].from + |blocks| > w.seen then w.flights[r].from + |blocks| else w.seen))
  }

  /** The blocks a step feeds to the cache. */
  ghost function Delivered(w: World, l: Label): seq<Block> {
    if l.Deliver? && l.r in w.flights && w.flights[l.r].Answered? && w.flights[l.r].response.Blocks?
    then w.flights[l.r].response.blocks
    else []
  }

  /** Everything a run has fed to its cache, in that order. */
  ghost function Log(ws: seq<World>, ls: seq<Label>): seq<Block>
    decreases |ls|
  {
    if ls == [] || |ws| < |ls| then []
    else Log(ws[..|ls|], ls[..|ls| - 1]) + Delivered(ws[|ls| - 1], Last(ls))
  }

  ghost predicate Initial(w: World) {
    && 0 < |w.chain| < U64 && w.cache == EMPTY_CACHE && w.nextIndex == 0
    && w.flights == map[] && w.consumed == {} && w.seen == 0
  }

  ghost predicate IsRun(parse: Parse, ws: seq<World>, ls: seq<Label>, cap: nat) {
    && |ws| == |ls| + 1
    && forall i :: 0 <= i < |ls| ==> Enabled(ws[i], ls[i]) && ws[i + 1] == Apply(parse, ws[i], ls[i], cap)
  }

  // ----- the maximum rule does not care how often or in which order blocks are read ---------------------

  /** m holds, for every actor with a readable block among these, the greatest of its instants. */
  ghost predicate IsMaximum(parse: Parse, m: map<string, int>, blocks: seq<Block>) {
    && (forall i :: 0 <= i < |blocks| && Instant(parse, blocks[i]).Some? ==>
          blocks[i].event.actor in m && Instant(parse, blocks[i]).value <= m[blocks[i].event.actor])
    && (forall a :: a in m ==> exists i :: 0 <= i < |blocks| && Attains(parse, blocks[i], a, m[a]))
  }

  ghost predicate Attains(parse: Parse, b: Block, a: string, at: int) {
    b.event.actor == a && Instant(parse, b) == Some(at)
  }

  lemma MaximumIsUnique(parse: Parse, m: map<string, int>, m': map<string, int>, blocks: seq<Block>)
    requires IsMaximum(parse, m, blocks) && IsMaximum(parse, m', blocks)
    ensures m == m'
  {
    hide Instant;
    forall a | a in m ensures a in m' && m[a] <= m'[a] {
      var i :| 0 <= i < |blocks| && Attains(parse, blocks[i], a, m[a]);
    }
    forall a | a in m' ensures a in m && m'[a] <= m[a] {
      var i :| 0 <= i < |blocks| && Attains(parse, blocks[i], a, m'[a]);
    }
  }

  /** One more block of a growing prefix. */
  lemma MaximumGrows(parse: Parse, m: map<string, int>, blocks: seq<Block>, n: nat)
    requires n < |blocks| && IsMaximum(parse, m, blocks[..n])
    ensures IsMaximum(parse, SeenStep(parse, m, blocks[n]), blocks[..n + 1])
  {
    hide Instant;
    var m', more := SeenStep(parse, m, blocks[n]), blocks[..n + 1];
    forall a | a in m' ensures exists i :: 0 <= i < |more| && Attains(parse, more[i], a, m'[a]) {
      if a in m && m'[a] == m[a] {
        var i :| 0 <= i < n && Attains(parse, blocks[..n][i], a, m[a]);
        assert Attains(parse, more[i], a, m'[a]);
      } else {
        assert Attains(parse, more[n], a, m'[a]);
      }
    }
    forall i | 0 <= i < |more| && Instant(parse, more[i]).Some?
      ensures more[i].event.actor in m' && Instant(parse, more[i]).value <= m'[more[i].event.actor]
    {
      assert i < n ==> more[i] == blocks[..n][i];
    }
  }

  /** A block that has been counted changes nothing. */
  lemma MaximumIgnoresRepeats(parse: Parse, m: map<string, int>, blocks: seq<Block>, i: nat)
    requires i < |blocks| && IsMaximum(parse, m, blocks)
    ensures SeenStep(parse, m, blocks[i]) == m
  {
    hide Instant;
  }

  ghost predicate Newest(parse: Parse, c: Cache, blocks: seq<Block>) {
    IsMaximum(parse, c.lastSeen, blocks) && HoldsNewest(parse, c.latest, blocks)
  }

  lemma NewestGrows(parse: Parse, m: map<Key, Reading>, blocks: seq<Block>, n: nat)
    requires n < |blocks| && HoldsNewest(parse, m, blocks[..n])
    ensures HoldsNewest(parse, LatestStep(parse, m, blocks[n]), blocks[..n + 1])
  {
    hide ReadingOf;
    var m', more := LatestStep(parse, m, blocks[n]), blocks[..n + 1];
    forall key | key in m' ensures exists i :: 0 <= i < |more| && Reports(parse, more[i], key, m'[key]) {
      if key in m && m'[key] == m[key] {
        var i :| 0 <= i < n && Reports(parse, blocks[..n][i], key, m[key]);
        assert Reports(parse, more[i], key, m'[key]);
      } else {
        assert Reports(parse, more[n], key, m'[key]);
      }
    }
    forall i | 0 <= i < |more| && ReadingOf(parse, more[i]).Some?
      ensures var (key, r) := ReadingOf(parse, more[i]).value; key in m' && r.at <= m'[key].at
    {
      assert i < n ==> more[i] == blocks[..n][i];
    }
  }

  lemma NewestSurvivesRepeats(parse: Parse, m: map<Key, Reading>, blocks: seq<Block>, n: nat)
    requires n < |blocks| && HoldsNewest(parse, m, blocks)
    ensures HoldsNewest(parse, LatestStep(parse, m, blocks[n]), blocks)
  {
    hide ReadingOf;
    var m' := LatestStep(parse, m, blocks[n]);
    forall key | key in m' ensures exists i :: 0 <= i < |blocks| && Reports(parse, blocks[i], key, m'[key]) {
      if key in m && m'[key] == m[key] {
        var i :| 0 <= i < |blocks| && Reports(parse, blocks[i], key, m[key]);
      } else {
        assert Reports(parse, blocks[n], key, m'[key]);
      }
    }
  }

  ghost function Max(a: nat, b: nat): nat { if a >= b then a else b }

  lemma ReadAtPosition(parse: Parse, c: Cache, chain: seq<Block>, seen: nat, n: nat, cap: nat)
    requires seen <= |chain| && n < |chain| && n <= seen && Newest(parse, c, chain[..seen])
    ensures Newest(parse, ConsumeBlock(parse, c, chain[n], cap), chain[..Max(seen, n + 1)])
  {
    hide IsMaximum, HoldsNewest, SeenStep, LatestStep, HistoryStep, CameraStep;
    if n < seen {
      assert chain[..seen][n] == chain[n];
      MaximumIgnoresRepeats(parse, c.lastSeen, chain[..seen], n);
      NewestSurvivesRepeats(parse, c.latest, chain[..seen], n);
    } else {
      MaximumGrows(parse, c.lastSeen, chain, n);
      NewestGrows(parse, c.latest, chain, n);
    }
  }

  /** Reading any contiguous stretch that starts within the prefix already read extends the prefix to
      the end of the stretch, or repeats part of it. */
  lemma {:induction false} ReadStretch(parse: Parse, c: Cache, chain: seq<Block>, seen: nat, from: nat, end: nat,
                                       cap: nat)
    requires from <= seen <= |chain| && from <= end <= |chain| && Newest(parse, c, chain[..seen])
    ensures Newest(parse, Consume(parse, c, chain[from..end], cap), chain[..Max(seen, end)])
    decreases end
  {
    hide Newest, ConsumeBlock;
    if from < end {
      assert chain[from..end][..end - from - 1] == chain[from..end - 1] && Last(chain[from..end]) == chain[end - 1];
      ReadStretch(parse, c, chain, seen, from, end - 1, cap);
      ReadAtPosition(parse, Consume(parse, c, chain[from..end - 1], cap), chain, Max(seen, end - 1), end - 1, cap);
    }
  }

  // ----- the invariant ---------------------------------------------------------------------------------------

  /** A flight asks for, or carries, a stretch that starts inside what has been seen. */
  ghost predicate FlightOk(w: World, f: Flight) {
    && (f.from == 0 || f.from < w.seen) && f.from < |w.chain|
    && (f.Answered? ==>
          exists n :: f.from < n <= |w.chain| && Carries(w.chain, f, n))
  }

  ghost predicate Carries(chain: seq<Block>, f: Flight, n: nat)
    requires f.Answered?
  {
    f.from <= n <= |chain| && f.response == Blocks(chain[f.from..n], Some(n))
  }

  ghost predicate WorldOk(parse: Parse, w: World) {
    && 0 < |w.chain| < U64 && w.nextIndex <= w.seen <= |w.chain|
    && w.consumed == Indices(0, w.seen)
    && Newest(parse, w.cache, w.chain[..w.seen])
    && forall r :: r in w.flights ==> FlightOk(w, w.flights[r])
  }

  lemma FlightSurvives(w: World, w': World, f: Flight)
    requires FlightOk(w, f) && w.chain <= w'.chain && w.seen <= w'.seen
    ensures FlightOk(w', f)
  {
    if f.Answered? {
      var n :| f.from < n <= |w.chain| && Carries(w.chain, f, n);
      assert w'.chain[f.from..n] == w.chain[f.from..n];
      assert Carries(w'.chain, f, n);
    }
  }

  lemma AnswerKeepsOk(parse: Parse, w: World, r: nat, cap: nat)
    requires WorldOk(parse, w) && Enabled(w, Answer(r))
    ensures WorldOk(parse, Apply(parse, w, Answer(r), cap))
  {
    hide Newest, ServeRange, Decimal;
    var w', from := Apply(parse, w, Answer(r), cap), w.flights[r].from;
    RefreshIsNeverRefused(w.chain, from + 1);
    assert FlightOk(w, w.flights[r]);
    assert w.chain[from..] == w.chain[from..|w.chain|];
    assert Carries(w.chain, w'.flights[r], |w.chain|);
    forall q | q in w'.flights ensures FlightOk(w', w'.flights[q]) {
      if q != r { FlightSurvives(w, w', w.flights[q]); }
    }
  }

  lemma DeliverKeepsOk(parse: Parse, w: World, r: nat, cap: nat)
    requires WorldOk(parse, w) && Enabled(w, Deliver(r))
    ensures WorldOk(parse, Apply(parse, w, Deliver(r), cap))
  {
    hide Newest, Consume;
    var w', f := Apply(parse, w, Deliver(r), cap), w.flights[r];
    assert FlightOk(w, f);
    var n :| f.from < n <= |w.chain| && Carries(w.chain, f, n);
    assert |w.chain[f.from..n]| == n - f.from;
    ReadStretch(parse, w.cache, w.chain, w.seen, f.from, n, cap);
    assert w'.seen == Max(w.seen, n);
    forall q | q in w'.flights ensures FlightOk(w', w'.flights[q]) {
      FlightSurvives(w, w', w.flights[q]);
    }
  }

  lemma StepKeepsOk(parse: Parse, w: World, l: Label, cap: nat)
    requires WorldOk(parse, w) && Enabled(w, l)
    ensures WorldOk(parse, Apply(parse, w, l, cap))
  {
    hide Newest, ServeRange, Decimal;
    if l.Answer? {
      AnswerKeepsOk(parse, w, l.r, cap);
    } else if l.Deliver? {
      DeliverKeepsOk(parse, w, l.r, cap);
    } else {
      var w' := Apply(parse, w, l, cap);
      if l.Growth? { assert w'.chain[..w.seen] == w.chain[..w.seen]; }
      forall q | q in w'.flights ensures FlightOk(w', w'.flights[q]) {
        if l.Issue? && q == l.r { } else { FlightSurvives(w, w', w.flights[q]); }
      }
    }
  }

  lemma InitialOk(parse: Parse, w: World)
    requires Initial(w)
    ensures WorldOk(parse, w)
  {
    assert w.chain[..0] == [];
  }

  /** Under any interleaving of refreshes with each other, with lost requests and with the growth of
      the ledger: the consumed block indices are a gap-free prefix that covers the cursor, no answer
      is ever a 400, and last seen is each actor's maximum over that prefix, the one a scan gives. */
  lemma {:induction false} InterleavedRefreshes(parse: Parse, ws: seq<World>, ls: seq<Label>, cap: nat)
    requires IsRun(parse, ws, ls, cap) && Initial(ws[0])
    ensures
      var w := Last(ws);
      && w.consumed == Indices(0, w.seen) && w.nextIndex <= w.seen <= |w.chain|
      && (forall r :: r in w.flights && w.flights[r].Answered? ==> w.flights[r].response.Blocks?)
      && IsMaximum(parse, w.cache.lastSeen, w.chain[..w.seen])
      && w.cache.lastSeen == Scan(parse, w.chain[..w.seen], cap).lastSeen
      && HoldsNewest(parse, w.cache.latest, w.chain[..w.seen])
  {
    hide IsMaximum, HoldsNewest, Apply, Initial, IsRun, Scan;
    RunOk(parse, ws, ls, cap);
    var w := Last(ws);
    ScanIsNewest(parse, w.chain[..w.seen], cap);
    MaximumIsUnique(parse, w.cache.lastSeen, Scan(parse, w.chain[..w.seen], cap).lastSeen, w.chain[..w.seen]);
    forall r | r in w.flights && w.flights[r].Answered? ensures w.flights[r].response.Blocks? {
      assert FlightOk(w, w.flights[r]);
    }
  }

  lemma {:induction false} RunOk(parse: Parse, ws: seq<World>, ls: seq<Label>, cap: nat)
    requires IsRun(parse, ws, ls, cap) && Initial(ws[0])
    ensures ws != [] && WorldOk(parse, Last(ws))
    decreases |ls|
  {
    hide WorldOk, Apply, Initial;
    if ls == [] {
      InitialOk(parse, ws[0]);
    } else {
      var n := |ls| - 1;
      RunOk(parse, ws[..n + 1], ls[..n], cap);
      StepKeepsOk(parse, ws[n], ls[n], cap);
    }
  }

  // ----- what interleaving costs --------------------------------------------------------------------------

  /** All readings of a sensor that carry its newest instant are the same reading. */
  ghost predicate NewestIsUnique(parse: Parse, blocks: seq<Block>, key: Key) {
    forall i, j, r, r' :: IsNewest(parse, blocks, i, key, r) && IsNewest(parse, blocks, j, key, r') ==> r == r'
  }

  ghost predicate IsNewest(parse: Parse, blocks: seq<Block>, i: nat, key: Key, r: Reading) {
    && i < |blocks| && Reports(parse, blocks[i], key, r)
    && forall j ::
         0 <= j < |blocks| && ReadingOf(parse, blocks[j]).Some? && ReadingOf(parse, blocks[j]).value.0 == key ==>
         ReadingOf(parse, blocks[j]).value.1.at <= r.at
  }

  /** Where a sensor's newest reading is unique, interleaving costs nothing: the cache has the reading
      that a single scan of the prefix would give. */
  lemma LatestAgreesWhenNewestIsUnique(parse: Parse, c: Cache, blocks: seq<Block>, key: Key, cap: nat)
    requires HoldsNewest(parse, c.latest, blocks) && NewestIsUnique(parse, blocks, key)
    ensures var scan := Scan(parse, blocks, cap).latest;
      (key in c.latest <==> key in scan) && (key in scan ==> c.latest[key] == scan[key])
  {
    hide ReadingOf, Consume;
    var scan := Scan(parse, blocks, cap).latest;
    ScanLatestIsNewestLast(parse, blocks, cap, key);
    if key in c.latest {
      var i: nat :| i < |blocks| && Reports(parse, blocks[i], key, c.latest[key]);
      assert IsNewest(parse, blocks, i, key, c.latest[key]);
      assert key in scan;
    }
    if key in scan {
      var j: nat :| NewestLast(parse, blocks, j, key, scan[key]);
      assert IsNewest(parse, blocks, j, key, scan[key]);
    }
  }

  lemma ReplayedTieWins(parse: Parse, c: Cache, blocks: seq<Block>, i: nat, key: Key, r: Reading, cap: nat)
    requires i < |blocks| && Newest(parse, c, blocks) && IsNewest(parse, blocks, i, key, r)
    ensures Consume(parse, c, blocks[..i + 1], cap).latest[key := r] == Consume(parse, c, blocks[..i + 1], cap).latest
    ensures key in Consume(parse, c, blocks[..i + 1], cap).latest
  {
    hide ReadingOf, SeenStep, HistoryStep, CameraStep, IsMaximum;
    assert blocks[0..i] == blocks[..i] && blocks[..|blocks|] == blocks;
    ReadStretch(parse, c, blocks, |blocks|, 0, i, cap);
    var before := Consume(parse, c, blocks[..i], cap);
    assert blocks[..i + 1][..i] == blocks[..i] && Last(blocks[..i + 1]) == blocks[i];
    assert Accepts(LatestAt(before.latest, key), r.at) by {
      if key in before.latest {
        var j :| 0 <= j < |blocks| && Reports(parse, blocks[j], key, before.latest[key]);
      }
    }
  }

  /** A first refresh has its answer, and the ledger grows while that is under way. */
  lemma OneRefreshWaits(parse: Parse, blocks: seq<Block>, i: nat, cap: nat)
    returns (ws: seq<World>, ls: seq<Label>)
    requires i < |blocks| < U64
    ensures ws != [] && IsRun(parse, ws, ls, cap) && Initial(ws[0]) && Log(ws, ls) == []
    ensures Last(ws)
         == World(blocks, EMPTY_CACHE, 0, map[0 := Answered(0, Blocks(blocks[..i + 1], Some(i + 1)))], {}, 0)
  {
    hide ServeRange, Decimal, Consume, Indices, IsRun, Log;
    var short := blocks[..i + 1];
    assert short + blocks[i + 1..] == blocks && short[0..] == short;
    RefreshIsNeverRefused(short, 0);
    ws, ls := [World(short, EMPTY_CACHE, 0, map[], {}, 0)], [];
    OneWorld(parse, ws[0], cap);
    ws, ls := Extend(parse, ws, ls, Issue(0), cap);
    ws, ls := Extend(parse, ws, ls, Answer(0), cap);
    ws, ls := Extend(parse, ws, ls, Growth(blocks[i + 1..]), cap);
  }

  /** Two refreshes start together, and the one that saw less is still under way when the other has been
      delivered. */
  lemma TwoRefreshesMeet(parse: Parse, blocks: seq<Block>, i: nat, cap: nat)
    returns (ws: seq<World>, ls: seq<Label>)
    requires i < |blocks| < U64
    ensures ws != [] && IsRun(parse, ws, ls, cap) && Initial(ws[0])
    ensures var w := Last(ws);
      && w.chain == blocks && w.seen == |blocks| && w.nextIndex == |blocks|
      && w.cache == Scan(parse, blocks, cap)
      && w.flights == map[0 := Answered(0, Blocks(blocks[..i + 1], Some(i + 1)))]
    ensures Log(ws, ls) == blocks
  {
    hide ServeRange, Decimal, Consume, Indices, IsRun, Initial, Log;
    ws, ls := OneRefreshWaits(parse, blocks, i, cap);
    RefreshIsNeverRefused(blocks, 0);
    assert blocks[0..] == blocks;
    ws, ls := Extend(parse, ws, ls, Issue(1), cap);
    ws, ls := Extend(parse, ws, ls, Answer(1), cap);
    ws, ls := Extend(parse, ws, ls, Deliver(1), cap);
  }

  lemma OneWorld(parse: Parse, w: World, cap: nat)
    ensures IsRun(parse, [w], [], cap) && Log([w], []) == []
  {
  }

  /** Then it is delivered: the cache has read the whole ledger and then its first i + 1 blocks once
      more, and the cursor ends up behind. */
  lemma TwoRefreshesCross(parse: Parse, blocks: seq<Block>, i: nat, cap: nat) returns (ws: seq<World>, ls: seq<Label>)
    requires i < |blocks| < U64
    ensures ws != [] && IsRun(parse, ws, ls, cap) && Initial(ws[0])
    ensures var w := Last(ws);
      && w.chain == blocks && w.seen == |blocks| && w.nextIndex == i + 1
      && w.cache == Consume(parse, Scan(parse, blocks, cap), blocks[..i + 1], cap)
    ensures Log(ws, ls) == blocks + blocks[..i + 1]
  {
    hide Consume, Indices, IsRun, Initial, Log;
    ws, ls := TwoRefreshesMeet(parse, blocks, i, cap);
    ws, ls := Extend(parse, ws, ls, Deliver(0), cap);
  }

  /** A third refresh has started between the two deliveries. */
  lemma ThirdRefreshStarts(parse: Parse, blocks: seq<Block>, i: nat, cap: nat)
    returns (ws: seq<World>, ls: seq<Label>)
    requires i < |blocks| < U64
    ensures ws != [] && IsRun(parse, ws, ls, cap) && Initial(ws[0])
    ensures var w := Last(ws);
      && w.chain == blocks && w.seen == |blocks| && w.flights == map[2 := Asked(|blocks| - 1)]
      && w.cache == Consume(parse, Scan(parse, blocks, cap), blocks[..i + 1], cap)
    ensures Log(ws, ls) == blocks + blocks[..i + 1]
  {
    hide Consume, Indices, IsRun, Initial, Log;
    ws, ls := TwoRefreshesMeet(parse, blocks, i, cap);
    ws, ls := Extend(parse, ws, ls, Issue(2), cap);
    ws, ls := Extend(parse, ws, ls, Deliver(0), cap);
  }

  /** A third refresh starts between the two deliveries and is answered after the ledger has grown: the
      cache has read the first f blocks, the first i + 1 of them again, and then everything from block
      f - 1 on. */
  lemma ThreeRefreshesCross(parse: Parse, blocks: seq<Block>, i: nat, f: nat, cap: nat)
    returns (ws: seq<World>, ls: seq<Label>)
    requires i < f < |blocks| < U64
    ensures ws != [] && IsRun(parse, ws, ls, cap) && Initial(ws[0])
    ensures var w := Last(ws);
      && w.chain == blocks && w.seen == |blocks| && w.nextIndex == |blocks|
      && w.cache
      == Consume(parse, Consume(parse, Scan(parse, blocks[..f], cap), blocks[..i + 1], cap), blocks[f - 1..], cap)
    ensures Log(ws, ls) == blocks[..f] + blocks[..i + 1] + blocks[f - 1..]
  {
    hide ServeRange, Decimal, Consume, Indices, Initial, IsRun, Log;
    ws, ls := ThirdRefreshStarts(parse, blocks[..f], i, cap);
    assert blocks[..f][..i + 1] == blocks[..i + 1] && blocks[..f] + blocks[f..] == blocks;
    RefreshIsNeverRefused(blocks, f);
    ws, ls := Extend(parse, ws, ls, Growth(blocks[f..]), cap);
    ws, ls := Extend(parse, ws, ls, Answer(2), cap);
    ws, ls := Extend(parse, ws, ls, Deliver(2), cap);
  }

  lemma Extend(parse: Parse, ws: seq<World>, ls: seq<Label>, l: Label, cap: nat)
    returns (ws': seq<World>, ls': seq<Label>)
    requires ws != [] && IsRun(parse, ws, ls, cap) && Enabled(Last(ws), l)
    ensures ws' == ws + [Apply(parse, Last(ws), l, cap)] && ls' == ls + [l] && IsRun(parse, ws', ls', cap)
    ensures Log(ws', ls') == Log(ws, ls) + Delivered(Last(ws), l)
  {
    hide Enabled, Apply, Delivered;
    ws', ls' := ws + [Apply(parse, Last(ws), l, cap)], ls + [l];
    assert ws'[..|ls'|] == ws && ls'[..|ls'| - 1] == ls;
  }

  /** Where the newest reading is not unique, some interleaving leaves the cache with any given one of
      them. */
  lemma TiesCanRewind(parse: Parse, blocks: seq<Block>, i: nat, key: Key, r: Reading, cap: nat)
    returns (ws: seq<World>, ls: seq<Label>)
    requires i < |blocks| < U64 && IsNewest(parse, blocks, i, key, r)
    ensures ws != [] && IsRun(parse, ws, ls, cap) && Initial(ws[0])
    ensures var w := Last(ws);
      && w.chain == blocks && w.seen == |blocks| && w.nextIndex == i + 1
      && key in w.cache.latest && w.cache.latest[key] == r
  {
    hide Consume, IsNewest, Newest, Initial, IsRun;
    ws, ls := TwoRefreshesCross(parse, blocks, i, cap);
    ScanIsNewest(parse, blocks, cap);
    ReplayedTieWins(parse, Scan(parse, blocks, cap), blocks, i, key, r, cap);
    assert Last(ws).cache.latest[key := r][key] == r;
  }

  lemma ScanIsNewest(parse: Parse, blocks: seq<Block>, cap: nat)
    ensures Newest(parse, Scan(parse, blocks, cap), blocks)
  {
    hide Consume;
    assert blocks[..0] == [] && blocks[0..|blocks|] == blocks && blocks[..|blocks|] == blocks;
    ReadStretch(parse, EMPTY_CACHE, blocks, 0, 0, |blocks|, cap);
  }

  /** The cache's latest reading of a sensor is the one a scan gives. */
  ghost predicate Agrees(parse: Parse, w: World, key: Key, cap: nat) {
    var scan := Scan(parse, w.chain[..if w.seen <= |w.chain| then w.seen else |w.chain|], cap).latest;
    (key in w.cache.latest <==> key in scan) && (key in scan ==> w.cache.latest[key] == scan[key])
  }

  ghost predicate EndsWith(parse: Parse, ws: seq<World>, ls: seq<Label>, blocks: seq<Block>, cap: nat) {
    ws != [] && IsRun(parse, ws, ls, cap) && Initial(ws[0]) && Last(ws).chain == blocks && Last(ws).seen == |blocks|
  }

  /** Exactly when interleaving is harmless for a sensor: every run that has read a given ledger
      agrees with the scan if and only if the sensor's newest reading in it is unique. */
  lemma InterleavingHarmlessIff(parse: Parse, blocks: seq<Block>, key: Key, cap: nat)
    requires 0 < |blocks| < U64
    ensures NewestIsUnique(parse, blocks, key)
      <==> forall ws, ls :: EndsWith(parse, ws, ls, blocks, cap) ==> Agrees(parse, Last(ws), key, cap)
  {
    hide IsRun, Initial, HoldsNewest, IsMaximum, Reports, Consume, IsNewest;
    assert blocks[..|blocks|] == blocks;
    if NewestIsUnique(parse, blocks, key) {
      forall ws, ls | EndsWith(parse, ws, ls, blocks, cap) ensures Agrees(parse, Last(ws), key, cap) {
        InterleavedRefreshes(parse, ws, ls, cap);
        LatestAgreesWhenNewestIsUnique(parse, Last(ws).cache, blocks, key, cap);
      }
    } else {
      var i, j, r, r' :| IsNewest(parse, blocks, i, key, r) && IsNewest(parse, blocks, j, key, r') && r != r';
      NewestIsInside(parse, blocks, i, key, r);
      NewestIsInside(parse, blocks, j, key, r');
      var ws, ls := TiesCanRewind(parse, blocks, i, key, r, cap);
      var ws', ls' := TiesCanRewind(parse, blocks, j, key, r', cap);
      assert EndsWith(parse, ws, ls, blocks, cap) && EndsWith(parse, ws', ls', blocks, cap);
      assert !Agrees(parse, Last(ws), key, cap) || !Agrees(parse, Last(ws'), key, cap);
    }
  }

  lemma NewestIsInside(parse: Parse, blocks: seq<Block>, i: nat, key: Key, r: Reading)
    requires IsNewest(parse, blocks, i, key, r)
    ensures i < |blocks|
  {
  }

  /** A delivery does to cache and cursor what the object does with the answer. */
  lemma DeliveryIsReceived(parse: Parse, w: World, r: nat, cap: nat)
    requires Enabled(w, Deliver(r))
    ensures var response, w' := w.flights[r].response, Apply(parse, w, Deliver(r), cap);
      && w'.cache == (if response.Blocks? then Consume(parse, w.cache, response.blocks, cap) else w.cache)
      && w'.nextIndex == (match response
           case Blocks(_, Some(n)) => n
           case BadRequest => 0
           case _ => w.nextIndex)
      && w'.chain == w.chain && w'.flights == w.flights - {r}
  {
    hide Consume, Indices;
  }
}
