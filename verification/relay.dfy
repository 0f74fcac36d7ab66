/** Two drop-oldest buffers in a row: storage-core's write path with all its clients, the backend as one
    of them, over any number of reconnects, and the browsers behind the backend's hub. */
module Relay {
  import opened Records
  import opened Broadcast
  import opened Blocks
  import opened Chains
  import opened Storage
  import opened WritePath
  import opened Guarantees
  import opened FeedOrder
  import opened Hub

  /** A browser was subscribed to the hub's frames since..until; at says where in them the frames it
      received stand. */
  datatype Browser = Browser(since: nat, until: Option<nat>, box: Mailbox<Frame>, at: seq<nat>, got: seq<Frame>)

  /** The upstream connection: which of storage-core's clients it is, how many of that client's items
      have been dispatched, whether the lag frame of the next one has been, and what the counters and
      the feed's length were when it connected. */
  datatype Link =
    | Down
    | Up(client: nat, done: nat, halfway: bool, startFeed: nat, startReceived: nat, startDropped: nat)

  /** place[i] is the chain position of the block in feed[i]. */
  datatype World = World(
    core: State,
    link: Link,
    received: nat,
    dropped: nat,
    feed: seq<Frame>,
    place: seq<nat>,
    browsers: seq<Browser>)

  datatype Move =
    | Core(l: Label)
    | Connect(capacity: nat)
    | Disconnect
    | Receive
    | Join(mailbox: nat)
    | Leave(b: nat)
    | Deliver(b: nat)

  ghost predicate CanMove(w: World, m: Move) {
    match m
    case Core(l) => WritePath.Enabled(w.core, l)
    case Connect(capacity) => w.link.Down? && WritePath.Enabled(w.core, Open(capacity))
    case Disconnect => w.link.Up?
    case Receive => w.link.Up? && w.link.client < |w.core.clients| && w.link.done < |w.core.clients[w.link.client].sent|
    case Join(_) => true
    case Leave(b) => b < |w.browsers| && w.browsers[b].until.None?
    case Deliver(b) => b < |w.browsers| && w.browsers[b].box.queue != []
  }

  /** The next item of the connection. */
  ghost function NextItem(w: World): Item<Block>
    requires CanMove(w, Receive)
  {
    w.core.clients[w.link.client].sent[w.link.done]
  }

  ghost predicate LagComesFirst(w: World)
    requires CanMove(w, Receive)
  {
    NextItem(w).lagged > 0 && !w.link.halfway
  }

  ghost function PutAll(browsers: seq<Browser>, frame: Frame): seq<Browser>
  {
    seq(|browsers|, b requires 0 <= b < |browsers| =>
      if browsers[b].until.None? then browsers[b].(box := AfterPut(browsers[b].box, frame)) else browsers[b])
  }

  ghost function Moved(sha: Sha, w: World, m: Move): World
    requires CanMove(w, m)
  {
    match m
    case Core(l) => w.(core := WritePath.Apply(sha, w.core, l))
    case Connect(capacity) =>
      w.(core := WritePath.Apply(sha, w.core, Open(capacity)),
         link := Link.Up(|w.core.clients|, 0, false, |w.feed|, w.received, w.dropped))
    case Disconnect => w.(link := Link.Down)
    case Receive =>
      var item := NextItem(w);
      if LagComesFirst(w) then
        w.(link := w.link.(halfway := true), dropped := w.dropped + item.lagged,
           feed := w.feed + [LagFrame(item.lagged)], place := w.place + [0],
           browsers := PutAll(w.browsers, LagFrame(item.lagged)))
      else
        w.(link := w.link.(halfway := false, done := w.link.done + 1), received := w.received + 1,
           feed := w.feed + [BlockFrame(item.value)], place := w.place + [Reached(w, w.link.done + 1) - 1],
           browsers := PutAll(w.browsers, BlockFrame(item.value)))
    case Join(mailbox) =>
      w.(browsers := w.browsers + [Browser(|w.feed|, None, Mailbox([], mailbox, 0), [], [])])
    case Leave(b) => w.(browsers := w.browsers[b := w.browsers[b].(until := Some(|w.feed|))])
    case Deliver(b) =>
      var r := w.browsers[b];
      var end := if r.until.Some? then r.until.value else |w.feed|;
      var at := if end >= r.since + |r.box.queue| then end - r.since - |r.box.queue| else 0;
      var (box, frame) := AfterGet(r.box);
      w.(browsers := w.browsers[b := r.(box := box, got := r.got + [frame], at := r.at + [at])])
  }

  ghost predicate Starts(sha: Sha, w: World) {
    && Initial(w.core) && w.link.Down? && w.received == w.dropped == 0
    && w.feed == [] && w.place == [] && w.browsers == []
  }

  ghost predicate RelayStep(sha: Sha, w: World, w': World) {
    exists m :: CanMove(w, m) && w' == Moved(sha, w, m)
  }

  ghost predicate RelayRun(sha: Sha, run: seq<World>) {
    run != [] && forall i :: 0 <= i < |run| - 1 ==> RelayStep(sha, run[i], run[i + 1])
  }

  // ----- what every reachable state satisfies --------------------------------------------------------

  /** The chain position behind the first n items of the connection. */
  ghost function Reached(w: World, n: nat): nat
    requires w.link.Up? && w.link.client < |w.core.clients| && n <= |w.core.clients[w.link.client].sent|
  {
    w.core.clients[w.link.client].first + Covered(w.core.clients[w.link.client].sent[..n])
  }

  ghost predicate LinkOk(w: World) {
    w.link.Up? ==>
      && w.link.client < |w.core.clients| && w.link.done <= |w.core.clients[w.link.client].sent|
      && (w.link.halfway ==> CanMove(w, Receive) && NextItem(w).lagged > 0)
  }

  /** No block at or behind this position has been dispatched. */
  ghost function Floor(w: World): nat
    requires LinkOk(w)
  {
    if w.link.Down? then NextToPublish(w.core) else Reached(w, w.link.done)
  }

  /** Every block dispatched stands in the chain at its place, and the places increase. */
  ghost predicate FeedOk(w: World)
    requires LinkOk(w)
  {
    && |w.place| == |w.feed|
    && (forall i :: 0 <= i < |w.feed| && w.feed[i].BlockFrame? ==>
          && |w.core.base| <= w.place[i] < |w.core.chain| && w.place[i] < Floor(w)
          && w.core.chain[w.place[i]] == w.feed[i].block)
    && (forall i, j :: 0 <= i < j < |w.feed| && w.feed[i].BlockFrame? && w.feed[j].BlockFrame? ==>
          w.place[i] < w.place[j])
  }

  ghost function CountBlocks(fs: seq<Frame>): nat {
    if fs == [] then 0 else CountBlocks(fs[..|fs| - 1]) + (if Last(fs).BlockFrame? then 1 else 0)
  }

  ghost function SumLags(fs: seq<Frame>): nat {
    if fs == [] then 0 else SumLags(fs[..|fs| - 1]) + (if Last(fs).LagFrame? then Last(fs).dropped else 0)
  }

  /** The counters count, and those of the current connection account for everything published since
      it was opened, up to what it has reached. */
  ghost predicate CountersOk(w: World)
    requires LinkOk(w)
  {
    && w.received == CountBlocks(w.feed) && w.dropped == SumLags(w.feed)
    && (w.link.Up? ==>
          && w.link.startReceived <= w.received && w.link.startDropped <= w.dropped
          && (w.received - w.link.startReceived) + (w.dropped - w.link.startDropped)
             == Covered(w.core.clients[w.link.client].sent[..w.link.done])
                + (if w.link.halfway then NextItem(w).lagged else 0))
  }

  /** The frames dispatched from the current connection are the first ones its pump sent. */
  ghost predicate FramesOk(w: World)
    requires LinkOk(w)
  {
    w.link.Up? ==>
      && w.link.startFeed <= |w.feed|
      && w.feed[w.link.startFeed..] == FramesOf(w.core.clients[w.link.client].sent[..w.link.done])
                                       + (if w.link.halfway then [LagFrame(NextItem(w).lagged)] else [])
  }

  /** The frames broadcast while the browser was subscribed. */
  ghost function Meant(w: World, r: Browser): seq<Frame>
    requires r.since <= EndOf(w, r) <= |w.feed|
  {
    w.feed[r.since..EndOf(w, r)]
  }

  ghost function EndOf(w: World, r: Browser): nat {
    if r.until.Some? then r.until.value else |w.feed|
  }

  ghost predicate BrowserOk(w: World, r: Browser) {
    && r.since <= EndOf(w, r) <= |w.feed|
    && Books(Meant(w, r), r.at, r.got, r.box)
  }

  ghost predicate BrowsersOk(w: World) {
    forall b :: 0 <= b < |w.browsers| ==> BrowserOk(w, w.browsers[b])
  }

  /** No client has been offered a block that is not being published yet. */
  ghost predicate OfferedOk(s: State) {
    forall c :: 0 <= c < |s.clients| ==> s.clients[c].upto <= NextToPublish(s)
  }

  ghost predicate RelayInv(sha: Sha, w: World) {
    && Inv(sha, w.core) && OfferedOk(w.core)
    && LinkOk(w) && FeedOk(w) && FramesOk(w) && CountersOk(w) && BrowsersOk(w)
  }

  // ----- storage-core's own steps -----------------------------------------------------------------------

  lemma OfferedStaysOk(sha: Sha, s: State, l: Label)
    requires Inv(sha, s) && OfferedOk(s) && WritePath.Enabled(s, l)
    ensures OfferedOk(WritePath.Apply(sha, s, l)) && Inv(sha, WritePath.Apply(sha, s, l))
    ensures NextToPublish(s) <= NextToPublish(WritePath.Apply(sha, s, l))
  {
    hide Inv, ChainOk, ServiceOk, DiskOk, MainOk, ClientsOk, WritePath.Apply, WritePath.Enabled;
    var s' := WritePath.Apply(sha, s, l);
    assert Step(sha, s, s');
    StepKeepsInv(sha, s, s');
    InvParts(sha, s');
    InvParts(sha, s);
    ClientsReachChain(s);
    ClientsReachChain(s');
    if s'.writer.InChain? {
      InChainStep(sha, s, l);
    } else {
      NothingIsRewritten(sha, s, s');
    }
  }

  /** The steps that lead to, or stay at, a block in the chain that is not being published yet. */
  lemma InChainStep(sha: Sha, s: State, l: Label)
    requires s.chain != [] && WritePath.Enabled(s, l) && WritePath.Apply(sha, s, l).writer.InChain?
    ensures var s' := WritePath.Apply(sha, s, l);
      && NextToPublish(s') == NextToPublish(s) && s'.chain != []
      && (s'.clients == s.clients || s.writer.InChain?)
      && (forall c :: 0 <= c < |s'.clients| ==>
            s'.clients[c].upto == if c < |s.clients| then s.clients[c].upto else NextToPublish(s))
  {
    hide BuildNext, Line, NewTicket, WellFormedEvent, Prune, AppendLine, Bounded;
  }

  lemma ClientsReachChain(s: State)
    requires ClientsOk(s)
    ensures s.chain != [] && forall c :: 0 <= c < |s.clients| ==> s.clients[c].upto <= |s.chain|
  {
    hide Accounts;
    forall c | 0 <= c < |s.clients| ensures s.clients[c].upto <= |s.chain| { assert ClientOk(s, c); }
  }

  /** A client's past is never revised. */
  lemma ClientGrows(sha: Sha, s: State, l: Label, c: nat)
    requires WritePath.Enabled(s, l) && c < |s.clients|
    ensures var s' := WritePath.Apply(sha, s, l);
      && c < |s'.clients| && s'.clients[c].first == s.clients[c].first && s.clients[c].sent <= s'.clients[c].sent
  {
    hide BuildNext, Line, NewTicket, WellFormedEvent, Prune, AppendLine, Offer;
  }

  lemma {:induction false} CoveredGrows<T>(items: seq<Item<T>>, n: nat)
    requires n <= |items|
    ensures Covered(items[..n]) <= Covered(items)
    decreases |items|
  {
    if n == |items| {
      assert items[..n] == items;
    } else {
      assert items[..|items| - 1][..n] == items[..n];
      CoveredGrows(items[..|items| - 1], n);
    }
  }

  /** What a connection has dispatched lies behind what has been published. */
  lemma FloorIsPublished(sha: Sha, w: World)
    requires Inv(sha, w.core) && OfferedOk(w.core) && LinkOk(w)
    ensures Floor(w) <= NextToPublish(w.core)
  {
    hide Inv, ChainOk, ServiceOk, DiskOk, MainOk, NextToPublish;
    if w.link.Up? {
      InvParts(sha, w.core);
      assert ClientOk(w.core, w.link.client);
      var cl := w.core.clients[w.link.client];
      assert Held(cl)[..w.link.done] == cl.sent[..w.link.done];
      CoveredGrows(Held(cl), w.link.done);
    }
  }

  lemma CoreKeepsRelay(sha: Sha, w: World, l: Label)
    requires RelayInv(sha, w) && WritePath.Enabled(w.core, l)
    ensures RelayInv(sha, Moved(sha, w, Core(l)))
  {
    hide Inv, OfferedOk, WritePath.Apply, WritePath.Enabled, Books, NextToPublish;
    var w' := Moved(sha, w, Core(l));
    OfferedStaysOk(sha, w.core, l);
    BaseIsFixed(sha, w.core, l);
    assert Step(sha, w.core, w'.core);
    NothingIsRewritten(sha, w.core, w'.core);
    if w.link.Up? {
      ClientGrows(sha, w.core, l, w.link.client);
      assert w'.core.clients[w.link.client].sent[..w.link.done] == w.core.clients[w.link.client].sent[..w.link.done];
    }
    forall b | 0 <= b < |w'.browsers| ensures BrowserOk(w', w'.browsers[b]) {
      assert BrowserOk(w, w.browsers[b]);
    }
  }

  lemma ConnectKeepsRelay(sha: Sha, w: World, capacity: nat)
    requires RelayInv(sha, w) && CanMove(w, Connect(capacity))
    ensures RelayInv(sha, Moved(sha, w, Connect(capacity)))
  {
    hide Inv, OfferedOk, Books, Prune;
    var w' := Moved(sha, w, Connect(capacity));
    OfferedStaysOk(sha, w.core, Open(capacity));
    assert w'.core.clients[w'.link.client].sent[..0] == [];
    forall b | 0 <= b < |w'.browsers| ensures BrowserOk(w', w'.browsers[b]) {
      assert BrowserOk(w, w.browsers[b]);
    }
  }

  lemma DisconnectKeepsRelay(sha: Sha, w: World)
    requires RelayInv(sha, w) && CanMove(w, Disconnect)
    ensures RelayInv(sha, Moved(sha, w, Disconnect))
  {
    hide Inv, OfferedOk, Books, NextToPublish;
    var w' := Moved(sha, w, Disconnect);
    FloorIsPublished(sha, w);
    forall b | 0 <= b < |w'.browsers| ensures BrowserOk(w', w'.browsers[b]) {
      assert BrowserOk(w, w.browsers[b]);
    }
  }

  // ----- a frame passes through -------------------------------------------------------------------------

  lemma FrameReachesBrowsers(w: World, w': World, frame: Frame)
    requires BrowsersOk(w) && w'.feed == w.feed + [frame] && w'.browsers == PutAll(w.browsers, frame)
    ensures BrowsersOk(w')
  {
    hide AfterPut, Books;
    forall b | 0 <= b < |w'.browsers| ensures BrowserOk(w', w'.browsers[b]) {
      var r, r' := w.browsers[b], w'.browsers[b];
      assert BrowserOk(w, r);
      if r.until.None? {
        assert Meant(w', r') == Meant(w, r) + [frame];
        PutKeepsBooks(Meant(w, r), r.at, r.got, r.box, frame);
      } else {
        assert Meant(w', r') == Meant(w, r);
      }
    }
  }

  lemma Counted(fs: seq<Frame>, f: Frame)
    ensures CountBlocks(fs + [f]) == CountBlocks(fs) + (if f.BlockFrame? then 1 else 0)
    ensures SumLags(fs + [f]) == SumLags(fs) + (if f.LagFrame? then f.dropped else 0)
  {
    assert (fs + [f])[..|fs|] == fs;
  }

  lemma OneMoreItem(w: World)
    requires CanMove(w, Receive)
    ensures Reached(w, w.link.done + 1) == Reached(w, w.link.done) + NextItem(w).lagged + 1
  {
    var sent := w.core.clients[w.link.client].sent;
    assert sent[..w.link.done + 1][..w.link.done] == sent[..w.link.done];
  }

  lemma FramesSnoc(items: seq<Item<Block>>, n: nat)
    requires n < |items|
    ensures FramesOf(items[..n + 1]) == FramesOf(items[..n]) + ItemFrames(items[n])
  {
    assert items[..n + 1][..n] == items[..n];
  }

  lemma ReceiveKeepsRelay(sha: Sha, w: World)
    requires RelayInv(sha, w) && CanMove(w, Receive)
    ensures RelayInv(sha, Moved(sha, w, Receive))
  {
    hide Inv, OfferedOk, BrowsersOk, Covered, CountBlocks, SumLags, PutAll, FramesOf;
    var w', item := Moved(sha, w, Receive), NextItem(w);
    OneMoreItem(w);
    FramesSnoc(w.core.clients[w.link.client].sent, w.link.done);
    if LagComesFirst(w) {
      assert w'.feed[w.link.startFeed..] == w.feed[w.link.startFeed..] + [LagFrame(item.lagged)];
      FrameReachesBrowsers(w, w', LagFrame(item.lagged));
      Counted(w.feed, LagFrame(item.lagged));
      assert w'.link.done == w.link.done;
    } else {
      assert w'.feed[w.link.startFeed..] == w.feed[w.link.startFeed..] + [BlockFrame(item.value)];
      FrameReachesBrowsers(w, w', BlockFrame(item.value));
      Counted(w.feed, BlockFrame(item.value));
      var n := SentPosition(sha, w.core, w.link.client, w.link.done);
      assert w'.place[|w.feed|] == n == Reached(w, w.link.done + 1) - 1;
      assert Floor(w') == n + 1;
    }
  }

  lemma OnlyBrowsersMoved(w: World, w': World)
    requires w' == w.(browsers := w'.browsers) && LinkOk(w)
    ensures LinkOk(w') && (FeedOk(w) ==> FeedOk(w'))
    ensures (FramesOk(w) ==> FramesOk(w')) && (CountersOk(w) ==> CountersOk(w'))
  {
    hide FramesOf, Covered, CountBlocks, SumLags, NextToPublish;
  }

  lemma BrowserMoveKeepsRelay(sha: Sha, w: World, m: Move)
    requires RelayInv(sha, w) && CanMove(w, m) && (m.Join? || m.Leave? || m.Deliver?)
    ensures RelayInv(sha, Moved(sha, w, m))
  {
    hide Inv, OfferedOk, Books, AfterGet, LinkOk, FeedOk, FramesOk, CountersOk;
    var w' := Moved(sha, w, m);
    OnlyBrowsersMoved(w, w');
    forall b | 0 <= b < |w'.browsers| ensures BrowserOk(w', w'.browsers[b]) {
      if m.Join? && b == |w.browsers| {
        assert Meant(w', w'.browsers[b]) == [];
        assert Books<Frame>([], [], [], Mailbox([], m.mailbox, 0)) by { EmptyBooks(m.mailbox); }
      } else {
        var r := w.browsers[b];
        assert BrowserOk(w, r);
        assert Meant(w', w'.browsers[b]) == Meant(w, r);
        if m.Deliver? && b == m.b {
          BooksAddUp(Meant(w, r), r.at, r.got, r.box);
          GetKeepsBooks(Meant(w, r), r.at, r.got, r.box);
        }
      }
    }
  }

  lemma EmptyBooks(capacity: nat)
    ensures Books<Frame>([], [], [], Mailbox([], capacity, 0))
  {
  }

  lemma BooksAddUp(offered: seq<Frame>, at: seq<nat>, got: seq<Frame>, m: Mailbox<Frame>)
    requires Books(offered, at, got, m)
    ensures |offered| == |got| + |m.queue| + m.dropped
  {
  }

  lemma MoveKeepsRelay(sha: Sha, w: World, m: Move)
    requires RelayInv(sha, w) && CanMove(w, m)
    ensures RelayInv(sha, Moved(sha, w, m))
  {
    hide RelayInv, CanMove, Moved;
    match m
    case Core(l) => assert WritePath.Enabled(w.core, l) by { CoreMoves(w, l); } CoreKeepsRelay(sha, w, l);
    case Connect(capacity) => ConnectKeepsRelay(sha, w, capacity);
    case Disconnect => DisconnectKeepsRelay(sha, w);
    case Receive => ReceiveKeepsRelay(sha, w);
    case _ => BrowserMoveKeepsRelay(sha, w, m);
  }

  lemma CoreMoves(w: World, l: Label)
    requires CanMove(w, Core(l))
    ensures WritePath.Enabled(w.core, l)
  {
  }

  lemma {:induction false} ReachableRelayInv(sha: Sha, run: seq<World>, i: nat)
    requires RelayRun(sha, run) && Starts(sha, run[0]) && i < |run|
    ensures RelayInv(sha, run[i])
  {
    hide RelayInv, CanMove, Moved;
    if i == 0 {
      StartIsOk(sha, run[0]);
    } else {
      ReachableRelayInv(sha, run, i - 1);
      assert RelayStep(sha, run[i - 1], run[i - 1 + 1]);
      var m :| CanMove(run[i - 1], m) && run[i] == Moved(sha, run[i - 1], m);
      MoveKeepsRelay(sha, run[i - 1], m);
    }
  }

  lemma StartIsOk(sha: Sha, w: World)
    requires Starts(sha, w)
    ensures RelayInv(sha, w)
  {
    hide Inv;
    InitialInv(sha, w.core);
  }

  // ----- what a browser can rely on ----------------------------------------------------------------------

  /** Whatever was dropped upstream, lost in reconnects or dropped by the hub, the blocks a browser
      receives within one run of storage-core come in strictly increasing index order. */
  lemma BlocksIncrease(sha: Sha, w: World, b: nat, p: nat, q: nat)
    requires RelayInv(sha, w) && |w.core.chain| <= U64 && b < |w.browsers|
    requires p < q < |w.browsers[b].got + w.browsers[b].box.queue|
    ensures
      var fs := w.browsers[b].got + w.browsers[b].box.queue;
      fs[p].BlockFrame? && fs[q].BlockFrame? ==> fs[p].block.index < fs[q].block.index
  {
    hide Inv, OfferedOk, NextToPublish, CountersOk, ChainOk, ServiceOk, DiskOk, MainOk, ClientsOk, Floor;
    var r := w.browsers[b];
    assert BrowserOk(w, r);
    var fs := r.got + r.box.queue;
    if fs[p].BlockFrame? && fs[q].BlockFrame? {
      var i := StandsAt(w, r, p);
      var j := StandsAt(w, r, q);
      if p < |r.at| && q < |r.at| { assert r.at[p] < r.at[q]; }
      assert i < j && w.place[i] < w.place[j];
      InvParts(sha, w.core);
      NewBlockAt(sha, w.core, w.place[i]);
      NewBlockAt(sha, w.core, w.place[j]);
    }
  }

  lemma StandsAt(w: World, r: Browser, p: nat) returns (i: nat)
    requires BrowserOk(w, r) && p < |r.got + r.box.queue|
    ensures i < |w.feed| && (r.got + r.box.queue)[p] == w.feed[i]
    ensures i == r.since + if p < |r.got| then r.at[p] else |Meant(w, r)| - |r.box.queue| + (p - |r.got|)
    ensures p < |r.got| ==> |r.at| == |r.got| && i < r.since + |Meant(w, r)| - |r.box.queue|
  {
    var offered := Meant(w, r);
    if p < |r.got| {
      i := r.since + r.at[p];
    } else {
      i := r.since + |offered| - |r.box.queue| + (p - |r.got|);
      assert offered[|offered| - |r.box.queue|..][p - |r.got|] == r.box.queue[p - |r.got|];
    }
  }

  /** Received, queued and dropped add up to what was broadcast while the browser was subscribed; and
      it has missed nothing of that exactly if its drop counter is still zero. */
  lemma BrowserBooksBalance(sha: Sha, w: World, b: nat)
    requires RelayInv(sha, w) && b < |w.browsers|
    ensures var r := w.browsers[b];
      && r.since <= EndOf(w, r) <= |w.feed|
      && |r.got| + |r.box.queue| + r.box.dropped == EndOf(w, r) - r.since
      && (r.box.dropped == 0 <==> r.got + r.box.queue == w.feed[r.since..EndOf(w, r)])
  {
    hide Inv, OfferedOk, LinkOk, FeedOk, CountersOk, FramesOk;
    var r := w.browsers[b];
    assert BrowserOk(w, r);
    NothingLostIffNothingDropped(Meant(w, r), r.at, r.got, r.box);
  }

  /** Between two frames, the upstream counters account for every block the connection has covered: the
      last block received stands exactly received + dropped behind where the connection subscribed. */
  lemma CountersAccountForEveryBlock(sha: Sha, w: World)
    requires RelayInv(sha, w) && w.link.Up? && !w.link.halfway && w.link.done > 0
    ensures
      var cl := w.core.clients[w.link.client];
      cl.sent[w.link.done - 1].value.index
        == Wrap(cl.first + (w.received - w.link.startReceived) + (w.dropped - w.link.startDropped) - 1)
  {
    hide Inv, OfferedOk, FeedOk, BrowsersOk, ChainOk, ServiceOk, DiskOk, MainOk, ClientsOk, Covered;
    var n := SentPosition(sha, w.core, w.link.client, w.link.done - 1);
    InvParts(sha, w.core);
    NewBlockAt(sha, w.core, n);
  }

  /** The frames at all other positions. */
  ghost function Without(offered: seq<Frame>, at: seq<nat>): seq<Frame> {
    if offered == [] then []
    else
      var n := |offered| - 1;
      if at != [] && Last(at) == n then Without(offered[..n], at[..|at| - 1])
      else Without(offered[..n], at) + [offered[n]]
  }

  lemma {:induction false} PickedAndMissed(offered: seq<Frame>, at: seq<nat>, got: seq<Frame>)
    requires PickedFrom(offered, at, got)
    ensures SumLags(got) + SumLags(Without(offered, at)) == SumLags(offered)
    ensures CountBlocks(got) + CountBlocks(Without(offered, at)) == CountBlocks(offered)
    decreases |offered|
  {
    if offered != [] {
      hide SumLags, CountBlocks;
      var n := |offered| - 1;
      assert offered == offered[..n] + [offered[n]];
      Counted(offered[..n], offered[n]);
      if at != [] && Last(at) == n {
        var front := got[..|got| - 1];
        assert got == front + [offered[n]];
        PickedAndMissed(offered[..n], at[..|at| - 1], front);
        Counted(front, offered[n]);
      } else {
        PickedAndMissed(offered[..n], at, got);
        Counted(Without(offered[..n], at), offered[n]);
      }
    }
  }

  /** The feed positions a browser has received frames from. */
  ghost function ReceivedFrom(r: Browser): seq<nat> {
    seq(|r.at|, i requires 0 <= i < |r.at| => r.since + r.at[i])
  }

  /** What a browser is told about losses is what storage-core announced in the frames that reached it,
      and nothing else: with the announcements in the frames it did not get, that makes up all of
      storage-core's. The hub never adds a lag frame for its own drops, so of the blocks it missed it
      hears nothing. */
  lemma OnlyUpstreamLossesAreAnnounced(sha: Sha, w: World, b: nat)
    requires RelayInv(sha, w) && b < |w.browsers|
    ensures
      var got, missed := w.browsers[b].got, Without(w.feed, ReceivedFrom(w.browsers[b]));
      SumLags(got) + SumLags(missed) == w.dropped && CountBlocks(got) + CountBlocks(missed) == w.received
  {
    hide Inv, OfferedOk, LinkOk, FeedOk, FramesOk, SumLags, CountBlocks, Without;
    var r := w.browsers[b];
    assert BrowserOk(w, r);
    assert PickedFrom(w.feed, ReceivedFrom(r), r.got);
    PickedAndMissed(w.feed, ReceivedFrom(r), r.got);
  }

  lemma {:induction false} FramesGrow(items: seq<Item<Block>>, n: nat)
    requires n <= |items|
    ensures FramesOf(items[..n]) <= FramesOf(items)
    ensures n < |items| && items[n].lagged > 0 ==> FramesOf(items[..n]) + [LagFrame(items[n].lagged)] <= FramesOf(items)
    decreases |items|
  {
    if n == |items| {
      assert items[..n] == items;
    } else {
      var front := items[..|items| - 1];
      assert front[..n] == items[..n];
      FramesGrow(front, n);
      if n == |front| { assert front == items[..n] && Last(items) == items[n]; }
    }
  }

  /** End to end: a browser that joined before the current connection was made and whose drop counter is
      zero sees no silent gap in that connection either. Of two consecutive block frames, the second's
      index is past the first's by one and what the lag frame between them announces. */
  lemma LosslessBrowserSeesNoSilentGap(sha: Sha, w: World, b: nat, p: nat, q: nat)
    requires RelayInv(sha, w) && w.link.Up? && b < |w.browsers|
    requires var r := w.browsers[b]; r.until.None? && r.since <= w.link.startFeed <= r.since + p && r.box.dropped == 0
    requires ConsecutiveBlocks(w.browsers[b].got + w.browsers[b].box.queue, p, q)
    ensures
      var fs := w.browsers[b].got + w.browsers[b].box.queue;
      var n := FeedOrder.Announced(fs, p, q);
      && fs[q].block.index == Wrap(fs[p].block.index + 1 + n)
      && (n == 0 ==> q == p + 1 && fs[q].block.prevHash == fs[p].block.hash)
  {
    hide Inv, RelayInv, FramesOf, ConsecutiveBlocks, FeedOrder.Announced;
    var r := w.browsers[b];
    var fs, d := r.got + r.box.queue, w.link.startFeed - r.since;
    LosslessFrames(sha, w, b);
    SameInTail(fs, FramesOf(w.core.clients[w.link.client].sent), d, p, q);
    RelayParts(sha, w);
    NoSilentGap(sha, w.core, w.link.client, p - d, q - d);
  }

  lemma RelayParts(sha: Sha, w: World)
    requires RelayInv(sha, w)
    ensures Inv(sha, w.core) && LinkOk(w)
  {
  }

  lemma LosslessFrames(sha: Sha, w: World, b: nat)
    requires RelayInv(sha, w) && w.link.Up? && b < |w.browsers|
    requires var r := w.browsers[b]; r.until.None? && r.since <= w.link.startFeed && r.box.dropped == 0
    ensures var r := w.browsers[b];
      && w.link.client < |w.core.clients| && w.link.startFeed - r.since <= |r.got + r.box.queue|
      && (r.got + r.box.queue)[w.link.startFeed - r.since..] <= FramesOf(w.core.clients[w.link.client].sent)
  {
    hide Inv, OfferedOk, FeedOk, CountersOk, FramesOf, BrowsersOk;
    var r := w.browsers[b];
    BrowserBooksBalance(sha, w, b);
    FramesGrow(w.core.clients[w.link.client].sent, w.link.done);
    assert (r.got + r.box.queue)[w.link.startFeed - r.since..] == w.feed[w.link.startFeed..];
  }

  lemma SameInTail(fs: seq<Frame>, gs: seq<Frame>, d: nat, p: nat, q: nat)
    requires d <= p && ConsecutiveBlocks(fs, p, q) && fs[d..] <= gs
    ensures ConsecutiveBlocks(gs, p - d, q - d)
    ensures gs[p - d] == fs[p] && gs[q - d] == fs[q]
    ensures FeedOrder.Announced(gs, p - d, q - d) == FeedOrder.Announced(fs, p, q)
  {
    forall i | p <= i <= q ensures gs[i - d] == fs[i] {
      assert fs[d..][i - d] == fs[i];
    }
    assert forall i :: p - d < i < q - d ==> gs[i] == fs[i + d];
  }

  /** For every run. */
  lemma BlocksIncreaseInAnyRun(sha: Sha, run: seq<World>, i: nat, b: nat, p: nat, q: nat)
    requires RelayRun(sha, run) && Starts(sha, run[0]) && i < |run| && |run[i].core.chain| <= U64
    requires b < |run[i].browsers| && p < q < |run[i].browsers[b].got|
    requires run[i].browsers[b].got[p].BlockFrame? && run[i].browsers[b].got[q].BlockFrame?
    ensures run[i].browsers[b].got[p].block.index < run[i].browsers[b].got[q].block.index
  {
    hide RelayInv, RelayRun, Starts;
    ReachableRelayInv(sha, run, i);
    BlocksIncrease(sha, run[i], b, p, q);
  }
}
