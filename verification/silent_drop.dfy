/** A browser that keeps up badly, step by step: the hub pushes a block out of its mailbox, and nothing the
    browser receives tells it so. */
module SilentDrop {
  import opened Records
  import opened BoundedQueue
  import opened Broadcast
  import opened Blocks
  import opened Chains
  import opened Storage
  import opened WritePath
  import opened FeedOrder
  import opened Hub
  import opened Relay

  /** The backend is storage-core's one client and has dispatched everything; nothing is under way. */
  ghost predicate Quiet(s: State) {
    && s.writer == Writer.Waiting && s.main.Serving? && s.chain != [] && !s.log.bad
    && s.queue.items == [] && !s.queue.closed && s.queue.capacity >= 1
    && (forall i :: 0 <= i < |s.accepted| ==> s.accepted[i].ticket == i)
    && s.subs == [0] && |s.clients| == 1 && Listening(s.clients[0])
  }

  ghost predicate Listening(cl: Client) {
    && cl.ring.buffer == [] && cl.ring.capacity >= 1 && cl.ring.lagged == 0 && !cl.ring.closed
    && cl.hand.None? && !cl.pumpDone && !cl.gone
  }

  // ----- one block, from handler to socket ---------------------------------------------------------------

  ghost function Asked(s: State, e: Event): Request {
    Request(|s.accepted|, e)
  }

  ghost function Next(sha: Sha, s: State, e: Event, now: string): Block
    requires s.chain != []
  {
    BuildNext(sha, s.chain, e, now)
  }

  /** After it has published it and replied. */
  ghost function PublishedState(s: State): State
    requires s.writer.Persisted? && |s.clients| == 1
  {
    var r, b, cl := s.writer.request, s.writer.block, s.clients[0];
    s.(chain := s.chain + [b], writer := Writer.Waiting, served := s.served + [Served(r, Created(b))],
       clients := [cl.(ring := cl.ring.(buffer := [b]), upto := cl.upto + 1)])
  }

  /** After the pump has sent it. */
  ghost function SentState(s: State, b: Block): State
    requires |s.clients| == 1
  {
    var cl := s.clients[0];
    s.(clients := [cl.(ring := cl.ring.(buffer := []), sent := cl.sent + [Item(b, 0)])])
  }

  lemma Extend(sha: Sha, run: seq<World>, m: Move) returns (run': seq<World>)
    requires RelayRun(sha, run) && run != [] && CanMove(Last(run), m)
    ensures run' == run + [Moved(sha, Last(run), m)] && RelayRun(sha, run')
  {
    hide CanMove, Moved;
    run' := run + [Moved(sha, Last(run), m)];
    assert RelayStep(sha, Last(run), Moved(sha, Last(run), m));
    forall i | 0 <= i < |run'| - 1 ensures RelayStep(sha, run'[i], run'[i + 1]) {
      if i < |run| - 1 { assert RelayStep(sha, run[i], run[i + 1]); }
    }
  }

  lemma MoveCore(sha: Sha, run: seq<World>, l: Label, s': State) returns (run': seq<World>)
    requires RelayRun(sha, run) && run != []
    requires WritePath.Enabled(Last(run).core, l) && WritePath.Apply(sha, Last(run).core, l) == s'
    ensures run' != [] && RelayRun(sha, run') && run'[0] == run[0] && Last(run') == Last(run).(core := s')
  {
    hide WritePath.Enabled, WritePath.Apply, RelayRun;
    run' := Extend(sha, run, Core(l));
  }

  lemma AcceptAndBuild(sha: Sha, run: seq<World>, e: Event, now: string) returns (run': seq<World>)
    requires RelayRun(sha, run) && run != [] && Quiet(Last(run).core) && WellFormedEvent(e)
    ensures run' != [] && RelayRun(sha, run') && run'[0] == run[0]
    ensures var s := Last(run).core;
      var built := Hashed(Asked(s, e), Next(sha, s, e, now));
      Last(run') == Last(run).(core := s.(accepted := s.accepted + [Asked(s, e)], writer := built))
  {
    hide RelayRun, BuildNext, WellFormedEvent;
    var s, r := Last(run).core, Asked(Last(run).core, e);
    var s1 := s.(accepted := s.accepted + [r], queue := s.queue.(items := [r]));
    var s2 := s1.(queue := s.queue, writer := Popped(r));
    var s3 := s2.(writer := Hashed(r, Next(sha, s, e, now)));
    run' := MoveCore(sha, run, Accept(r), s1);
    run' := MoveCore(sha, run', Pop, s2);
    run' := MoveCore(sha, run', Build(now), s3);
  }

  lemma PersistAndPublish(sha: Sha, run: seq<World>, e: Event, now: string) returns (run': seq<World>)
    requires RelayRun(sha, run) && run != []
    requires var s := Last(run).core;
      && s.writer.Hashed? && !s.log.bad && s.main.Serving?
      && s.subs == [0] && |s.clients| == 1 && Listening(s.clients[0])
    ensures run' != [] && RelayRun(sha, run') && run'[0] == run[0]
    ensures var s, b := Last(run).core, Last(run).core.writer.block;
      var onDisk := s.(writer := Persisted(s.writer.request, b), log := AppendLine(s.log, Line(b), Works));
      Last(run') == Last(run).(core := PublishedState(onDisk))
  {
    hide RelayRun, BlockText;
    var s := Last(run).core;
    var r, b, cl := s.writer.request, s.writer.block, s.clients[0];
    var s1 := s.(writer := Persisted(r, b), log := AppendLine(s.log, Line(b), Works));
    var s2 := s1.(chain := s.chain + [b], writer := InChain(r, b));
    var s3 := s2.(writer := Fanning(r, b, 0));
    assert OfferTo(cl, b) == cl.(ring := cl.ring.(buffer := [b]), upto := cl.upto + 1);
    var s4 := s3.(writer := Fanning(r, b, 1), clients := [cl.(ring := cl.ring.(buffer := [b]), upto := cl.upto + 1)]);
    var s5 := s4.(writer := Writer.Announced(r, b));
    var s6 := s5.(writer := Writer.Waiting, served := s.served + [Served(r, Created(b))]);
    run' := MoveCore(sha, run, Persist(Works), s1);
    run' := MoveCore(sha, run', PushPersisted, s2);
    run' := MoveCore(sha, run', BeginPublish, s3);
    run' := MoveCore(sha, run', PublishNext, s4);
    run' := MoveCore(sha, run', EndPublish, s5);
    run' := MoveCore(sha, run', ReplyCreated, s6);
  }

  lemma Pumped(sha: Sha, run: seq<World>, b: Block) returns (run': seq<World>)
    requires RelayRun(sha, run) && run != []
    requires var s := Last(run).core;
      |s.clients| == 1 && s.clients[0].ring.buffer == [b] && s.clients[0].ring.lagged == 0
      && s.clients[0].hand.None? && !s.clients[0].pumpDone
    ensures run' != [] && RelayRun(sha, run') && run'[0] == run[0]
    ensures Last(run') == Last(run).(core := SentState(Last(run).core, b))
  {
    hide RelayRun;
    var s, cl := Last(run).core, Last(run).core.clients[0];
    assert cl.ring.buffer[1..] == [];
    assert s.clients == [cl] && Take(cl.ring) == (cl.ring.(buffer := []), Item(b, 0));
    var s1 := s.(clients := [cl.(ring := cl.ring.(buffer := []), hand := Some(Item(b, 0)))]);
    run' := MoveCore(sha, run, PumpTake(0), s1);
    run' := MoveCore(sha, run', PumpSend(0), SentState(s, b));
  }

  /** The backend has dispatched all that storage-core has sent, and one browser is at the hub. */
  ghost predicate Ready(w: World) {
    && Quiet(w.core) && w.link.Up? && w.link.client == 0 && !w.link.halfway
    && w.link.done == |w.core.clients[0].sent| && w.dropped == 0
    && |w.browsers| == 1 && w.browsers[0].since == 0 && w.browsers[0].until.None?
  }

  /** One more block goes all the way into the browser's mailbox. */
  lemma OneBlockThrough(sha: Sha, run: seq<World>, e: Event, now: string) returns (run': seq<World>)
    requires RelayRun(sha, run) && run != [] && Ready(Last(run)) && WellFormedEvent(e)
    ensures run' != [] && RelayRun(sha, run') && run'[0] == run[0] && Ready(Last(run'))
    ensures var w, w' := Last(run), Last(run');
      var b := Next(sha, w.core, e, now);
      && w'.core.chain == w.core.chain + [b] && w'.core.base == w.core.base
      && w'.feed == w.feed + [BlockFrame(b)]
      && w'.browsers == [w.browsers[0].(box := AfterPut(w.browsers[0].box, BlockFrame(b)))]
  {
    hide RelayRun, AfterPut, BuildNext, BlockText, WellFormedEvent;
    var w := Last(run);
    var b := Next(sha, w.core, e, now);
    run' := AcceptAndBuild(sha, run, e, now);
    run' := PersistAndPublish(sha, run', e, now);
    run' := Pumped(sha, run', b);
    run' := Received(sha, run', b);
  }

  lemma Received(sha: Sha, run: seq<World>, b: Block) returns (run': seq<World>)
    requires RelayRun(sha, run) && run != []
    requires var w := Last(run);
      && w.link.Up? && w.link.client == 0 && !w.link.halfway && |w.core.clients| == 1
      && |w.core.clients[0].sent| == w.link.done + 1 && w.core.clients[0].sent[w.link.done] == Item(b, 0)
      && |w.browsers| == 1 && w.browsers[0].until.None?
    ensures run' != [] && RelayRun(sha, run') && run'[0] == run[0]
    ensures var w, w' := Last(run), Last(run');
      && w'.core == w.core && w'.link == w.link.(done := w.link.done + 1, halfway := false) && w'.dropped == w.dropped
      && w'.feed == w.feed + [BlockFrame(b)]
      && w'.browsers == [w.browsers[0].(box := AfterPut(w.browsers[0].box, BlockFrame(b)))]
  {
    hide RelayRun, AfterPut, Covered;
    run' := Extend(sha, run, Receive);
  }

  // ----- from the start -----------------------------------------------------------------------------------

  /** There is such a beginning: a ledger holding its genesis block. */
  lemma ThereIsAStart(sha: Sha, now: string) returns (w: World)
    ensures Starts(sha, w)
  {
    hide Genesis, ReadLog, Line;
    var g := Genesis(sha, now);
    GenesisIsReadable(sha, now);
    assert WellFormedEvent([g][0].event);
    ReadOneLine(g, "", 0);
    EmptyLog(1);
    assert Line(g) + "" == Line(g) && [g] + [] == [g];
    var queue, log := Queue([], 256, false), Log(Line(g), false);
    var s := State(queue, Writer.Waiting, [g], log, [], [], Serving, Line(g), [g], [], []);
    w := World(s, Link.Down, 0, 0, [], [], []);
  }

  /** The backend connects and one browser joins. */
  lemma ConnectAndJoin(sha: Sha, start: World, capacity: nat, mailbox: nat) returns (run: seq<World>)
    requires Starts(sha, start) && capacity >= 1
    ensures run != [] && RelayRun(sha, run) && run[0] == start
    ensures var w := Last(run);
      && Ready(w) && w.core.chain == start.core.chain && w.core.base == start.core.base && w.feed == []
      && w.browsers == [Browser(0, None, Mailbox([], mailbox, 0), [], [])]
  {
    hide ReadLog, RelayRun;
    assert RelayRun(sha, [start]) by { OneWorld(sha, start); }
    run := Extend(sha, [start], Connect(capacity));
    assert Prune([], []) == [];
    run := Extend(sha, run, Join(mailbox));
  }

  lemma OneWorld(sha: Sha, w: World)
    ensures RelayRun(sha, [w])
  {
  }

  /** The browser takes the first frame. */
  lemma TakeFirst(sha: Sha, run: seq<World>) returns (run': seq<World>)
    requires RelayRun(sha, run) && run != [] && Ready(Last(run)) && |Last(run).browsers[0].box.queue| == 1
    ensures run' != [] && RelayRun(sha, run') && run'[0] == run[0] && Ready(Last(run'))
    ensures var w, w' := Last(run), Last(run');
      var r, r' := w.browsers[0], w'.browsers[0];
      && w'.core == w.core && w'.feed == w.feed
      && r'.box == r.box.(queue := []) && r'.got == r.got + [r.box.queue[0]]
  {
    hide RelayRun, Quiet;
    run' := Extend(sha, run, Deliver(0));
  }

  /** The mailbox after the first frame has been taken and j more have come: the newest of those. */
  ghost predicate Filled(w: World, mailbox: nat, j: nat) {
    && Ready(w) && mailbox >= 1 && |w.feed| == j + 1
    && w.core.base != [] && |w.core.chain| == |w.core.base| + j + 1
    && (forall i :: 0 <= i <= j ==> w.feed[i] == BlockFrame(w.core.chain[|w.core.base| + i]))
    && w.browsers[0].got == [w.feed[0]]
    && w.browsers[0].box == Mailbox(Kept(w.feed, mailbox), mailbox, if j <= mailbox then 0 else j - mailbox)
  }

  ghost function Kept(feed: seq<Frame>, mailbox: nat): seq<Frame>
    requires feed != []
  {
    if |feed| - 1 <= mailbox then feed[1..] else feed[|feed| - mailbox..]
  }

  lemma KeptAfterPut(feed: seq<Frame>, f: Frame, mailbox: nat)
    requires feed != [] && mailbox >= 1
    ensures var j := |feed| - 1;
      AfterPut(Mailbox(Kept(feed, mailbox), mailbox, if j <= mailbox then 0 else j - mailbox), f)
      == Mailbox(Kept(feed + [f], mailbox), mailbox, if j + 1 <= mailbox then 0 else j + 1 - mailbox)
  {
  }

  lemma {:induction false} ManyThrough(sha: Sha, run: seq<World>, e: Event, now: string, mailbox: nat, j: nat)
    returns (run': seq<World>)
    requires RelayRun(sha, run) && run != [] && Filled(Last(run), mailbox, 0) && WellFormedEvent(e)
    ensures run' != [] && RelayRun(sha, run') && run'[0] == run[0] && Filled(Last(run'), mailbox, j)
    decreases j
  {
    hide RelayRun, WellFormedEvent, Quiet, AfterPut, BuildNext, Kept;
    if j == 0 {
      run' := run;
    } else {
      run' := ManyThrough(sha, run, e, now, mailbox, j - 1);
      var w := Last(run');
      KeptAfterPut(w.feed, BlockFrame(Next(sha, w.core, e, now)), mailbox);
      run' := OneBlockThrough(sha, run', e, now);
    }
  }

  /** From every start, for every size of the ring upstream and of the mailbox: a browser that takes one
      frame and then leaves as many as its mailbox holds and one more loses exactly one block. What it
      has and holds are block frames only, the second block's index is two past the first's, and there
      is no lag frame between them: storage-core lost nothing and announced nothing, and the hub does not
      announce its own drop. */
  lemma HubDropsAreSilent(sha: Sha, start: World, e: Event, now: string, capacity: nat, mailbox: nat)
    returns (run: seq<World>)
    requires Starts(sha, start) && WellFormedEvent(e) && capacity >= 1 && mailbox >= 1
    ensures run != [] && RelayRun(sha, run) && run[0] == start && |Last(run).browsers| == 1
    ensures var w, r := Last(run), Last(run).browsers[0];
      var fs := r.got + r.box.queue;
      && r.box.dropped == 1 && w.dropped == 0 && |fs| == mailbox + 1
      && ConsecutiveBlocks(fs, 0, 1) && FeedOrder.Announced(fs, 0, 1) == 0
      && fs[1].block.index == Wrap(fs[0].block.index + 2)
  {
    hide RelayRun, WellFormedEvent, Quiet, BuildNext, Starts;
    run := ConnectAndJoin(sha, start, capacity, mailbox);
    var base := Last(run).core.base;
    assert base != [] && Last(run).core.chain == base by { StartsOnBase(sha, start); }
    var w := Last(run);
    run := OneBlockThrough(sha, run, e, now);
    assert AfterPut(w.browsers[0].box, Last(run).feed[0]).queue == Last(run).feed;
    run := TakeFirst(sha, run);
    assert Last(run).feed[1..] == [];
    run := ManyThrough(sha, run, e, now, mailbox, mailbox + 1);
    var v := Last(run);
    assert Kept(v.feed, mailbox)[0] == v.feed[2];
    IndicesOf(sha, run);
  }

  lemma StartsOnBase(sha: Sha, w: World)
    requires Starts(sha, w)
    ensures w.core.base != [] && w.core.chain == w.core.base
  {
    hide ReadLog;
  }

  lemma IndicesOf(sha: Sha, run: seq<World>)
    requires RelayRun(sha, run) && Starts(sha, run[0])
    ensures run != [] && var s := Last(run).core;
      forall i :: |s.base| <= i < |s.chain| ==> s.chain[i].index == Wrap(i)
  {
    hide RelayInv, RelayRun, Starts, Inv, ServiceOk, DiskOk, ClientsOk, MainOk, Grown;
    RunIsNonempty(sha, run);
    var s := Last(run).core;
    ReachableRelayInv(sha, run, |run| - 1);
    RelayParts(sha, Last(run));
    InvParts(sha, s);
    forall i | |s.base| <= i < |s.chain| ensures s.chain[i].index == Wrap(i) {
      NewBlockAt(sha, s, i);
    }
  }

  lemma RunIsNonempty(sha: Sha, run: seq<World>)
    requires RelayRun(sha, run)
    ensures run != []
  {
  }
}
