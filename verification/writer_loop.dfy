/** writer_loop itself, as the loop it is: pop, hash, persist, publish, broadcast, reply. The clock
    and the disk are parameters; a wait on an open, empty queue ends the burst. */
module WriterLoop {
  import opened Records
  import opened BoundedQueue
  import opened Broadcast
  import opened Blocks
  import opened Chains
  import opened Storage
  import opened WritePath

  /** The ledger as the writer leaves it, with the replies it gave and the blocks it broadcast. */
  datatype Burst = Burst(chain: seq<Block>, log: Log, served: seq<Served>, broadcast: seq<Block>)

  /** One request, start to finish: nothing is published or broadcast unless it was persisted. */
  ghost function ServeOne(sha: Sha, b: Burst, request: Request, now: string, disk: Disk): Burst
    requires b.chain != []
  {
    var block := BuildNext(sha, b.chain, request.event, now);
    var log := AppendLine(b.log, Line(block), disk);
    if log.bad then b.(log := log, served := b.served + [Served(request, StorageFailure)])
    else Burst(b.chain + [block], log, b.served + [Served(request, Created(block))], b.broadcast + [block])
  }

  ghost function ServeFirst(sha: Sha, b: Burst, backlog: seq<Request>, clock: nat -> string, disk: nat -> Disk,
                            n: nat): (r: Burst)
    requires b.chain != [] && n <= |backlog|
    ensures r.chain != []
  {
    if n == 0 then b
    else ServeOne(sha, ServeFirst(sha, b, backlog, clock, disk, n - 1), backlog[n - 1], clock(n - 1), disk(n - 1))
  }

  lemma ServeOneMore(sha: Sha, b: Burst, backlog: seq<Request>, clock: nat -> string, disk: nat -> Disk, n: nat)
    requires b.chain != [] && n < |backlog|
    ensures ServeFirst(sha, b, backlog, clock, disk, n + 1)
         == ServeOne(sha, ServeFirst(sha, b, backlog, clock, disk, n), backlog[n], clock(n), disk(n))
  {
    hide ServeOne;
  }

  lemma ServeNone(sha: Sha, b: Burst, backlog: seq<Request>, clock: nat -> string, disk: nat -> Disk)
    requires b.chain != []
    ensures ServeFirst(sha, b, backlog, clock, disk, 0) == b
  {
    hide ServeOne;
  }

  /** A ring after a run of offers. */
  ghost function OfferAll(r: Ring<Block>, blocks: seq<Block>): (r': Ring<Block>)
    requires Bounded(r)
    ensures Bounded(r')
  {
    if blocks == [] then r else Offer(OfferAll(r, blocks[..|blocks| - 1]), Last(blocks))
  }

  lemma OfferOneMore(r: Ring<Block>, blocks: seq<Block>, b: Block)
    requires Bounded(r)
    ensures OfferAll(r, blocks + [b]) == Offer(OfferAll(r, blocks), b) && OfferAll(r, []) == r
  {
    hide Offer;
    assert (blocks + [b])[..|blocks|] == blocks;
  }

  /** What a burst has done to one subscription. */
  twostate predicate Fed(s: Subscription, live: set<Subscription>, blocks: seq<Block>)
    reads s
  {
    old(s.Valid()) && s.Valid() && (s in live ==> s.View() == OfferAll(old(s.View()), blocks))
  }

  /** The broadcaster's list has been pruned from subs and still holds everybody who is live. */
  ghost predicate Feeding(broadcaster: Broadcaster, live: set<Subscription>, subs: seq<Subscription>)
    reads broadcaster, subs, broadcaster.subscribers
  {
    && broadcaster.Valid()
    && (forall i :: 0 <= i < |broadcaster.subscribers| ==> broadcaster.subscribers[i] in subs)
    && (forall i :: 0 <= i < |subs| ==> subs[i].Valid() && (subs[i] in live ==> subs[i] in broadcaster.subscribers))
  }

  /** Drains the backlog in order. Every request is answered exactly once, by the block built for it
      or by the storage failure, and every live subscriber has been offered exactly the blocks that
      were created, in chain order. */
  method Run(sha: Sha, queue: WriteQueue, chain: Chain, log: LogFile, broadcaster: Broadcaster,
             live: set<Subscription>, clock: nat -> string, disk: nat -> Disk)
    returns (served: seq<Served>, ghost broadcast: seq<Block>)
    requires chain.Valid() && broadcaster.Valid()
    modifies queue, chain, log, broadcaster, broadcaster.subscribers
    ensures queue.queue == [] && queue.closed == old(queue.closed)
    ensures chain.Valid() && broadcaster.Valid()
    ensures Burst(chain.blocks, log.View(), served, broadcast)
         == ServeFirst(sha, Burst(old(chain.blocks), old(log.View()), [], []), old(queue.queue), clock, disk,
             |old(queue.queue)|)
    ensures forall i :: 0 <= i < |old(broadcaster.subscribers)| ==>
              Fed(old(broadcaster.subscribers)[i], live, broadcast)
  {
    hide ServeFirst, Offer, OfferAll, Live, AppendLine, BuildNext, Line, MakeBlock, Bounded, Distinct;
    ghost var backlog := queue.queue;
    ghost var start := Burst(chain.blocks, log.View(), [], []);
    ghost var subs := broadcaster.subscribers;
    served, broadcast := [], [];
    var n := 0;
    ServeNone(sha, start, backlog, clock, disk);
    assert forall i :: 0 <= i < |subs| ==> subs[i].Valid();
    forall i | 0 <= i < |subs| ensures Fed(subs[i], live, []) { OfferOneMore(subs[i].View(), [], start.chain[0]); }
    while true
      invariant n <= |backlog| && queue.queue == backlog[n..] && queue.closed == old(queue.closed)
      invariant chain.Valid() && Feeding(broadcaster, live, subs)
      invariant Burst(chain.blocks, log.View(), served, broadcast) == ServeFirst(sha, start, backlog, clock, disk, n)
      invariant forall i :: 0 <= i < |subs| ==> Fed(subs[i], live, broadcast)
      decreases |backlog| - n
    {
      var request := queue.Pop();
      if !request.Took? {
        break;
      }
      var reply := Serve(sha, chain, log, broadcaster, live, request.request, clock(n), disk(n), subs);
      if reply.Created? {
        forall i | 0 <= i < |subs| ensures Fed(subs[i], live, broadcast + [reply.block]) {
          OfferOneMore(old(subs[i].View()), broadcast, reply.block);
        }
      }
      ServeOneMore(sha, start, backlog, clock, disk, n);
      served := served + [Served(request.request, reply)];
      broadcast := broadcast + (if reply.Created? then [reply.block] else []);
      n := n + 1;
    }
  }

  /** The body of the loop. A failed append changes neither the chain nor any subscriber. */
  method Serve(sha: Sha, chain: Chain, log: LogFile, broadcaster: Broadcaster, live: set<Subscription>,
               request: Request, now: string, disk: Disk, ghost subs: seq<Subscription>)
    returns (reply: Reply)
    requires chain.Valid() && Feeding(broadcaster, live, subs)
    modifies chain, log, broadcaster, broadcaster.subscribers
    ensures chain.Valid() && Feeding(broadcaster, live, subs)
    ensures log.View() == AppendLine(old(log.View()), Line(BuildNext(sha, old(chain.blocks), request.event, now)), disk)
    ensures log.bad ==> reply == StorageFailure && chain.blocks == old(chain.blocks)
    ensures !log.bad ==> reply == Created(BuildNext(sha, old(chain.blocks), request.event, now))
                         && chain.blocks == old(chain.blocks) + [reply.block]
    ensures forall i :: 0 <= i < |subs| ==>
      OfferedTo(subs[i], !log.bad && subs[i] in live, BuildNext(sha, old(chain.blocks), request.event, now))
  {
    hide Offer, Live, AppendLine, Line, ComputeHash, Bounded;
    var created := MakeBlock(sha, Wrap(|chain.blocks|), now, request.event, Last(chain.blocks).hash);
    var ok := log.AppendBlock(created, disk);
    if !ok {
      return StorageFailure;
    }
    var published := chain.PushPersisted(created);
    FanOut(broadcaster, published, live, subs);
    reply := Created(published);
  }

  method FanOut(broadcaster: Broadcaster, block: Block, live: set<Subscription>, ghost subs: seq<Subscription>)
    requires Feeding(broadcaster, live, subs)
    modifies broadcaster, broadcaster.subscribers
    ensures Feeding(broadcaster, live, subs)
    ensures forall i :: 0 <= i < |subs| ==> OfferedTo(subs[i], subs[i] in live, block)
  {
    hide Offer, Live;
    LiveMembers(broadcaster.subscribers, live);
    broadcaster.Publish(block, live);
  }

  // ----- the loop body is a run of the machine -----------------------------------------------------

  /** The parts of a state the writer's result is read from. */
  ghost predicate SameLedger(s: State, s': State) {
    s'.chain == s.chain && s'.log == s.log && s'.served == s.served && s'.queue == s.queue && s'.base == s.base
  }

  lemma Extend(sha: Sha, run: seq<State>, l: Label) returns (run': seq<State>)
    requires IsRun(sha, run) && Inv(sha, Last(run)) && Enabled(Last(run), l)
    ensures run' != [] && IsRun(sha, run') && run'[0] == run[0]
    ensures Last(run') == Apply(sha, Last(run), l) && Inv(sha, Last(run'))
  {
    hide Inv, Enabled, Apply;
    run' := run + [Apply(sha, Last(run), l)];
    assert Step(sha, Last(run), Last(run'));
    forall i | 0 <= i < |run'| - 1 ensures Step(sha, run'[i], run'[i + 1]) {
      assert i < |run| - 1 ==> Step(sha, run[i], run[i + 1]);
    }
    StepKeepsInv(sha, Last(run), Last(run'));
  }

  /** publish() finishes, however many subscribers there are and whichever of them have gone. */
  lemma {:induction false} FanOutFinishes(sha: Sha, run: seq<State>) returns (run': seq<State>)
    requires run != [] && IsRun(sha, run) && Inv(sha, Last(run)) && Last(run).writer.Fanning?
    ensures run' != [] && IsRun(sha, run') && run'[0] == run[0] && Inv(sha, Last(run'))
    ensures SameLedger(Last(run), Last(run'))
    ensures Last(run').writer == WritePath.Announced(Last(run).writer.request, Last(run).writer.block)
    decreases |Last(run).subs| - Last(run).writer.it
  {
    hide IsRun, ChainOk, ServiceOk, DiskOk, MainOk, Offer, ClientOk, Bounded;
    var s := Last(run);
    if s.writer.it < |s.subs| {
      var c := s.subs[s.writer.it];
      assert ClientOk(s, c);
      ClientIsBounded(s, c);
      run' := Extend(sha, run, PublishNext);
      run' := FanOutFinishes(sha, run');
    } else {
      run' := Extend(sha, run, EndPublish);
    }
  }

  lemma ClientIsBounded(s: State, c: nat)
    requires s.chain != [] && c < |s.clients| && ClientOk(s, c)
    ensures Bounded(s.clients[c].ring)
  {
    AccountsAreBounded(s.chain[s.clients[c].first..s.clients[c].upto], Held(s.clients[c]), s.clients[c].ring);
  }

  /** pop, build_next and append_block, without interference. */
  lemma RunUpToDisk(sha: Sha, s: State, now: string, disk: Disk) returns (run: seq<State>)
    requires Inv(sha, s) && s.chain != [] && s.writer == Waiting && s.queue.items != []
    ensures run != [] && IsRun(sha, run) && run[0] == s && Inv(sha, Last(run))
    ensures
      var request, t := s.queue.items[0], Last(run);
      var block := BuildNext(sha, s.chain, request.event, now);
      && t == s.(queue := s.queue.(items := s.queue.items[1..]), log := AppendLine(s.log, Line(block), disk),
          writer := t.writer)
      && t.writer == if t.log.bad then Failing(request) else Persisted(request, block)
  {
    hide IsRun, Inv, BuildNext, Line, AppendLine;
    run := [s];
    assert IsRun(sha, run) by { SingletonIsRun(sha, s); }
    run := Extend(sha, run, Pop);
    run := Extend(sha, run, Build(now));
    run := Extend(sha, run, Persist(disk));
  }

  /** push_persisted, publish and the reply. */
  lemma RunFromDisk(sha: Sha, run: seq<State>) returns (run': seq<State>)
    requires run != [] && IsRun(sha, run) && Inv(sha, Last(run)) && Last(run).writer.Persisted?
    ensures run' != [] && IsRun(sha, run') && run'[0] == run[0]
    ensures
      var s, t := Last(run), Last(run');
      && t.writer == Waiting && t.log == s.log && t.queue == s.queue && t.chain == s.chain + [s.writer.block]
      && t.served == s.served + [Served(s.writer.request, Created(s.writer.block))]
  {
    hide IsRun, Inv;
    run' := Extend(sha, run, PushPersisted);
    run' := Extend(sha, run', BeginPublish);
    run' := FanOutFinishes(sha, run');
    run' := Extend(sha, run', ReplyCreated);
  }

  /** What the loop body computes for the next request is what some run of the machine reaches by
      serving it: same chain, same log, same reply. */
  lemma LoopBodyIsARun(sha: Sha, s: State, now: string, disk: Disk) returns (run: seq<State>)
    requires Inv(sha, s) && s.writer == Waiting && s.queue.items != []
    ensures run != [] && IsRun(sha, run) && run[0] == s && Last(run).writer == Waiting
    ensures s.chain != [] && s.chain <= Last(run).chain && Last(run).queue.items == s.queue.items[1..]
    ensures ServeOne(sha, Burst(s.chain, s.log, s.served, []), s.queue.items[0], now, disk)
         == Burst(Last(run).chain, Last(run).log, Last(run).served, Last(run).chain[|s.chain|..])
  {
    hide IsRun, Inv, BuildNext, Line, AppendLine;
    InvHasChain(sha, s);
    run := RunUpToDisk(sha, s, now, disk);
    if Last(run).log.bad {
      run := Extend(sha, run, ReplyFailed);
    } else {
      run := RunFromDisk(sha, run);
    }
  }

  lemma InvHasChain(sha: Sha, s: State)
    requires Inv(sha, s)
    ensures s.chain != []
  {
  }

  lemma SingletonIsRun(sha: Sha, s: State)
    ensures IsRun(sha, [s])
  {
  }
}
