/** The write path and live feed of storage-core as one machine: handlers pushing, the single writer
    hashing, persisting, publishing, broadcasting and replying, the pumps of the connected clients,
    and the main thread shutting everything down in order. Every step is one critical section or one
    effect of one thread; any interleaving is a run. */
module WritePath {
  import opened Records
  import opened BoundedQueue
  import opened Broadcast
  import opened Blocks
  import opened Chains
  import opened Storage

  datatype Reply = Created(block: Block) | StorageFailure

  /** A request the writer has answered, and what it answered. */
  datatype Served = Served(request: Request, reply: Reply)

  /** How far the writer is with the request it holds. */
  datatype Writer =
    | Waiting
    | Popped(request: Request)
    | Hashed(request: Request, block: Block)
    | Persisted(request: Request, block: Block)
    | InChain(request: Request, block: Block)
    | Fanning(request: Request, block: Block, it: nat)  // inside publish(), holding its lock
    | Announced(request: Request, block: Block)
    | Failing(request: Request)
    | Stopped

  /** A WebSocket client: its ring, the pump draining it, and its history: the chain positions offered
      so far are first..upto, and sent is what went out on the socket. */
  datatype Client = Client(
    ring: Ring<Block>,
    first: nat,
    upto: nat,
    sent: seq<Item<Block>>,
    hand: Option<Item<Block>>,
    pumpDone: bool,
    gone: bool)

  datatype Main = Serving | StoppingFeed | FeedStopped | QueueClosed | WriterJoined | Released

  datatype State = State(
    queue: Queue,
    writer: Writer,
    chain: seq<Block>,
    log: Log,
    clients: seq<Client>,
    subs: seq<nat>,
    main: Main,
    loaded: string,          // the ledger file as the writer took it over
    base: seq<Block>,        // the chain read from it
    accepted: seq<Request>,  // in acceptance order
    served: seq<Served>)     // in reply order

  datatype Label =
    // handler threads
    | Accept(request: Request)
    | Refuse(request: Request)
    // the writer thread
    | Pop
    | Exit
    | Build(timestamp: string)
    | Persist(disk: Disk)
    | PushPersisted
    | BeginPublish
    | PublishNext
    | EndPublish
    | ReplyCreated
    | ReplyFailed
    // connections and their pumps
    | Open(capacity: nat)
    | CloseClient(c: nat)
    | PumpTake(c: nat)
    | PumpSend(c: nat)
    | PumpLost(c: nat)
    | PumpEnd(c: nat)
    | Release(c: nat)
    // the main thread
    | BeginStop
    | FeedStops
    | CloseQueue
    | JoinWriter
    | CloseAll

  ghost predicate ClientLabel(l: Label) {
    l.CloseClient? || l.PumpTake? || l.PumpSend? || l.PumpLost? || l.PumpEnd? || l.Release?
  }

  /** A client's part of a step, seen from the client alone. */
  ghost predicate ClientEnabled(cl: Client, l: Label)
    requires ClientLabel(l)
  {
    match l
    case CloseClient(_) => !cl.ring.closed
    case PumpTake(_) => !cl.pumpDone && cl.hand.None? && cl.ring.buffer != []
    case PumpSend(_) => !cl.pumpDone && cl.hand.Some?
    case PumpLost(_) => !cl.pumpDone && cl.hand.Some?
    case PumpEnd(_) => !cl.pumpDone && cl.hand.None? && cl.ring.buffer == [] && cl.ring.closed
    case Release(_) => !cl.gone && cl.pumpDone && cl.ring.closed
  }

  ghost function ClientStep(cl: Client, l: Label): Client
    requires ClientLabel(l) && ClientEnabled(cl, l)
  {
    match l
    case CloseClient(_) => cl.(ring := cl.ring.(closed := true))
    case PumpTake(_) => cl.(ring := Take(cl.ring).0, hand := Some(Take(cl.ring).1))
    case PumpSend(_) => cl.(sent := cl.sent + [cl.hand.value], hand := None)
    case PumpLost(_) => cl.(pumpDone := true)   // the socket is gone; the block in hand is not sent
    case PumpEnd(_) => cl.(pumpDone := true)
    case Release(_) => cl.(gone := true)
  }

  ghost predicate NewTicket(s: State, request: Request) {
    forall i :: 0 <= i < |s.accepted| ==> s.accepted[i].ticket != request.ticket
  }

  ghost predicate AllStopped(clients: seq<Client>) {
    forall c :: 0 <= c < |clients| ==> clients[c].ring.closed && clients[c].pumpDone
  }

  ghost predicate Enabled(s: State, l: Label) {
    match l
    case Accept(r) =>
      PushSection(s.queue, r).1 == PushOutcome.Accepted && WellFormedEvent(r.event) && NewTicket(s, r)
    case Refuse(r) => PushSection(s.queue, r).1 == PushOutcome.Refused
    case Pop => s.writer.Waiting? && PopSection(s.queue).1.Took?
    case Exit => s.writer.Waiting? && PopSection(s.queue).1.Drained?
    case Build(_) => s.writer.Popped? && s.chain != []
    case Persist(_) => s.writer.Hashed?
    case PushPersisted => s.writer.Persisted?
    case BeginPublish => s.writer.InChain?
    case PublishNext =>
      s.writer.Fanning? && s.writer.it < |s.subs| && s.subs[s.writer.it] < |s.clients|
      && Bounded(s.clients[s.subs[s.writer.it]].ring)
    case EndPublish => s.writer.Fanning? && s.writer.it >= |s.subs|
    case ReplyCreated => s.writer.Announced?
    case ReplyFailed => s.writer.Failing?
    case Open(capacity) => (s.main.Serving? || s.main.StoppingFeed?) && !s.writer.Fanning? && capacity >= 1
    case BeginStop => s.main.Serving?
    case FeedStops => s.main.StoppingFeed? && AllStopped(s.clients)
    case CloseQueue => s.main.FeedStopped?
    case JoinWriter => s.main.QueueClosed? && s.writer.Stopped?
    case CloseAll => s.main.WriterJoined? && !s.writer.Fanning?
    case _ => l.c < |s.clients| && ClientEnabled(s.clients[l.c], l)
  }

  /** The list without the entries whose subscription is gone. */
  ghost function Prune(subs: seq<nat>, clients: seq<Client>): seq<nat> {
    if subs == [] then []
    else if subs[0] < |clients| && !clients[subs[0]].gone then [subs[0]] + Prune(subs[1..], clients)
    else Prune(subs[1..], clients)
  }

  ghost function OfferTo(cl: Client, b: Block): Client
    requires Bounded(cl.ring)
  {
    cl.(ring := Offer(cl.ring, b), upto := if cl.ring.closed then cl.upto else cl.upto + 1)
  }

  /** The position of the next block a new subscriber will be offered. */
  ghost function NextToPublish(s: State): nat {
    if s.writer.InChain? && s.chain != [] then |s.chain| - 1 else |s.chain|
  }

  ghost function Apply(sha: Sha, s: State, l: Label): State
    requires Enabled(s, l)
  {
    match l
    case Accept(r) => s.(queue := PushSection(s.queue, r).0, accepted := s.accepted + [r])
    case Refuse(r) => s
    case Pop => s.(queue := PopSection(s.queue).0, writer := Popped(PopSection(s.queue).1.request))
    case Exit => s.(writer := Stopped)
    case Build(timestamp) =>
      s.(writer := Hashed(s.writer.request, BuildNext(sha, s.chain, s.writer.request.event, timestamp)))
    case Persist(disk) =>
      var log := AppendLine(s.log, Line(s.writer.block), disk);
      s.(log := log,
         writer := if log.bad then Failing(s.writer.request) else Persisted(s.writer.request, s.writer.block))
    case PushPersisted =>
      s.(chain := s.chain + [s.writer.block], writer := InChain(s.writer.request, s.writer.block))
    case BeginPublish => s.(writer := Fanning(s.writer.request, s.writer.block, 0))
    case PublishNext =>
      var it, c := s.writer.it, s.subs[s.writer.it];
      if s.clients[c].gone then s.(subs := s.subs[..it] + s.subs[it + 1..])
      else s.(clients := s.clients[c := OfferTo(s.clients[c], s.writer.block)],
              writer := s.writer.(it := it + 1))
    case EndPublish => s.(writer := Announced(s.writer.request, s.writer.block))
    case ReplyCreated =>
      s.(served := s.served + [Served(s.writer.request, Created(s.writer.block))], writer := Waiting)
    case ReplyFailed => s.(served := s.served + [Served(s.writer.request, StorageFailure)], writer := Waiting)
    case Open(capacity) =>
      var n := NextToPublish(s);
      s.(clients := s.clients + [Client(Ring([], capacity, 0, false), n, n, [], None, false, false)],
         subs := Prune(s.subs, s.clients) + [|s.clients|])
    case BeginStop => s.(main := StoppingFeed)
    case FeedStops => s.(main := FeedStopped)
    case CloseQueue => s.(main := QueueClosed, queue := s.queue.(closed := true))
    case JoinWriter => s.(main := WriterJoined)
    case CloseAll =>
      s.(main := Released, subs := [],
         clients := seq(|s.clients|, c requires 0 <= c < |s.clients| =>
           s.clients[c].(ring := s.clients[c].ring.(closed := true))))
    case _ => s.(clients := s.clients[l.c := ClientStep(s.clients[l.c], l)])
  }

  /** The file that was loaded is what the chain at boot was read from; it never changes in a run. */
  ghost predicate TakenOver(s: State) {
    ReadLog(s.loaded, 0) == Loaded(s.base) && s.base != []
  }

  /** Whatever file start-up accepts. */
  ghost predicate Initial(s: State) {
    && TakenOver(s) && s.chain == s.base && s.log == Log(s.loaded, false)
    && s.queue.items == [] && !s.queue.closed && s.queue.capacity >= 1
    && s.writer == Waiting && s.main == Serving
    && s.clients == [] && s.subs == [] && s.accepted == [] && s.served == []
  }

  ghost predicate Step(sha: Sha, s: State, s': State) {
    exists l :: Enabled(s, l) && s' == Apply(sha, s, l)
  }

  ghost predicate IsRun(sha: Sha, run: seq<State>) {
    && run != []
    && forall i :: 0 <= i < |run| - 1 ==> Step(sha, run[i], run[i + 1])
  }

  // ----- what every reachable state satisfies -------------------------------------------------------

  ghost function InFlight(w: Writer): seq<Request> {
    if w.Waiting? || w.Stopped? then [] else [w.request]
  }

  /** The block already in the chain whose request is still unanswered. */
  ghost function Unanswered(w: Writer): seq<Block> {
    if w.InChain? || w.Fanning? || w.Announced? then [w.block] else []
  }

  ghost function Requests(served: seq<Served>): seq<Request> {
    seq(|served|, i requires 0 <= i < |served| => served[i].request)
  }

  /** The blocks of the 201 replies, in order. */
  ghost function CreatedBlocks(served: seq<Served>): seq<Block> {
    if served == [] then []
    else
      CreatedBlocks(served[..|served| - 1])
      + (if Last(served).reply.Created? then [Last(served).reply.block] else [])
  }

  /** Every accepted request is answered, in the writer's hands or queued, in acceptance order; and
      the chain is the boot chain followed by the blocks of the successful ones. */
  ghost predicate ServiceOk(s: State) {
    && WithinCapacity(s.queue)
    && s.accepted == Requests(s.served) + InFlight(s.writer) + s.queue.items
    && s.base + CreatedBlocks(s.served) + Unanswered(s.writer) == s.chain
    && (forall i :: 0 <= i < |s.served| && s.served[i].reply.Created? ==>
          s.served[i].reply.block.event == s.served[i].request.event)
    && (forall i, j :: 0 <= i < j < |s.accepted| ==> s.accepted[i].ticket != s.accepted[j].ticket)
  }

  ghost predicate HasBlock(w: Writer) {
    w.Hashed? || w.Persisted? || w.InChain? || w.Fanning? || w.Announced?
  }

  /** The writer has only appended well, and the block in the writer's hands is its next or its last one. */
  ghost predicate ChainOk(sha: Sha, s: State) {
    && Grown(sha, s.base, s.chain)
    && (HasBlock(s.writer) ==> s.writer.block.event == s.writer.request.event)
    && (s.writer.Hashed? || s.writer.Persisted? ==>
          s.writer.block == BuildNext(sha, s.chain, s.writer.request.event, s.writer.block.timestamp))
    && (s.writer.InChain? || s.writer.Fanning? || s.writer.Announced? ==> s.writer.block == Last(s.chain))
  }

  /** The chain as far as the disk knows it. */
  ghost function DiskChain(s: State): seq<Block> {
    if s.writer.Persisted? then s.chain + [s.writer.block] else s.chain
  }

  /** What the writer has added to the file it took over. */
  ghost function Added(s: State, chain: seq<Block>): seq<Block> {
    if |s.base| <= |chain| then chain[|s.base|..] else []
  }

  /** This request was refused because its append failed, or is about to be. */
  ghost predicate RefusedFor(s: State, r: Request) {
    s.writer == Failing(r) || Served(r, StorageFailure) in s.served
  }

  /** The file ends in n bytes of the line of block b, which was built for request r on the chain as it
      is and never joined it. */
  ghost predicate Torn(sha: Sha, s: State, r: Request, b: Block, n: nat) {
    && s.chain != [] && RefusedFor(s, r)
    && b == BuildNext(sha, s.chain, r.event, b.timestamp) && WellFormedEvent(b.event)
    && n <= |Line(b)| && s.log.bytes == s.loaded + EncodeLog(Added(s, s.chain)) + Line(b)[..n]
  }

  /** Until an append fails the file holds what was loaded and what joined the chain since, or that and
      the block about to join it; from the first failure on, that and a prefix of the line of
      the block that was refused. */
  ghost predicate DiskOk(sha: Sha, s: State) {
    && Readable(s.chain)
    && (forall i :: 0 <= i < |s.accepted| ==> WellFormedEvent(s.accepted[i].event))
    && (!s.log.bad ==> s.log.bytes == s.loaded + EncodeLog(Added(s, DiskChain(s))))
    && (s.log.bad ==>
          && (s.writer.Waiting? || s.writer.Popped? || s.writer.Hashed? || s.writer.Failing? || s.writer.Stopped?)
          && exists r, b, n :: Torn(sha, s, r, b, n))
  }

  ghost function Held(cl: Client): seq<Item<Block>> {
    cl.sent + (if cl.hand.Some? then [cl.hand.value] else [])
  }

  /** The subscribers that publish() has dealt with. */
  ghost function Visited(s: State): seq<nat>
    requires s.writer.Fanning?
  {
    s.subs[..if s.writer.it <= |s.subs| then s.writer.it else |s.subs|]
  }

  /** How far an open subscription has been offered the chain. */
  ghost function OfferedUpTo(s: State, c: nat): nat
    requires s.chain != []
  {
    if s.writer.InChain? then |s.chain| - 1
    else if s.writer.Fanning? && c !in Visited(s) then |s.chain| - 1
    else |s.chain|
  }

  /** A client's books balance against a contiguous stretch of the chain, which reaches its end as
      long as the subscription is open. */
  ghost predicate ClientOk(s: State, c: nat)
    requires c < |s.clients| && s.chain != []
  {
    var cl := s.clients[c];
    && |s.base| <= cl.first <= cl.upto <= |s.chain|
    && Accounts(s.chain[cl.first..cl.upto], Held(cl), cl.ring)
    && (!cl.ring.closed ==> cl.upto == OfferedUpTo(s, c) && c in s.subs && !cl.gone)
  }

  ghost predicate SubsOk(s: State) {
    && (forall i :: 0 <= i < |s.subs| ==> s.subs[i] < |s.clients|)
    && (forall i, j :: 0 <= i < j < |s.subs| ==> s.subs[i] != s.subs[j])
    && (s.writer.Fanning? ==> s.writer.it <= |s.subs|)
  }

  ghost predicate ClientsOk(s: State) {
    && s.chain != [] && SubsOk(s)
    && forall c :: 0 <= c < |s.clients| ==> ClientOk(s, c)
  }

  /** The order of the shutdown. */
  ghost predicate MainOk(s: State) {
    && (s.queue.closed <==> s.main.QueueClosed? || s.main.WriterJoined? || s.main.Released?)
    && (s.writer.Stopped? ==> s.queue.closed && s.queue.items == [])
    && (s.main.WriterJoined? || s.main.Released? ==> s.writer.Stopped?)
    && (!s.main.Serving? && !s.main.StoppingFeed? ==> AllStopped(s.clients))
  }

  ghost predicate Inv(sha: Sha, s: State) {
    ChainOk(sha, s) && ServiceOk(s) && DiskOk(sha, s) && ClientsOk(s) && MainOk(s)
  }

  lemma InvParts(sha: Sha, s: State)
    requires Inv(sha, s)
    ensures ChainOk(sha, s) && ServiceOk(s) && DiskOk(sha, s) && ClientsOk(s) && MainOk(s)
  {
  }

  // ----- preservation -----------------------------------------------------------------------------

  lemma MainStaysOk(sha: Sha, s: State, l: Label)
    requires MainOk(s) && Enabled(s, l)
    ensures MainOk(Apply(sha, s, l))
  {
    hide BuildNext, Line, Accounts, WellFormedEvent, NewTicket;
  }

  lemma ChainStaysOk(sha: Sha, s: State, l: Label)
    requires ChainOk(sha, s) && Enabled(s, l)
    ensures ChainOk(sha, Apply(sha, s, l))
  {
    hide Grown, Line, WellFormedEvent, NewTicket, ComputeHash;
    GrownIsNonempty(sha, s.base, s.chain);
    if l.PushPersisted? {
      NextBlockKeepsGrown(sha, s.base, s.chain, s.writer.request.event, s.writer.block.timestamp);
    }
    if l.Build? {
      BuiltBlockHasEvent(sha, s.chain, s.writer.request.event, l.timestamp);
    }
  }

  lemma GrownIsNonempty(sha: Sha, base: seq<Block>, chain: seq<Block>)
    requires Grown(sha, base, chain)
    ensures chain != [] && base != [] && base <= chain
  {
  }

  lemma RequestsSnoc(served: seq<Served>, x: Served)
    ensures Requests(served + [x]) == Requests(served) + [x.request]
  {
  }

  lemma CreatedSnoc(served: seq<Served>, x: Served)
    ensures CreatedBlocks(served + [x]) == CreatedBlocks(served) + (if x.reply.Created? then [x.reply.block] else [])
  {
    assert (served + [x])[..|served|] == served;
  }

  /** A reply moves the request from the writer's hands to the answered ones, and its block, if it
      has one, from the unanswered to the answered part of the chain. */
  lemma ReplyKeepsService(sha: Sha, s: State, l: Label)
    requires ServiceOk(s) && Enabled(s, l) && (l.ReplyCreated? || l.ReplyFailed?)
    requires HasBlock(s.writer) ==> s.writer.block.event == s.writer.request.event
    ensures ServiceOk(Apply(sha, s, l))
  {
    hide CreatedBlocks, Requests;
    var x := Served(s.writer.request, if l.ReplyCreated? then Created(s.writer.block) else StorageFailure);
    RequestsSnoc(s.served, x);
    CreatedSnoc(s.served, x);
    assert Apply(sha, s, l).served == s.served + [x];
    assert Apply(sha, s, l).accepted == Requests(s.served + [x]) + [] + s.queue.items;
    assert s.chain == s.base + CreatedBlocks(s.served + [x]) + [];
  }

  lemma QueueStepKeepsService(sha: Sha, s: State, l: Label)
    requires ServiceOk(s) && Enabled(s, l) && (l.Accept? || l.Pop? || l.Exit?)
    ensures ServiceOk(Apply(sha, s, l))
  {
    hide CreatedBlocks, Requests, WellFormedEvent;
    var s' := Apply(sha, s, l);
    if l.Accept? {
      assert s'.accepted == Requests(s.served) + InFlight(s.writer) + (s.queue.items + [l.request]);
    } else if l.Pop? {
      assert s.queue.items == [s.queue.items[0]] + s.queue.items[1..];
      assert s.accepted == Requests(s.served) + [s.queue.items[0]] + s.queue.items[1..];
    }
  }

  lemma ServiceStaysOk(sha: Sha, s: State, l: Label)
    requires ServiceOk(s) && ChainOk(sha, s) && Enabled(s, l)
    ensures ServiceOk(Apply(sha, s, l))
  {
    hide CreatedBlocks, Requests, Grown, WellFormedEvent, BuildNext, Line, NewTicket;
    if l.ReplyCreated? || l.ReplyFailed? {
      ReplyKeepsService(sha, s, l);
    } else if l.Accept? || l.Pop? || l.Exit? {
      QueueStepKeepsService(sha, s, l);
    } else if l.PushPersisted? {
      assert s.base + CreatedBlocks(s.served) + [] == s.chain;
      assert s.base + CreatedBlocks(s.served) + [s.writer.block] == s.chain + [s.writer.block];
    }
  }

  lemma EncodeSnoc(chain: seq<Block>, b: Block)
    ensures EncodeLog(chain + [b]) == EncodeLog(chain) + Line(b)
  {
    hide Line;
    assert (chain + [b])[..|chain|] == chain;
  }

  lemma AddedSnoc(s: State, b: Block)
    requires s.base <= s.chain
    ensures EncodeLog(Added(s, s.chain + [b])) == EncodeLog(Added(s, s.chain)) + Line(b)
  {
    hide Line;
    assert (s.chain + [b])[|s.base|..] == s.chain[|s.base|..] + [b];
    EncodeSnoc(s.chain[|s.base|..], b);
  }

  lemma PersistWorks(sha: Sha, s: State)
    requires ChainOk(sha, s) && DiskOk(sha, s) && Enabled(s, Persist(Works)) && !s.log.bad
    ensures DiskOk(sha, Apply(sha, s, Persist(Works)))
  {
    hide BuildNext, EncodeLog, Grown, Line, WellFormedEvent, Added, Torn;
    GrownIsNonempty(sha, s.base, s.chain);
    AddedIsTheSame(s, Apply(sha, s, Persist(Works)));
    AddedSnoc(s, s.writer.block);
  }

  lemma PersistFails(sha: Sha, s: State, disk: Disk)
    requires ServiceOk(s) && ChainOk(sha, s) && DiskOk(sha, s)
    requires Enabled(s, Persist(disk)) && (s.log.bad || disk.FailsAfter?)
    ensures DiskOk(sha, Apply(sha, s, Persist(disk)))
  {
    hide BuildNext, EncodeLog, Grown, Line, WellFormedEvent, Added, Torn, Requests, CreatedBlocks;
    if s.log.bad {
      var r, b, n :| Torn(sha, s, r, b, n);
      StillTorn(sha, s, r, b, n, disk);
    } else {
      InFlightIsAccepted(s);
      var k := |Line(s.writer.block)|;
      PersistTears(sha, s, Apply(sha, s, Persist(disk)), if disk.n < k then disk.n else k);
    }
  }

  lemma PersistKeepsDisk(sha: Sha, s: State, disk: Disk)
    requires ServiceOk(s) && ChainOk(sha, s) && DiskOk(sha, s) && Enabled(s, Persist(disk))
    ensures DiskOk(sha, Apply(sha, s, Persist(disk)))
  {
    hide ServiceOk, ChainOk, DiskOk, Apply, Enabled;
    if s.log.bad || disk.FailsAfter? { PersistFails(sha, s, disk); } else { PersistWorks(sha, s); }
  }

  lemma StillTorn(sha: Sha, s: State, r: Request, b: Block, n: nat, disk: Disk)
    requires Torn(sha, s, r, b, n) && Enabled(s, Persist(disk)) && s.log.bad
    ensures Torn(sha, Apply(sha, s, Persist(disk)), r, b, n)
  {
    hide BuildNext, EncodeLog, BlockText, WellFormedEvent;
  }

  lemma PersistTears(sha: Sha, s: State, s': State, n: nat)
    requires s.writer.Hashed? && n <= |Line(s.writer.block)|
    requires s' == s.(log := Log(s.log.bytes + Line(s.writer.block)[..n], true), writer := Failing(s.writer.request))
    requires ChainOk(sha, s) && WellFormedEvent(s.writer.request.event)
    requires s.log.bytes == s.loaded + EncodeLog(Added(s, s.chain))
    ensures Torn(sha, s', s.writer.request, s.writer.block, n)
  {
    hide BuildNext, EncodeLog, BlockText, WellFormedEvent, Grown, Added;
    GrownIsNonempty(sha, s.base, s.chain);
    AddedIsTheSame(s, s');
  }

  lemma AddedIsTheSame(s: State, s': State)
    requires s'.base == s.base
    ensures forall chain :: Added(s', chain) == Added(s, chain)
  {
  }

  lemma InFlightIsAccepted(s: State)
    requires ServiceOk(s) && !s.writer.Waiting? && !s.writer.Stopped?
    ensures s.writer.request in s.accepted
  {
    hide Requests, CreatedBlocks;
    assert s.accepted[|Requests(s.served)|] == s.writer.request;
  }

  lemma PushKeepsDisk(sha: Sha, s: State, s': State)
    requires s.writer.Persisted? && s.writer.block.event == s.writer.request.event
    requires s' == s.(chain := s.chain + [s.writer.block], writer := InChain(s.writer.request, s.writer.block))
    requires ServiceOk(s) && DiskOk(sha, s)
    ensures DiskOk(sha, s')
  {
    hide CreatedBlocks, Requests, WellFormedEvent, EncodeLog, Torn;
    InFlightIsAccepted(s);
  }

  /** Everything else leaves file and chain alone. */
  lemma DiskIsLeftAlone(sha: Sha, s: State, l: Label)
    requires Enabled(s, l) && !l.Persist? && !l.PushPersisted?
    ensures var s' := Apply(sha, s, l);
      && s'.log == s.log && s'.chain == s.chain && DiskChain(s') == DiskChain(s)
      && (s'.accepted == s.accepted
          || (l.Accept? && s'.accepted == s.accepted + [l.request] && WellFormedEvent(l.request.event)))
      && (s'.writer == s.writer || s'.writer.Waiting? || s'.writer.Popped? || s'.writer.Hashed? || s'.writer.Stopped?
          || s.writer.InChain? || s.writer.Fanning? || s.writer.Announced?)
  {
    hide BuildNext, Line, NewTicket, WellFormedEvent, Prune, Offer, Bounded;
  }

  lemma DiskStaysOk(sha: Sha, s: State, l: Label)
    requires ServiceOk(s) && ChainOk(sha, s) && DiskOk(sha, s) && Enabled(s, l)
    ensures DiskOk(sha, Apply(sha, s, l))
  {
    hide ServiceOk, Grown, WellFormedEvent, BuildNext, EncodeLog, Added, Torn, Apply, Enabled, DiskChain;
    var s' := Apply(sha, s, l);
    BaseIsFixed(sha, s, l);
    AddedIsTheSame(s, s');
    if l.Persist? {
      PersistKeepsDisk(sha, s, l.disk);
    } else if l.PushPersisted? {
      PushJoinsBlock(sha, s);
      PushKeepsDisk(sha, s, s');
    } else {
      DiskIsLeftAlone(sha, s, l);
      if s.log.bad {
        var r, b, n :| Torn(sha, s, r, b, n);
        RefusalIsKept(sha, s, l, r, b, n);
      }
    }
  }

  lemma PushJoinsBlock(sha: Sha, s: State)
    requires Enabled(s, PushPersisted)
    ensures s.writer.Persisted?
    ensures var r, b := s.writer.request, s.writer.block;
      Apply(sha, s, PushPersisted) == s.(chain := s.chain + [b], writer := InChain(r, b))
  {
  }

  lemma RefusalIsKept(sha: Sha, s: State, l: Label, r: Request, b: Block, n: nat)
    requires Torn(sha, s, r, b, n) && Enabled(s, l) && !l.Persist? && !l.PushPersisted?
    ensures Torn(sha, Apply(sha, s, l), r, b, n)
  {
    hide BuildNext, Line, NewTicket, WellFormedEvent, EncodeLog, Prune, Offer;
    AddedIsTheSame(s, Apply(sha, s, l));
  }

  // ----- the clients ---------------------------------------------------------------------------------

  lemma {:induction false} PruneMembers(subs: seq<nat>, clients: seq<Client>)
    ensures forall i :: 0 <= i < |Prune(subs, clients)| ==>
      Prune(subs, clients)[i] in subs && Prune(subs, clients)[i] < |clients|
    ensures forall i :: 0 <= i < |subs| && subs[i] < |clients| && !clients[subs[i]].gone ==>
      subs[i] in Prune(subs, clients)
    ensures (forall i, j :: 0 <= i < j < |subs| ==> subs[i] != subs[j]) ==>
      forall i, j :: 0 <= i < j < |Prune(subs, clients)| ==> Prune(subs, clients)[i] != Prune(subs, clients)[j]
  {
    if subs != [] {
      PruneMembers(subs[1..], clients);
    }
  }

  /** Only publishing, opening and closing everything touch the subscriber list or where publish() is in it. */
  lemma SubsAreLeftAlone(sha: Sha, s: State, l: Label)
    requires Enabled(s, l) && !l.Open? && !l.PublishNext? && !l.CloseAll?
    ensures var s' := Apply(sha, s, l);
      && s'.subs == s.subs && |s'.clients| == |s.clients|
      && (s'.writer.Fanning? ==> s'.writer.it == if s.writer.Fanning? then s.writer.it else 0)
  {
    hide BuildNext, Line, AppendLine, WellFormedEvent, NewTicket, PushSection, PopSection, ClientEnabled, ClientStep;
  }

  lemma PublishKeepsSubs(sha: Sha, s: State)
    requires SubsOk(s) && Enabled(s, PublishNext)
    ensures SubsOk(Apply(sha, s, PublishNext))
  {
    hide Offer, Bounded;
  }

  lemma OpenKeepsSubs(sha: Sha, s: State, capacity: nat)
    requires SubsOk(s) && Enabled(s, Open(capacity))
    ensures SubsOk(Apply(sha, s, Open(capacity)))
  {
    hide Prune;
    PruneMembers(s.subs, s.clients);
  }

  lemma SubsStayOk(sha: Sha, s: State, l: Label)
    requires SubsOk(s) && Enabled(s, l)
    ensures SubsOk(Apply(sha, s, l))
  {
    hide Enabled, Apply;
    if l.Open? {
      OpenKeepsSubs(sha, s, l.capacity);
    } else if l.PublishNext? {
      PublishKeepsSubs(sha, s);
    } else if l.CloseAll? {
      NobodyIsLeft(sha, s);
    } else {
      SubsAreLeftAlone(sha, s, l);
    }
  }

  lemma NobodyIsLeft(sha: Sha, s: State)
    requires Enabled(s, CloseAll)
    ensures SubsOk(Apply(sha, s, CloseAll))
  {
  }

  /** A client's own steps: closing, taking, sending and winding down keep its books. */
  lemma OwnStepKeepsClient(s: State, l: Label)
    requires s.chain != [] && ClientLabel(l) && l.c < |s.clients| && ClientEnabled(s.clients[l.c], l)
    requires ClientOk(s, l.c)
    ensures ClientOk(s.(clients := s.clients[l.c := ClientStep(s.clients[l.c], l)]), l.c)
  {
    hide Accounts;
    var cl, cl' := s.clients[l.c], ClientStep(s.clients[l.c], l);
    var offered := s.chain[cl.first..cl.upto];
    if l.PumpTake? {
      AccountsAreBounded(offered, Held(cl), cl.ring);
      TakeKeepsAccounts(offered, Held(cl), cl.ring);
      assert Held(cl) == cl.sent && Held(cl') == cl.sent + [Take(cl.ring).1];
    } else if l.CloseClient? {
      ClosingKeepsAccounts(offered, Held(cl), cl.ring);
    } else {
      assert Held(cl') == Held(cl);
    }
  }

  lemma AccountsAreBounded<T(!new)>(offered: seq<T>, items: seq<Item<T>>, r: Ring<T>)
    requires Accounts(offered, items, r)
    ensures Bounded(r)
  {
  }

  lemma ClosingKeepsAccounts<T(!new)>(offered: seq<T>, items: seq<Item<T>>, r: Ring<T>)
    requires Accounts(offered, items, r)
    ensures Accounts(offered, items, r.(closed := true))
  {
  }

  /** A published block is the chain's last; an open subscription whose turn it is has been offered
      everything before it. */
  lemma OfferedClientStaysOk(sha: Sha, s: State)
    requires ChainOk(sha, s) && ClientsOk(s) && Enabled(s, PublishNext) && !s.clients[s.subs[s.writer.it]].gone
    ensures ClientOk(Apply(sha, s, PublishNext), s.subs[s.writer.it])
  {
    hide Accounts, Grown, BuildNext, Offer;
    var it, c := s.writer.it, s.subs[s.writer.it];
    var cl, n := s.clients[c], |s.chain|;
    assert ClientOk(s, c);
    var offered := s.chain[cl.first..cl.upto];
    OfferKeepsAccounts(offered, Held(cl), cl.ring, s.writer.block);
    assert c in s.subs[..it + 1] by { assert s.subs[..it + 1][it] == c; }
    if cl.ring.closed {
      ClosedIgnoresOffers(cl.ring, s.writer.block);
    } else {
      assert c !in s.subs[..it];
      assert cl.upto == n - 1 && s.chain[n - 1] == s.writer.block;
      assert s.chain[cl.first..n] == offered + [s.writer.block];
    }
    assert Held(OfferTo(cl, s.writer.block)) == Held(cl);
    OfferKeepsClosed(cl.ring, s.writer.block);
  }

  lemma ClosedIgnoresOffers<T>(r: Ring<T>, x: T)
    requires Bounded(r) && r.closed
    ensures Offer(r, x) == r
  {
  }

  lemma OfferKeepsClosed<T>(r: Ring<T>, x: T)
    requires Bounded(r)
    ensures Offer(r, x).closed == r.closed
  {
  }

  /** A client that the step does not touch, on an unchanged or longer chain. */
  lemma UntouchedClient(s: State, s': State, c: nat)
    requires s.chain != [] && c < |s.clients| && c < |s'.clients| && s'.clients[c] == s.clients[c]
    requires s.chain <= s'.chain && s'.base == s.base && ClientOk(s, c)
    requires !s.clients[c].ring.closed ==> c in s'.subs && OfferedUpTo(s', c) == OfferedUpTo(s, c)
    ensures ClientOk(s', c)
  {
    hide Accounts;
    var cl := s.clients[c];
    assert s'.chain[cl.first..cl.upto] == s.chain[cl.first..cl.upto];
  }

  /** Publishing to one subscriber, or pruning one that is gone, is the same for all others. */
  lemma NotTouchedByPublishing(sha: Sha, s: State, c: nat)
    requires ClientsOk(s) && Enabled(s, PublishNext) && c < |s.clients|
    requires s.subs[s.writer.it] != c || s.clients[c].gone
    ensures ClientOk(Apply(sha, s, PublishNext), c)
  {
    hide Accounts, Offer, Bounded;
    var s' := Apply(sha, s, PublishNext);
    assert ClientOk(s, c);
    if !s.clients[c].ring.closed {
      StillSubscribed(sha, s, c);
    }
    UntouchedClient(s, s', c);
  }

  lemma StillSubscribed(sha: Sha, s: State, c: nat)
    requires SubsOk(s) && s.chain != [] && Enabled(s, PublishNext) && c in s.subs && s.subs[s.writer.it] != c
    ensures var s' := Apply(sha, s, PublishNext);
      c in s'.subs && s'.chain != [] && OfferedUpTo(s', c) == OfferedUpTo(s, c)
  {
    hide Offer, Bounded;
    hide SubsOk;
    var it := s.writer.it;
    if s.clients[s.subs[it]].gone {
      OthersStay(s.subs, it, c);
    } else {
      assert s.subs[..it + 1] == s.subs[..it] + [s.subs[it]];
    }
  }

  lemma OthersStay(subs: seq<nat>, it: nat, c: nat)
    requires it < |subs| && c in subs && subs[it] != c
    ensures c in subs[..it] + subs[it + 1..] && (subs[..it] + subs[it + 1..])[..it] == subs[..it]
  {
    var i :| 0 <= i < |subs| && subs[i] == c;
    assert (subs[..it] + subs[it + 1..])[if i < it then i else i - 1] == c;
  }

  lemma NextIsNew(sha: Sha, s: State)
    requires ServiceOk(s) && ChainOk(sha, s)
    ensures |s.base| <= NextToPublish(s)
  {
    hide CreatedBlocks, Requests, BlockOk, BuildNext;
  }

  lemma OpenKeepsClients(sha: Sha, s: State, capacity: nat)
    requires ServiceOk(s) && ChainOk(sha, s) && ClientsOk(s) && Enabled(s, Open(capacity))
    ensures ClientsOk(Apply(sha, s, Open(capacity)))
  {
    hide Prune, ServiceOk, ChainOk;
    NextIsNew(sha, s);
    var s', n := Apply(sha, s, Open(capacity)), |s.clients|;
    SubsStayOk(sha, s, Open(capacity));
    PruneMembers(s.subs, s.clients);
    assert s'.subs[|s'.subs| - 1] == n;
    assert s'.chain[s'.clients[n].first..s'.clients[n].upto] == [];
    assert ClientOk(s', n);
    forall c | 0 <= c < n ensures ClientOk(s', c) {
      assert ClientOk(s, c);
      UntouchedClient(s, s', c);
    }
  }

  lemma CloseAllKeepsClients(sha: Sha, s: State)
    requires ClientsOk(s) && Enabled(s, CloseAll)
    ensures ClientsOk(Apply(sha, s, CloseAll))
  {
    hide Accounts;
    var s' := Apply(sha, s, CloseAll);
    forall c | 0 <= c < |s'.clients| ensures ClientOk(s', c) {
      assert ClientOk(s, c);
      var cl := s.clients[c];
      ClosingKeepsAccounts(s.chain[cl.first..cl.upto], Held(cl), cl.ring);
      assert Held(s'.clients[c]) == Held(cl);
    }
  }

  lemma OwnStepKeepsClients(sha: Sha, s: State, l: Label)
    requires ClientsOk(s) && Enabled(s, l) && ClientLabel(l)
    ensures ClientsOk(Apply(sha, s, l))
  {
    hide Accounts, ClientStep, ClientEnabled;
    var s' := Apply(sha, s, l);
    SubsStayOk(sha, s, l);
    forall c | 0 <= c < |s'.clients| ensures ClientOk(s', c) {
      assert ClientOk(s, c);
      if c == l.c { OwnStepKeepsClient(s, l); } else { UntouchedClient(s, s', c); }
    }
  }

  lemma PublishKeepsClients(sha: Sha, s: State)
    requires ChainOk(sha, s) && ClientsOk(s) && Enabled(s, PublishNext)
    ensures ClientsOk(Apply(sha, s, PublishNext))
  {
    hide Accounts, Offer, Grown, ClientOk;
    var s' := Apply(sha, s, PublishNext);
    SubsStayOk(sha, s, PublishNext);
    forall c | 0 <= c < |s'.clients| ensures ClientOk(s', c) {
      if c == s.subs[s.writer.it] && !s.clients[c].gone {
        OfferedClientStaysOk(sha, s);
      } else {
        NotTouchedByPublishing(sha, s, c);
      }
    }
  }

  /** Steps that leave clients and subscriber list alone never change what an open subscription has
      been offered: the chain only grows by a block that is still to be published. */
  lemma OthersKeepClients(sha: Sha, s: State, l: Label)
    requires ClientsOk(s) && Enabled(s, l)
    requires !ClientLabel(l) && !l.Open? && !l.PublishNext? && !l.CloseAll?
    ensures ClientsOk(Apply(sha, s, l))
  {
    hide Accounts, BuildNext, Line, WellFormedEvent, NewTicket;
    var s' := Apply(sha, s, l);
    SubsStayOk(sha, s, l);
    if l.EndPublish? {
      assert s.subs[..|s.subs|] == s.subs;
    }
    forall c | 0 <= c < |s'.clients| ensures ClientOk(s', c) {
      assert ClientOk(s, c);
      UntouchedClient(s, s', c);
    }
  }

  lemma ClientsStayOk(sha: Sha, s: State, l: Label)
    requires ServiceOk(s) && ChainOk(sha, s) && ClientsOk(s) && Enabled(s, l)
    ensures ClientsOk(Apply(sha, s, l))
  {
    hide ServiceOk, ChainOk, ClientsOk, Apply;
    if ClientLabel(l) { OwnStepKeepsClients(sha, s, l); }
    else if l.Open? { OpenKeepsClients(sha, s, l.capacity); }
    else if l.PublishNext? { PublishKeepsClients(sha, s); }
    else if l.CloseAll? { CloseAllKeepsClients(sha, s); }
    else { OthersKeepClients(sha, s, l); }
  }

  // ----- every run ----------------------------------------------------------------------------------

  /** Every step of every thread keeps the whole invariant. */
  lemma StepKeepsInv(sha: Sha, s: State, s': State)
    requires Inv(sha, s) && Step(sha, s, s')
    ensures Inv(sha, s') && s'.base == s.base && s'.loaded == s.loaded
  {
    hide Apply, ChainOk, ServiceOk, DiskOk, ClientsOk, MainOk, Enabled;
    var l :| Enabled(s, l) && s' == Apply(sha, s, l);
    ChainStaysOk(sha, s, l);
    ServiceStaysOk(sha, s, l);
    DiskStaysOk(sha, s, l);
    ClientsStayOk(sha, s, l);
    MainStaysOk(sha, s, l);
    BaseIsFixed(sha, s, l);
  }

  lemma BaseIsFixed(sha: Sha, s: State, l: Label)
    requires Enabled(s, l)
    ensures Apply(sha, s, l).base == s.base && Apply(sha, s, l).loaded == s.loaded
  {
    hide BuildNext, Line, WellFormedEvent, NewTicket, Offer;
  }

  lemma InitialInv(sha: Sha, s: State)
    requires Initial(s)
    ensures Inv(sha, s)
  {
    hide ReadLog;
    LoadedBlocksAreReadable(s.loaded, 0);
    assert s.base + CreatedBlocks([]) + [] == s.base;
    assert Added(s, s.chain) == [] && s.loaded + "" == s.loaded;
  }

  /** Every reachable state, along every run. */
  lemma {:induction false} ReachableInv(sha: Sha, run: seq<State>, i: nat)
    requires IsRun(sha, run) && Initial(run[0]) && i < |run|
    ensures Inv(sha, run[i]) && run[i].base == run[0].base && run[i].loaded == run[0].loaded
    decreases i
  {
    hide Inv, Step, Initial;
    if i == 0 {
      InitialInv(sha, run[0]);
    } else {
      ReachableInv(sha, run, i - 1);
      StepKeepsInv(sha, run[i - 1], run[i]);
    }
  }
}
