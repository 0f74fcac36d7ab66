/** The ordered shutdown: it cannot get stuck, it ends after a bounded number of steps, and it leaves
    nothing behind. */
module Shutdown {
  import opened Records
  import opened Broadcast
  import opened Blocks
  import opened Chains
  import opened Storage
  import opened WritePath
  import opened Tally

  /** The process's own steps once the HTTP server has returned: no handler is left to push, and the
      stopped listener accepts no further connection. */
  ghost predicate Internal(l: Label) {
    !l.Accept? && !l.Refuse? && !l.Open? && !l.BeginStop?
  }

  ghost predicate ShutdownStep(sha: Sha, s: State, s': State) {
    exists l :: Internal(l) && Enabled(s, l) && s' == Apply(sha, s, l)
  }

  // ----- it ends ------------------------------------------------------------------------------------

  ghost function ClientWork(cl: Client): nat {
    3 * |cl.ring.buffer|
    + (if cl.hand.Some? && !cl.pumpDone then 1 else 0)
    + (if cl.ring.closed then 0 else 1) + (if cl.pumpDone then 0 else 1) + (if cl.gone then 0 else 1)
  }

  /** What one request costs from pop to reply, with n subscribers. */
  ghost function RequestWork(n: nat): nat { 7 + 4 * n }

  ghost function WriterWork(w: Writer, n: nat): nat {
    match w
    case Stopped => 0
    case Waiting => 1
    case Announced(_, _) => 2
    case Failing(_) => 2
    case Fanning(_, _, it) => if it <= n then 3 + 4 * (n - it) else 3
    case InChain(_, _) => 4 + 4 * n
    case Persisted(_, _) => 5 + 4 * n
    case Hashed(_, _) => 6 + 4 * n
    case Popped(_) => 7 + 4 * n
  }

  ghost function MainWork(m: Main): nat {
    match m
    case Serving => 5
    case StoppingFeed => 4
    case FeedStopped => 3
    case QueueClosed => 2
    case WriterJoined => 1
    case Released => 0
  }

  /** An upper bound on the internal steps that are left. */
  ghost function StepsLeft(s: State): nat {
    |s.queue.items| * RequestWork(|s.subs|) + WriterWork(s.writer, |s.subs|)
    + Sum(s.clients, ClientWork) + MainWork(s.main)
  }

  lemma QueueWorkShrinks(q: nat, q': nat, n: nat, n': nat)
    requires q' <= q && n' <= n
    ensures q' * RequestWork(n') <= q * RequestWork(n)
    ensures q' + 1 == q && n' == n ==> q' * RequestWork(n') + RequestWork(n) == q * RequestWork(n)
  {
    assert q' * RequestWork(n') <= q' * RequestWork(n) <= q * RequestWork(n);
  }

  lemma ClientStepWork(cl: Client, l: Label)
    requires ClientLabel(l) && ClientEnabled(cl, l)
    ensures ClientWork(ClientStep(cl, l)) < ClientWork(cl)
  {
  }

  lemma OwnStepWork(sha: Sha, s: State, l: Label)
    requires Enabled(s, l) && ClientLabel(l)
    ensures StepsLeft(Apply(sha, s, l)) < StepsLeft(s)
  {
    hide ClientWork, Sum, ClientEnabled, ClientStep, WriterWork, MainWork, RequestWork;
    OwnStepIsTheClients(sha, s, l);
    ClientStepWork(s.clients[l.c], l);
    SumUpdate(s.clients, l.c, ClientStep(s.clients[l.c], l), ClientWork);
  }

  lemma OwnStepIsTheClients(sha: Sha, s: State, l: Label)
    requires Enabled(s, l) && ClientLabel(l)
    ensures l.c < |s.clients| && ClientEnabled(s.clients[l.c], l)
    ensures Apply(sha, s, l) == s.(clients := s.clients[l.c := ClientStep(s.clients[l.c], l)])
  {
    hide ClientEnabled, ClientStep;
  }

  lemma OfferWork(cl: Client, b: Block)
    requires Bounded(cl.ring)
    ensures ClientWork(OfferTo(cl, b)) <= ClientWork(cl) + 3
  {
  }

  lemma PublishWork(sha: Sha, s: State)
    requires Enabled(s, PublishNext)
    ensures StepsLeft(Apply(sha, s, PublishNext)) < StepsLeft(s)
  {
    hide Offer, ClientWork, Sum;
    var c := s.subs[s.writer.it];
    if s.clients[c].gone {
      QueueWorkShrinks(|s.queue.items|, |s.queue.items|, |s.subs|, |s.subs| - 1);
    } else {
      OfferWork(s.clients[c], s.writer.block);
      SumUpdate(s.clients, c, OfferTo(s.clients[c], s.writer.block), ClientWork);
    }
  }

  lemma {:induction false} ClosingReducesWork(a: seq<Client>, b: seq<Client>)
    requires |a| == |b| && forall c :: 0 <= c < |a| ==> ClientWork(b[c]) <= ClientWork(a[c])
    ensures Sum(b, ClientWork) <= Sum(a, ClientWork)
  {
    hide ClientWork;
    if a != [] {
      forall c | 0 <= c < |a| - 1 ensures ClientWork(b[1..][c]) <= ClientWork(a[1..][c]) {
        assert ClientWork(b[c + 1]) <= ClientWork(a[c + 1]);
      }
      ClosingReducesWork(a[1..], b[1..]);
    }
  }

  lemma CloseAllWork(sha: Sha, s: State)
    requires Enabled(s, CloseAll) && s.writer.Stopped?
    ensures StepsLeft(Apply(sha, s, CloseAll)) < StepsLeft(s)
  {
    hide Sum;
    ClosingReducesWork(s.clients, Apply(sha, s, CloseAll).clients);
    QueueWorkShrinks(|s.queue.items|, |s.queue.items|, |s.subs|, 0);
  }

  lemma WriterAndMainWork(sha: Sha, s: State, l: Label)
    requires Enabled(s, l) && Internal(l) && !ClientLabel(l) && !l.PublishNext? && !l.CloseAll?
    ensures StepsLeft(Apply(sha, s, l)) < StepsLeft(s)
  {
    hide BuildNext, Line, ClientWork, Sum, AllStopped, RequestWork;
    assert RequestWork(|s.subs|) == 7 + 4 * |s.subs| by { RequestWorkIs(|s.subs|); }
    if l.Pop? {
      QueueWorkShrinks(|s.queue.items|, |s.queue.items| - 1, |s.subs|, |s.subs|);
    }
  }

  lemma RequestWorkIs(n: nat)
    ensures RequestWork(n) == 7 + 4 * n
  {
  }

  /** Every internal step brings the end nearer. */
  lemma EveryStepCounts(sha: Sha, s: State, l: Label)
    requires MainOk(s) && Enabled(s, l) && Internal(l)
    ensures StepsLeft(Apply(sha, s, l)) < StepsLeft(s)
  {
    hide StepsLeft, Apply, AllStopped;
    if ClientLabel(l) { OwnStepWork(sha, s, l); }
    else if l.PublishNext? { PublishWork(sha, s); }
    else if l.CloseAll? { CloseAllWork(sha, s); }
    else { WriterAndMainWork(sha, s, l); }
  }

  ghost predicate IsShutdownRun(sha: Sha, run: seq<State>) {
    run != [] && forall i :: 0 <= i < |run| - 1 ==> ShutdownStep(sha, run[i], run[i + 1])
  }

  /** Shutting down takes a bounded number of steps, however the threads interleave. */
  lemma {:induction false} ShutdownIsBounded(sha: Sha, run: seq<State>)
    requires IsShutdownRun(sha, run) && Inv(sha, run[0])
    ensures |run| - 1 + StepsLeft(Last(run)) <= StepsLeft(run[0])
    ensures Inv(sha, Last(run)) && (run[0].main != Serving ==> Last(run).main != Serving)
    decreases |run|
  {
    hide Inv, StepsLeft, Enabled, Apply;
    if |run| > 1 {
      var n := |run| - 2;
      var front := run[..n + 1];
      forall i | 0 <= i < |front| - 1 ensures ShutdownStep(sha, front[i], front[i + 1]) {
        assert ShutdownStep(sha, run[i], run[i + 1]);
      }
      ShutdownIsBounded(sha, front);
      assert ShutdownStep(sha, run[n], run[n + 1]);
      OneShutdownStep(sha, run[n], run[n + 1]);
    }
  }

  lemma OneShutdownStep(sha: Sha, s: State, s': State)
    requires Inv(sha, s) && ShutdownStep(sha, s, s')
    ensures Inv(sha, s') && StepsLeft(s') < StepsLeft(s) && (s.main != Serving ==> s'.main != Serving)
  {
    hide StepsLeft, ChainOk, ServiceOk, DiskOk, ClientsOk, MainOk;
    var l :| Internal(l) && Enabled(s, l) && s' == Apply(sha, s, l);
    EveryStepCounts(sha, s, l);
    assert Step(sha, s, s');
    StepKeepsInv(sha, s, s');
    if s.main != Serving { StoppingIsForGood(sha, s, l); }
  }

  lemma StoppingIsForGood(sha: Sha, s: State, l: Label)
    requires Enabled(s, l) && s.main != Serving
    ensures Apply(sha, s, l).main != Serving
  {
    hide BuildNext, Line, WellFormedEvent, NewTicket, Offer, AllStopped;
  }

  // ----- it cannot get stuck ---------------------------------------------------------------------------

  lemma SubscriberIsBounded(s: State, it: nat)
    requires ClientsOk(s) && it < |s.subs|
    ensures s.subs[it] < |s.clients| && Bounded(s.clients[s.subs[it]].ring)
  {
    hide Accounts;
    var cl := s.clients[s.subs[it]];
    assert ClientOk(s, s.subs[it]);
    AccountsAreBounded(s.chain[cl.first..cl.upto], Held(cl), cl.ring);
  }

  /** The writer always has a next step on a closed queue. */
  lemma WriterCanMove(sha: Sha, s: State) returns (l: Label)
    requires Inv(sha, s) && s.queue.closed && !s.writer.Stopped?
    ensures Internal(l) && Enabled(s, l)
  {
    hide ServiceOk, DiskOk, ClientsOk, MainOk, BlockOk, BuildNext;
    InvParts(sha, s);
    match s.writer
    case Waiting => l := if s.queue.items == [] then Exit else Pop;
    case Popped(_) => l := Build("");
    case Hashed(_, _) => l := Persist(Works);
    case Persisted(_, _) => l := PushPersisted;
    case InChain(_, _) => l := BeginPublish;
    case Fanning(_, _, it) =>
      if it < |s.subs| {
        l := PublishNext;
        SubscriberIsBounded(s, it);
      } else {
        l := EndPublish;
      }
    case Announced(_, _) => l := ReplyCreated;
    case Failing(_) => l := ReplyFailed;
  }

  lemma ClientCanMove(s: State, c: nat) returns (l: Label)
    requires c < |s.clients| && !(s.clients[c].ring.closed && s.clients[c].pumpDone)
    ensures Internal(l) && Enabled(s, l)
  {
    var cl := s.clients[c];
    if !cl.ring.closed { l := CloseClient(c); }
    else if cl.hand.Some? { l := PumpSend(c); }
    else if cl.ring.buffer != [] { l := PumpTake(c); }
    else { l := PumpEnd(c); }
  }

  /** From the first step of the shutdown on, some thread can always move until everything is released. */
  lemma ShutdownNeverStuck(sha: Sha, s: State) returns (l: Label)
    requires Inv(sha, s) && s.main != Serving && s.main != Released
    ensures Internal(l) && Enabled(s, l)
  {
    hide Inv, ClientEnabled, Bounded;
    match s.main
    case StoppingFeed =>
      if c: nat :| c < |s.clients| && !(s.clients[c].ring.closed && s.clients[c].pumpDone) {
        l := ClientCanMove(s, c);
      } else {
        l := FeedStops;
      }
    case FeedStopped => l := CloseQueue;
    case QueueClosed =>
      if s.writer.Stopped? {
        l := JoinWriter;
      } else {
        assert s.queue.closed by { InvParts(sha, s); }
        l := WriterCanMove(sha, s);
      }
    case WriterJoined =>
      assert s.writer.Stopped? by { InvParts(sha, s); }
      l := CloseAll;
  }

  /** So a shutdown that is left to run reaches its end: a run that cannot be extended has released
      everything. */
  lemma ShutdownCompletes(sha: Sha, run: seq<State>)
    requires IsShutdownRun(sha, run) && Inv(sha, run[0]) && run[0].main != Serving
    requires forall l :: Internal(l) ==> !Enabled(Last(run), l)
    ensures |run| - 1 <= StepsLeft(run[0]) && Last(run).main == Released
  {
    hide Inv, StepsLeft, Enabled, Internal, ShutdownStep;
    ShutdownIsBounded(sha, run);
    if Last(run).main != Released {
      var l := ShutdownNeverStuck(sha, Last(run));
    }
  }

  // ----- it leaves nothing behind ----------------------------------------------------------------------

  /** At exit every accepted request has been answered, every pump has been joined, and the disk holds
      the chain unless an append had failed. */
  lemma NothingIsLeft(sha: Sha, s: State)
    requires Inv(sha, s) && s.main == Released
    ensures s.accepted == Requests(s.served) && s.queue.items == [] && s.writer == Stopped
    ensures AllStopped(s.clients)
    ensures !s.log.bad ==> s.log.bytes == s.loaded + EncodeLog(Added(s, s.chain))
  {
    hide ChainOk, ClientsOk, CreatedBlocks, EncodeLog;
  }

  /** After the writer is joined nothing is served, published or written any more, in particular
      nothing after close_all. */
  lemma NoPublishAfterJoin(sha: Sha, s: State, s': State)
    requires Inv(sha, s) && Step(sha, s, s') && (s.main == WriterJoined || s.main == Released)
    ensures s'.chain == s.chain && s'.log == s.log && s'.served == s.served && s'.accepted == s.accepted
    ensures |s'.clients| == |s.clients|
    ensures forall c :: 0 <= c < |s.clients| ==>
      s'.clients[c].upto == s.clients[c].upto && |s'.clients[c].ring.buffer| <= |s.clients[c].ring.buffer|
  {
    hide ChainOk, ServiceOk, DiskOk, ClientsOk, BuildNext, Line, WellFormedEvent, NewTicket, Offer;
  }

  lemma ClosedQueueAcceptsNothing(sha: Sha, s: State, s': State)
    requires Step(sha, s, s') && s.queue.closed
    ensures s'.queue.closed && s'.accepted == s.accepted
  {
    hide BuildNext, Line, WellFormedEvent, NewTicket, Offer, AllStopped;
  }

  /** From close() to the writer's end exactly the backlog is served: the request in hand, if any, and
      the queued ones, in order. */
  lemma BacklogIsServed(sha: Sha, run: seq<State>, i: nat, j: nat)
    requires IsRun(sha, run) && Initial(run[0]) && i <= j < |run|
    requires run[i].queue.closed && run[j].writer.Stopped?
    ensures Requests(run[j].served) == Requests(run[i].served) + InFlight(run[i].writer) + run[i].queue.items
  {
    hide Initial, Step, ChainOk, DiskOk, ClientsOk, CreatedBlocks, Requests;
    AcceptedFixedAfterClose(sha, run, i, j);
    ReachableInv(sha, run, i);
    ReachableInv(sha, run, j);
    assert run[j].accepted == Requests(run[j].served) + [] + [];
  }

  lemma {:induction false} AcceptedFixedAfterClose(sha: Sha, run: seq<State>, i: nat, j: nat)
    requires IsRun(sha, run) && i <= j < |run| && run[i].queue.closed
    ensures run[j].accepted == run[i].accepted && run[j].queue.closed
    decreases j
  {
    hide Step;
    if i < j {
      AcceptedFixedAfterClose(sha, run, i, j - 1);
      ClosedQueueAcceptsNothing(sha, run[j - 1], run[j]);
    }
  }

  /** Blocks a client can still be sent. */
  ghost function Deliverable(cl: Client): nat {
    |Held(cl)| + |cl.ring.buffer|
  }

  lemma ClosedClientGetsNothing(sha: Sha, s: State, s': State, c: nat)
    requires Step(sha, s, s') && c < |s.clients| && s.clients[c].ring.closed
    ensures c < |s'.clients| && s'.clients[c].ring.closed && Deliverable(s'.clients[c]) == Deliverable(s.clients[c])
  {
    hide BuildNext, Line, WellFormedEvent, NewTicket, AllStopped, Prune;
  }

  /** After close() a pump sends at most what was in its hand and buffer. */
  lemma {:induction false} ClosedPumpDrains(sha: Sha, run: seq<State>, i: nat, j: nat, c: nat)
    requires IsRun(sha, run) && i <= j < |run| && c < |run[i].clients| && run[i].clients[c].ring.closed
    ensures c < |run[j].clients| && run[j].clients[c].ring.closed
    ensures Deliverable(run[j].clients[c]) == Deliverable(run[i].clients[c])
    ensures |run[j].clients[c].sent| <= |run[i].clients[c].sent|
      + (if run[i].clients[c].hand.Some? then 1 else 0) + |run[i].clients[c].ring.buffer|
    decreases j
  {
    hide Step;
    if i < j {
      ClosedPumpDrains(sha, run, i, j - 1, c);
      ClosedClientGetsNothing(sha, run[j - 1], run[j], c);
    }
  }

  /** The feed stops before the queue closes: from then on no client has an open subscription or a pump
      still at work, in any run. */
  lemma FeedStopsFirst(sha: Sha, run: seq<State>, i: nat, c: nat)
    requires IsRun(sha, run) && Initial(run[0]) && i < |run| && c < |run[i].clients|
    requires run[i].queue.closed || !(run[i].main.Serving? || run[i].main.StoppingFeed?)
    ensures run[i].clients[c].ring.closed && run[i].clients[c].pumpDone
  {
    hide ChainOk, ServiceOk, DiskOk, ClientsOk, IsRun, Initial;
    ReachableInv(sha, run, i);
  }
}
