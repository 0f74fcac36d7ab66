/** What the write path promises its callers, read off the invariant of every reachable state:
    durability, exactly-once service, order, and what a failing disk can and cannot do. */
module Guarantees {
  import opened Records
  import opened BoundedQueue
  import opened Broadcast
  import opened Blocks
  import opened Chains
  import opened Storage
  import opened WritePath

  // ----- durability -------------------------------------------------------------------------------

  lemma {:induction false} EncodePrefix(chain: seq<Block>, k: nat)
    requires k <= |chain|
    ensures EncodeLog(chain[..k]) <= EncodeLog(chain)
    decreases |chain|
  {
    hide Line;
    if k < |chain| {
      EncodePrefix(chain[..|chain| - 1], k);
      assert chain[..|chain| - 1][..k] == chain[..k];
    } else {
      assert chain[..k] == chain;
    }
  }

  /** The block at a chain position is on disk, complete, in its place, whatever fails: in the file the
      writer took over, or in what it has added to it. */
  ghost predicate Durable(s: State, k: nat) {
    k < |s.chain| && s.loaded + EncodeLog(Added(s, s.chain[..k + 1])) <= s.log.bytes
  }

  lemma EncodedInOrder(s: State, k: nat)
    requires s.base <= s.chain && k < |s.chain|
    ensures EncodeLog(Added(s, s.chain[..k + 1])) <= EncodeLog(Added(s, s.chain))
  {
    hide EncodeLog;
    var added := Added(s, s.chain);
    var n := if k + 1 >= |s.base| then k + 1 - |s.base| else 0;
    EncodePrefix(added, n);
    assert Added(s, s.chain[..k + 1]) == added[..n];
  }

  /** For every ledger a start-up accepts; the index of a block the file already held is its position if
      that file's chain was sound. */
  lemma ChainIsDurable(sha: Sha, s: State, k: nat)
    requires Inv(sha, s) && k < |s.chain|
    ensures Durable(s, k) && (k >= |s.base| || IndexIsPosition(s.base) ==> s.chain[k].index == Wrap(k))
  {
    hide EncodeLog, Line, ServiceOk, ClientsOk, MainOk, Verifies, BlockOk, ReadLog, Torn, Added;
    EncodedInOrder(s, k);
    if s.log.bad {
      var r, b, n :| Torn(sha, s, r, b, n);
      TornBytes(sha, s, r, b, n);
    } else if s.writer.Persisted? {
      AddedSnoc(s, s.writer.block);
    }
  }

  lemma TornBytes(sha: Sha, s: State, r: Request, b: Block, n: nat)
    requires Torn(sha, s, r, b, n)
    ensures n <= |Line(b)| && s.log.bytes == s.loaded + EncodeLog(Added(s, s.chain)) + Line(b)[..n]
  {
    hide BuildNext, BlockText, EncodeLog;
  }

  lemma {:induction false} CreatedAt(served: seq<Served>, i: nat) returns (k: nat)
    requires i < |served| && served[i].reply.Created?
    ensures k < |CreatedBlocks(served)| && CreatedBlocks(served)[k] == served[i].reply.block
  {
    if i == |served| - 1 {
      k := |CreatedBlocks(served)| - 1;
    } else {
      k := CreatedAt(served[..|served| - 1], i);
    }
  }

  /** A 201 reply names a block that is in the chain at the position its index says, and on disk. */
  lemma RepliedIsDurable(sha: Sha, s: State, i: nat) returns (k: nat)
    requires Inv(sha, s) && i < |s.served| && s.served[i].reply.Created?
    ensures |s.base| <= k && Durable(s, k)
    ensures s.chain[k] == s.served[i].reply.block && s.served[i].reply.block.index == Wrap(k)
    ensures s.chain[k].event == s.served[i].request.event
  {
    hide Inv, CreatedBlocks, Requests, Durable, ChainOk, DiskOk, ClientsOk, MainOk;
    assert ServiceOk(s) by { InvParts(sha, s); }
    var j := CreatedAt(s.served, i);
    k := |s.base| + j;
    assert s.chain[k] == CreatedBlocks(s.served)[j];
    ChainIsDurable(sha, s, k);
    assert Durable(s, k);
  }

  /** A subscriber never learns of a block that is not yet readable and on disk: everything buffered,
      in a pump's hand or sent lies in the chain, between where the client subscribed and its end. */
  lemma BroadcastIsDurable(sha: Sha, s: State, c: nat, b: Block) returns (k: nat)
    requires Inv(sha, s) && c < |s.clients|
    requires b in s.clients[c].ring.buffer
          || exists i :: 0 <= i < |Held(s.clients[c])| && Held(s.clients[c])[i].value == b
    ensures s.clients[c].first <= k < |s.chain| && s.chain[k] == b && Durable(s, k) && b.index == Wrap(k)
  {
    hide Inv, Held, Durable, ChainOk, DiskOk, ServiceOk, MainOk, ClientsOk;
    InvParts(sha, s);
    if b in s.clients[c].ring.buffer {
      k := BufferedIsInChain(s, c, b);
    } else {
      k := HeldIsInChain(s, c, b);
    }
    ChainIsDurable(sha, s, k);
  }

  lemma BufferedIsInChain(s: State, c: nat, b: Block) returns (k: nat)
    requires ClientsOk(s) && c < |s.clients| && b in s.clients[c].ring.buffer
    ensures |s.base| <= s.clients[c].first <= k < |s.chain| && s.chain[k] == b
  {
    hide Held;
    assert ClientOk(s, c);
    var cl := s.clients[c];
    var offered, buffer := s.chain[cl.first..cl.upto], cl.ring.buffer;
    var i :| 0 <= i < |buffer| && buffer[i] == b;
    k := cl.upto - |buffer| + i;
    assert buffer == offered[|offered| - |buffer|..];
    assert offered[|offered| - |buffer| + i] == b;
    assert s.chain[k] == b;
  }

  lemma HeldIsInChain(s: State, c: nat, b: Block) returns (k: nat)
    requires ClientsOk(s) && c < |s.clients|
    requires exists i :: 0 <= i < |Held(s.clients[c])| && Held(s.clients[c])[i].value == b
    ensures |s.base| <= s.clients[c].first <= k < |s.chain| && s.chain[k] == b
  {
    hide Held, Covered;
    assert ClientOk(s, c);
    var cl := s.clients[c];
    var i :| 0 <= i < |Held(cl)| && Held(cl)[i].value == b;
    assert DeliveredAt(s.chain[cl.first..cl.upto], Held(cl), i);
    CoversSomething(Held(cl), i);
    k := cl.first + Covered(Held(cl)[..i + 1]) - 1;
    assert s.chain[k] == s.chain[cl.first..cl.upto][k - cl.first];
  }

  lemma CoversSomething<T>(items: seq<Item<T>>, i: nat)
    requires i < |items|
    ensures Covered(items[..i + 1]) >= 1
  {
  }

  /** The boot chain is kept, and whether the chain verifies and is numbered by position is decided by
      the boot chain alone. The chain is what Chain::append, which the writer never calls, would have
      built from the later blocks' own events and timestamps, exactly if nothing was appended or the
      boot chain's last index fits its length, as it does on every chain that is sound. */
  lemma ChainIsAppendOnly(sha: Sha, s: State)
    requires Inv(sha, s)
    ensures s.base != [] && s.base <= s.chain && (Sound(sha, s.chain) <==> Sound(sha, s.base))
    ensures s.chain == AppendAll(sha, s.base, Stamps(s.chain[|s.base|..]))
      <==> (s.chain == s.base || Wrap(|s.base|) == Wrap(Last(s.base).index + 1))
    ensures Sound(sha, s.base) ==> Wrap(|s.base|) == Wrap(Last(s.base).index + 1)
  {
    hide Inv, Sound, Grown, AppendAll, ServiceOk, DiskOk, ClientsOk, MainOk;
    InvParts(sha, s);
    GrownIsNonempty(sha, s.base, s.chain);
    GrowthKeepsVerdict(sha, s.base, s.chain);
    GrownChainIsAppended(sha, s.base, s.chain);
    if Sound(sha, s.base) { SoundIndexFits(sha, s.base); }
  }

  lemma SoundIndexFits(sha: Sha, chain: seq<Block>)
    requires Sound(sha, chain)
    ensures chain != [] && Wrap(|chain|) == Wrap(Last(chain).index + 1)
  {
    hide Verifies;
    WrapStep(|chain| - 1);
  }

  // ----- exactly once, in order ----------------------------------------------------------------------

  ghost predicate IsServed(s: State, r: Request) {
    exists i :: 0 <= i < |s.served| && s.served[i].request == r
  }

  ghost predicate IsQueued(s: State, r: Request) { r in s.queue.items }

  ghost predicate IsInFlight(s: State, r: Request) { r in InFlight(s.writer) }

  /** An accepted request is answered, in the writer's hands or queued: exactly one of the three, and
      answered at most once. */
  lemma ExactlyOnce(sha: Sha, s: State, r: Request)
    requires Inv(sha, s)
    ensures r in s.accepted <==> IsServed(s, r) || IsInFlight(s, r) || IsQueued(s, r)
    ensures !(IsServed(s, r) && IsInFlight(s, r)) && !(IsServed(s, r) && IsQueued(s, r)) &&
      !(IsInFlight(s, r) && IsQueued(s, r))
    ensures forall i, j :: 0 <= i < j < |s.served| ==> s.served[i].request.ticket != s.served[j].request.ticket
  {
    hide Inv, ChainOk, DiskOk, ClientsOk, MainOk, CreatedBlocks, WithinCapacity;
    InvParts(sha, s);
    var a, b, c := Requests(s.served), InFlight(s.writer), s.queue.items;
    assert s.accepted == a + b + c;
    forall i | 0 <= i < |s.accepted|
      ensures s.accepted[i] == (if i < |a| then a[i] else if i < |a| + |b| then b[i - |a|] else c[i - |a| - |b|])
    {
    }
    PartsAreDisjoint(s.accepted, a, b, c, r);
    assert IsServed(s, r) <==> r in a by {
      if r in a { var i :| 0 <= i < |a| && a[i] == r; assert s.served[i].request == r; }
      if IsServed(s, r) { var i :| 0 <= i < |s.served| && s.served[i].request == r; assert a[i] == r; }
    }
    forall i, j | 0 <= i < j < |s.served| ensures s.served[i].request.ticket != s.served[j].request.ticket {
      assert s.accepted[i] == a[i] && s.accepted[j] == a[j];
    }
  }

  lemma PartsAreDisjoint(all: seq<Request>, a: seq<Request>, b: seq<Request>, c: seq<Request>, r: Request)
    requires all == a + b + c && forall i, j :: 0 <= i < j < |all| ==> all[i].ticket != all[j].ticket
    ensures r in all <==> r in a || r in b || r in c
    ensures !(r in a && r in b) && !(r in a && r in c) && !(r in b && r in c)
  {
    if r in a {
      var i :| 0 <= i < |a| && a[i] == r;
      assert all[i] == r;
      forall j | |a| <= j < |all| ensures all[j] != r { assert all[i].ticket != all[j].ticket; }
      assert forall j :: 0 <= j < |b| ==> b[j] == all[|a| + j];
      assert forall j :: 0 <= j < |c| ==> c[j] == all[|a| + |b| + j];
    }
    if r in b {
      var i :| 0 <= i < |b| && b[i] == r;
      assert all[|a| + i] == r;
      forall j | |a| + |b| <= j < |all| ensures all[j] != r { assert all[|a| + i].ticket != all[j].ticket; }
      assert forall j :: 0 <= j < |c| ==> c[j] == all[|a| + |b| + j];
    }
  }

  /** The events of the requests that were answered with 201, in order. */
  ghost function SuccessfulEvents(served: seq<Served>): seq<Event> {
    if served == [] then []
    else
      SuccessfulEvents(served[..|served| - 1]) +
      (if Last(served).reply.Created? then [Last(served).request.event] else [])
  }

  ghost function EventsOf(blocks: seq<Block>): seq<Event> {
    seq(|blocks|, i requires 0 <= i < |blocks| => blocks[i].event)
  }

  lemma {:induction false} CreatedEvents(served: seq<Served>)
    requires forall i :: 0 <= i < |served| && served[i].reply.Created? ==>
               served[i].reply.block.event == served[i].request.event
    ensures EventsOf(CreatedBlocks(served)) == SuccessfulEvents(served)
  {
    if served != [] {
      CreatedEvents(served[..|served| - 1]);
    }
  }

  /** What was appended after boot are the accepted events in acceptance order, minus those whose
      write failed; the last one may still be unanswered. */
  lemma ChainFollowsAcceptance(sha: Sha, s: State)
    requires Inv(sha, s)
    ensures s.base <= s.chain && Requests(s.served) <= s.accepted
    ensures EventsOf(s.chain[|s.base|..])
         == SuccessfulEvents(s.served) + (if Unanswered(s.writer) == [] then [] else [s.writer.request.event])
  {
    hide Inv, Grown, DiskOk, ClientsOk, MainOk, CreatedBlocks, Requests, SuccessfulEvents;
    InvParts(sha, s);
    CreatedEvents(s.served);
    assert s.chain[|s.base|..] == CreatedBlocks(s.served) + Unanswered(s.writer);
  }

  // ----- a failed disk -----------------------------------------------------------------------------------

  /** Once an append has failed, the file and the chain never change again in this process, and every
      request from then on is answered with the failure. */
  lemma FailureIsFinal(sha: Sha, s: State, s': State)
    requires Inv(sha, s) && Step(sha, s, s') && s.log.bad
    ensures s'.log == s.log && s'.chain == s.chain
    ensures s'.served == s.served || (|s'.served| == |s.served| + 1 && Last(s'.served).reply == StorageFailure)
  {
    hide ReadLog, Torn, Added, ChainOk, ServiceOk, ClientsOk, MainOk, BuildNext, Line, WellFormedEvent, NewTicket,
        EncodeLog;
  }

  lemma {:induction false} FailureIsFinalForever(sha: Sha, run: seq<State>, i: nat, j: nat)
    requires IsRun(sha, run) && Initial(run[0]) && i <= j < |run| && run[i].log.bad
    ensures run[j].log == run[i].log && run[j].chain == run[i].chain
    decreases j
  {
    hide Step, Initial, Inv;
    if i < j {
      FailureIsFinalForever(sha, run, i, j - 1);
      ReachableInv(sha, run, j - 1);
      FailureIsFinal(sha, run[j - 1], run[j]);
    }
  }

  /** The chain only ever grows, at its end, and the disk only ever gains bytes. */
  lemma NothingIsRewritten(sha: Sha, s: State, s': State)
    requires Step(sha, s, s')
    ensures s.chain <= s'.chain && s.log.bytes <= s'.log.bytes
    ensures s.accepted <= s'.accepted && s.served <= s'.served
  {
    hide Enabled, Apply;
    var l :| Enabled(s, l) && s' == Apply(sha, s, l);
    ChainAndFileGrow(sha, s, l);
    RecordsGrow(sha, s, l);
  }

  lemma ChainAndFileGrow(sha: Sha, s: State, l: Label)
    requires Enabled(s, l)
    ensures s.chain <= Apply(sha, s, l).chain && s.log.bytes <= Apply(sha, s, l).log.bytes
  {
    hide BuildNext, Line, WellFormedEvent, NewTicket, Prune, PushSection, PopSection, ClientEnabled, ClientStep,
        AllStopped, OfferTo, NextToPublish, Bounded;
  }

  lemma RecordsGrow(sha: Sha, s: State, l: Label)
    requires Enabled(s, l)
    ensures s.accepted <= Apply(sha, s, l).accepted && s.served <= Apply(sha, s, l).served
  {
    hide BuildNext, Line, WellFormedEvent, NewTicket, Prune, PushSection, PopSection, ClientEnabled, ClientStep,
        AllStopped, OfferTo, NextToPublish, Bounded, AppendLine;
  }

  // ----- the next start-up -------------------------------------------------------------------------------

  /** On a file of complete lines, and no append has failed: the next start-up finds exactly what has
      been persisted. */
  lemma NextStartFindsEverything(sha: Sha, s: State, now: string)
    requires Inv(sha, s) && TakenOver(s) && Terminated(s.loaded) && !s.log.bad
    ensures LoadChain(sha, Some(s.log.bytes), now) == Loaded(DiskChain(s))
  {
    hide Inv, ReadLog, EncodeLog, ServiceOk, ChainOk, ClientsOk, MainOk, LoadChain, Terminated, DiskChain;
    InvParts(sha, s);
    var more := Added(s, DiskChain(s));
    DiskChainGrows(sha, s);
    assert more == DiskChain(s)[|s.base|..] && s.base + more == DiskChain(s);
    AppendedLogRoundTrip(sha, s.loaded, s.base, more, now);
  }

  lemma DiskChainGrows(sha: Sha, s: State)
    requires ServiceOk(s) && ChainOk(sha, s) && DiskOk(sha, s)
    ensures s.base != [] && s.base <= DiskChain(s) && Readable(DiskChain(s))
  {
    hide CreatedBlocks, Requests, ReadLog, EncodeLog, Torn, BlockOk, WellFormedEvent;
    if s.writer.Persisted? { InFlightIsAccepted(s); }
  }

  /** And after an append has failed: the chain is back, or the block of a refused request has come back
      to life on top of it, although its client was told of the failure, or start-up names the torn
      line. The revived block is the one the writer had built, so the chain it gives is sound if the
      chain was. */
  lemma NextStartAfterFailure(sha: Sha, s: State, now: string) returns (r: Request, b: Block, n: nat)
    requires Inv(sha, s) && TakenOver(s) && Terminated(s.loaded) && s.log.bad
    ensures s.chain != [] && RefusedFor(s, r) && r in s.accepted
    ensures b == BuildNext(sha, s.chain, r.event, b.timestamp) && n <= |Line(b)|
    ensures LoadChain(sha, Some(s.log.bytes), now)
         == if n == 0 then Loaded(s.chain)
            else if n >= |BlockText(b)| then Loaded(s.chain + [b])
            else Malformed(|s.chain| + 1)
    ensures Sound(sha, s.chain) ==> Sound(sha, s.chain + [b])
  {
    hide Inv, ReadLog, EncodeLog, BlockText, ClientsOk, MainOk, Genesis, WellFormedEvent, Sound, BuildNext, Grown,
        CreatedBlocks;
    InvParts(sha, s);
    r, b, n :| Torn(sha, s, r, b, n);
    GrownIsNonempty(sha, s.base, s.chain);
    var more := Added(s, s.chain);
    assert s.base + more == s.chain;
    assert Readable(more);
    RestartAfterTornAppend(sha, s.loaded, s.base, more, b, n, now);
    RefusedIsAccepted(s, r);
    if Sound(sha, s.chain) { GrowthKeepsSound(sha, s.chain, r.event, b.timestamp); }
  }

  lemma RefusedIsAccepted(s: State, r: Request)
    requires ServiceOk(s) && RefusedFor(s, r)
    ensures r in s.accepted
  {
    hide CreatedBlocks;
    if s.writer == Failing(r) {
      InFlightIsAccepted(s);
    } else {
      var i :| 0 <= i < |s.served| && s.served[i] == Served(r, StorageFailure);
      assert Requests(s.served)[i] == r;
      assert s.accepted[i] == r;
    }
  }

  /** On a file whose last line lacked its newline the process serves as always, and nothing it adds
      survives: the next start-up comes back exactly if nothing was written. */
  lemma NextStartAfterUnterminated(sha: Sha, s: State, now: string)
    requires Inv(sha, s) && TakenOver(s) && !Terminated(s.loaded)
    ensures s.base != []
    ensures LoadChain(sha, Some(s.log.bytes), now)
         == if s.log.bytes == s.loaded then Loaded(s.base) else Malformed(|s.base|)
  {
    hide Inv, ReadLog, BlockText, ServiceOk, ClientsOk, MainOk, Genesis, WellFormedEvent, BuildNext, BlockOk, DiskChain;
    InvParts(sha, s);
    DiskChainGrows(sha, s);
    var b, n, more := PendingLine(sha, s);
    GluedLineIsMalformed(sha, s.loaded, s.base, more, b, n, now);
    SomethingAdded(more, b, n);
    assert s.log.bytes == s.loaded + (EncodeLog(more) + Line(b)[..n]);
  }

  lemma SomethingAdded(more: seq<Block>, b: Block, n: nat)
    requires n <= |Line(b)|
    ensures EncodeLog(more) + Line(b)[..n] == "" <==> more == [] && n == 0
  {
    hide BlockText;
  }

  /** The file as what was loaded, complete lines, and part of one. */
  lemma PendingLine(sha: Sha, s: State) returns (b: Block, n: nat, more: seq<Block>)
    requires ServiceOk(s) && ChainOk(sha, s) && DiskOk(sha, s)
    ensures Readable(more) && WellFormedEvent(b.event) && n <= |Line(b)|
    ensures s.log.bytes == s.loaded + EncodeLog(more) + Line(b)[..n]
  {
    hide ReadLog, BlockText, BuildNext, BlockOk, WellFormedEvent, EncodeLog;
    DiskChainGrows(sha, s);
    if s.log.bad {
      var r;
      r, b, n :| Torn(sha, s, r, b, n);
      more := Added(s, s.chain);
    } else {
      more, n, b := Added(s, DiskChain(s)), 0, s.base[0];
      assert DiskChain(s)[0] == b;
      assert s.loaded + EncodeLog(more) + "" == s.loaded + EncodeLog(more);
    }
  }

  /** So what a process adds survives its restart, if no append has failed, exactly when the file it took
      over ended in a complete line. */
  lemma NewBlocksSurviveIff(sha: Sha, s: State, now: string)
    requires Inv(sha, s) && TakenOver(s) && !s.log.bad && DiskChain(s) != s.base
    ensures LoadChain(sha, Some(s.log.bytes), now) == Loaded(DiskChain(s)) <==> Terminated(s.loaded)
  {
    hide Inv, LoadChain, EncodeLog, Terminated, ServiceOk, ClientsOk, MainOk, ReadLog;
    if Terminated(s.loaded) {
      NextStartFindsEverything(sha, s, now);
    } else {
      NextStartAfterUnterminated(sha, s, now);
      InvParts(sha, s);
      DiskChainGrows(sha, s);
      assert |DiskChain(s)| > |s.base|;
    }
  }

  /** For every run, and every start-up after it. */
  lemma NextStartInAnyRun(sha: Sha, run: seq<State>, i: nat, now: string) returns (refused: Option<(Request, Block)>)
    requires IsRun(sha, run) && Initial(run[0]) && i < |run| && Terminated(run[0].loaded)
    ensures var s, next := run[i], LoadChain(sha, Some(run[i].log.bytes), now);
      && (refused.Some? <==> s.log.bad)
      && (refused.None? ==> next == Loaded(DiskChain(s)))
      && (refused.Some? ==>
            var (r, b) := refused.value;
            && RefusedFor(s, r) && r in s.accepted
            && s.chain != [] && b == BuildNext(sha, s.chain, r.event, b.timestamp)
            && (next == Loaded(s.chain) || next == Loaded(s.chain + [b]) || next == Malformed(|s.chain| + 1)))
  {
    hide Inv, LoadChain, IsRun, BuildNext, Line, BlockText, Sound, Terminated, ReadLog;
    ReachableInv(sha, run, i);
    if run[i].log.bad {
      var r, b, n := NextStartAfterFailure(sha, run[i], now);
      refused := Some((r, b));
    } else {
      NextStartFindsEverything(sha, run[i], now);
      refused := None;
    }
  }
}
