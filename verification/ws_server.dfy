/** The WebSocket server's connection map and its pumps, as objects: who closes what, in which order, and
    what a pump writes. */
module WsServers {
  import opened Records
  import opened Broadcast
  import opened FeedOrder

  /** std::thread: joinable from construction until it is joined. */
  class Thread {
    var joinable: bool
    var joins: nat

    constructor ()
      ensures joinable && joins == 0
    {
      joinable, joins := true, 0;
    }

    method Join()
      requires joinable
      modifies this
      ensures !joinable && joins == old(joins) + 1
    {
      joinable, joins := false, joins + 1;
    }
  }

  class Conn {
    const subscription: Subscription
    const pump: Thread

    constructor (subscription: Subscription, pump: Thread)
      ensures this.subscription == subscription && this.pump == pump
    {
      this.subscription, this.pump := subscription, pump;
    }
  }

  // ----- one pump ------------------------------------------------------------------------------------

  /** The first n deliveries of a ring nobody else touches, and what is left of it. */
  ghost function TakeN(r: Ring<Block>, n: nat): (t: (seq<Item<Block>>, Ring<Block>))
    requires n <= |r.buffer|
    ensures |t.0| == n && t.1.buffer == r.buffer[n..] && t.1.closed == r.closed
  {
    if n == 0 then ([], r)
    else
      var (items, left) := TakeN(r, n - 1);
      (items + [Take(left).1], Take(left).0)
  }

  lemma NoDelivery(r: Ring<Block>)
    ensures TakeN(r, 0) == ([], r) && FramesOf([]) == []
  {
  }

  lemma OneMoreDelivery(r: Ring<Block>, n: nat)
    requires n < |r.buffer|
    ensures
      var (items, left) := TakeN(r, n);
      && TakeN(r, n + 1) == (items + [Take(left).1], Take(left).0)
      && FramesOf(TakeN(r, n + 1).0) == FramesOf(items) + ItemFrames(Take(left).1)
  {
    var (items, left) := TakeN(r, n);
    assert TakeN(r, n + 1).0[..n] == items;
  }

  datatype PumpEnd = Idle | SubscriptionEnded | SocketGone

  /** The pump's loop over what is buffered now, with a socket that survives `sends` items: every item
      goes out as its frames, the gap before the block; the item in hand when the socket is found gone
      is lost; and a closed subscription is drained before the loop ends. */
  method PumpPass(subscription: Subscription, sends: nat) returns (frames: seq<Frame>, end: PumpEnd)
    requires subscription.Valid()
    modifies subscription
    ensures subscription.Valid()
    ensures
      var r := old(subscription.View());
      var n := if sends <= |r.buffer| then sends else |r.buffer|;
      && frames == FramesOf(TakeN(r, n).0)
      && (end.SocketGone? <==> sends < |r.buffer|)
      && (end.SubscriptionEnded? <==> sends >= |r.buffer| && r.closed)
      && subscription.View() == if end.SocketGone? then TakeN(r, n + 1).1 else TakeN(r, n).1
  {
    hide FramesOf, TakeN, Bounded;
    frames := [];
    ghost var r := subscription.View();
    var sent := 0;
    NoDelivery(r);
    while true
      invariant subscription.Valid() && sent <= sends && sent <= |r.buffer|
      invariant subscription.View() == TakeN(r, sent).1 && frames == FramesOf(TakeN(r, sent).0)
      decreases |subscription.buffer|
    {
      var d := subscription.Next();
      match d
      case WouldBlock => return frames, Idle;
      case Ended => return frames, SubscriptionEnded;
      case Got(item) =>
        OneMoreDelivery(r, sent);
        if sent == sends {
          return frames, SocketGone;
        }
        if item.lagged > 0 {
          frames := frames + [LagFrame(item.lagged)];
        }
        frames := frames + [BlockFrame(item.value)];
        sent := sent + 1;
    }
  }

  // ----- the connection map -----------------------------------------------------------------------------

  /** The request target up to its query string. */
  function PathOf(uri: string): (path: string)
    ensures path <= uri && '?' !in path && (path == uri || uri[|path|] == '?')
  {
    if uri == "" || uri[0] == '?' then "" else [uri[0]] + PathOf(uri[1..])
  }

  /** One connection's objects after it has been closed and its pump joined. */
  twostate predicate Retired(c: Conn)
    reads c.subscription, c.pump
  {
    && c.subscription.View() == old(c.subscription.View()).(closed := true)
    && !c.pump.joinable && c.pump.joins == old(c.pump.joins) + 1
  }

  twostate predicate Untouched(c: Conn)
    reads c.subscription, c.pump
  {
    && c.subscription.View() == old(c.subscription.View())
    && c.pump.joinable == old(c.pump.joinable) && c.pump.joins == old(c.pump.joins)
  }

  ghost predicate Separate(conns: map<string, Conn>) {
    forall id, id' :: id in conns && id' in conns && id != id' ==>
      conns[id].subscription != conns[id'].subscription && conns[id].pump != conns[id'].pump
  }

  lemma SeparateInsert(conns: map<string, Conn>, id: string, conn: Conn)
    requires Separate(conns) && id !in conns
    requires forall other :: other in conns ==>
      conns[other].subscription != conn.subscription && conns[other].pump != conn.pump
    ensures Separate(conns[id := conn])
  {
  }

  /** The subscription first: that is what lets the pump out of its wait. */
  method Retire(conn: Conn)
    requires conn.subscription.Valid() && conn.pump.joinable
    modifies conn.subscription, conn.pump
    ensures Retired(conn) && conn.subscription.Valid()
  {
    conn.subscription.Close();
    conn.pump.Join();
  }

  method RetireAll(taken: map<string, Conn>, ghost subs: set<Subscription>, ghost threads: set<Thread>)
    requires Separate(taken)
    requires forall id :: id in taken ==> taken[id].subscription in subs && taken[id].pump in threads
    requires forall id :: id in taken ==> taken[id].subscription.Valid() && taken[id].pump.joinable
    modifies subs, threads
    ensures forall id :: id in taken ==> Retired(taken[id])
  {
    hide Bounded;
    var rest := taken.Keys;
    while rest != {}
      invariant rest <= taken.Keys
      invariant forall id :: id in rest ==> Untouched(taken[id])
      invariant forall id :: id in rest ==> taken[id].subscription.Valid() && taken[id].pump.joinable
      invariant forall id :: id in taken && id !in rest ==> Retired(taken[id])
    {
      var id :| id in rest;
      assert Untouched(taken[id]);
      Retire(taken[id]);
      rest := rest - {id};
    }
  }

  class Impl {
    var conns: map<string, Conn>
    var running: bool

    ghost function Subscriptions(): set<Subscription>
      reads this
    {
      set c | c in conns.Values :: c.subscription
    }

    ghost function Threads(): set<Thread>
      reads this
    {
      set c | c in conns.Values :: c.pump
    }

    /** Every connection in the map has its own subscription and its own joinable pump. */
    ghost predicate Valid()
      reads this, Subscriptions(), Threads()
    {
      && (forall id :: id in conns ==> conns[id].subscription.Valid() && conns[id].pump.joinable)
      && Separate(conns)
    }

    constructor ()
      ensures Valid() && conns == map[] && !running
    {
      conns, running := map[], false;
    }

    /** A socket that is already gone, or a path other than the feed's, opens nothing. Starting a pump on
        an id already in the map would abort the program, so ids must not be reused. */
    method OnOpen(id: string, alive: bool, uri: string, broadcaster: Broadcaster, live: set<Subscription>)
      requires Valid() && broadcaster.Valid() && id !in conns
      modifies `conns, broadcaster
      ensures Valid() && broadcaster.Valid()
      ensures alive && PathOf(uri) == "/blocks" ==>
        id in conns && conns == old(conns)[id := conns[id]] && fresh(conns[id].subscription) && fresh(conns[id].pump)
        && conns[id].subscription.View() == Ring([], 64, 0, false)
        && broadcaster.subscribers == Live(old(broadcaster.subscribers), live) + [conns[id].subscription]
      ensures !(alive && PathOf(uri) == "/blocks") ==>
        conns == old(conns) && broadcaster.subscribers == old(broadcaster.subscribers)
    {
      hide Live, Distinct, Bounded, Separate;
      if !alive {
        return;
      }
      if PathOf(uri) != "/blocks" {
        return;
      }
      var subscription := broadcaster.Subscribe(64, live);
      assert subscription !in Subscriptions();
      Insert(id, subscription);
    }

    /** The part of on_open that holds the map's lock. */
    method Insert(id: string, subscription: Subscription)
      requires Valid() && subscription.Valid() && id !in conns && subscription !in Subscriptions()
      modifies `conns
      ensures Valid() && id in conns && conns == old(conns)[id := conns[id]]
      ensures conns[id].subscription == subscription && fresh(conns[id].pump)
    {
      hide Bounded, Separate;
      var pump := new Thread();
      var conn := new Conn(subscription, pump);
      SeparateInsert(conns, id, conn);
      conns := conns[id := conn];
    }

    /** Whoever finds the connection in the map takes it out, closes it, and only then joins its pump;
        the second Close or Error finds nothing. */
    method OnClose(id: string)
      requires Valid()
      modifies `conns, Subscriptions(), Threads()
      ensures Valid() && conns == old(conns) - {id}
      ensures id in old(conns) ==> Retired(old(conns)[id])
      ensures forall other :: other in old(conns) && other != id ==> Untouched(old(conns)[other])
    {
      if id !in conns {
        assert conns == conns - {id};
        return;
      }
      var conn := conns[id];
      conns := conns - {id};
      Retire(conn);
    }

    /** Takes everything there is out of the map and retires it. */
    method CloseAll()
      requires Valid()
      modifies `conns, Subscriptions(), Threads()
      ensures Valid() && conns == map[]
      ensures forall id :: id in old(conns) ==> Retired(old(conns)[id])
    {
      var taken := conns;
      ghost var subs, threads := Subscriptions(), Threads();
      conns := map[];
      RetireAll(taken, subs, threads);
    }

    /** The destructor calls stop() again; only the first call does anything. The library's own stop, in
        between, ends the connections, each of which calls OnClose from its thread. */
    method Stop()
      requires Valid()
      modifies this, Subscriptions(), Threads()
      ensures Valid() && !running
      ensures old(running) ==> conns == map[] && forall id :: id in old(conns) ==> Retired(old(conns)[id])
      ensures !old(running) ==> conns == old(conns) && forall id :: id in old(conns) ==> Untouched(old(conns)[id])
    {
      hide Bounded;
      if !running {
        return;
      }
      running := false;
      CloseAll();
    }
  }
}
