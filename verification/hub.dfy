/** The backend's second fan-out: one bounded, drop-oldest mailbox per browser, and the hub that copies
    every upstream frame to all of them. It counts what it drops but announces nothing. */
module Hub {
  import opened Records

  /** asyncio.Queue(maxsize=capacity) and the number of frames pushed out of it. */
  datatype Mailbox<T> = Mailbox(queue: seq<T>, capacity: nat, dropped: nat)

  /** A maxsize of zero means no bound. */
  predicate Full<T>(m: Mailbox<T>) {
    m.capacity > 0 && |m.queue| >= m.capacity
  }

  predicate Fits<T>(m: Mailbox<T>) {
    m.capacity > 0 ==> |m.queue| <= m.capacity
  }

  function AfterPut<T>(m: Mailbox<T>, x: T): Mailbox<T> {
    if !Full(m) then m.(queue := m.queue + [x])
    else
      var room := m.(queue := m.queue[1..], dropped := m.dropped + 1);
      if Full(room) then room else room.(queue := room.queue + [x])
  }

  function AfterGet<T>(m: Mailbox<T>): (Mailbox<T>, T)
    requires m.queue != []
  {
    (m.(queue := m.queue[1..]), m.queue[0])
  }

  ghost predicate Increasing(at: seq<nat>) {
    forall i, j :: 0 <= i < j < |at| ==> at[i] < at[j]
  }

  /** got is what stands at these places of offered. */
  ghost predicate PickedFrom<T(!new)>(offered: seq<T>, at: seq<nat>, got: seq<T>) {
    && |at| == |got| && Increasing(at)
    && forall i :: 0 <= i < |at| ==> at[i] < |offered| && got[i] == offered[at[i]]
  }

  /** The books of a mailbox: the frames received stand in order in what was offered, the queue holds
      the newest of it, and received + queued + dropped is all of it. */
  ghost predicate Books<T(!new)>(offered: seq<T>, at: seq<nat>, got: seq<T>, m: Mailbox<T>) {
    && Fits(m) && PickedFrom(offered, at, got)
    && |offered| == |got| + |m.queue| + m.dropped
    && m.queue == offered[|offered| - |m.queue|..]
    && forall i :: 0 <= i < |at| ==> at[i] < |offered| - |m.queue|
  }

  lemma PutKeepsBooks<T(!new)>(offered: seq<T>, at: seq<nat>, got: seq<T>, m: Mailbox<T>, x: T)
    requires Books(offered, at, got, m)
    ensures Books(offered + [x], at, got, AfterPut(m, x))
  {
  }

  /** The frame handed out is the one right behind everything handed out or dropped before. */
  lemma GetKeepsBooks<T(!new)>(offered: seq<T>, at: seq<nat>, got: seq<T>, m: Mailbox<T>)
    requires Books(offered, at, got, m) && m.queue != []
    ensures Books(offered, at + [|offered| - |m.queue|], got + [AfterGet(m).1], AfterGet(m).0)
  {
  }

  lemma {:induction false} NoRoomToSkip(at: seq<nat>, n: nat, i: nat)
    requires Increasing(at) && |at| == n && i < n && (forall k :: 0 <= k < n ==> at[k] < n)
    ensures at[i] == i
  {
    AtLeast(at, i);
    AtMost(at, n, i);
  }

  lemma {:induction false} AtLeast(at: seq<nat>, i: nat)
    requires Increasing(at) && i < |at|
    ensures at[i] >= i
  {
    if i > 0 { AtLeast(at, i - 1); }
  }

  lemma {:induction false} AtMost(at: seq<nat>, n: nat, i: nat)
    requires Increasing(at) && i < |at| && (forall k :: 0 <= k < |at| ==> at[k] < n)
    ensures at[i] + (|at| - i) <= n
    decreases |at| - i
  {
    if i + 1 < |at| { AtMost(at, n, i + 1); }
  }

  /** A browser has missed nothing exactly when the mailbox has dropped nothing. */
  lemma NothingLostIffNothingDropped<T(!new)>(offered: seq<T>, at: seq<nat>, got: seq<T>, m: Mailbox<T>)
    requires Books(offered, at, got, m)
    ensures m.dropped == 0 <==> got + m.queue == offered
  {
    if m.dropped == 0 {
      forall i | 0 <= i < |got| ensures got[i] == offered[i] {
        NoRoomToSkip(at, |got|, i);
      }
      assert offered == offered[..|got|] + offered[|got|..];
    }
  }

  // ----- the objects ------------------------------------------------------------------------------

  class Subscription<T> {
    var queue: seq<T>
    const capacity: nat
    var dropped: nat

    ghost function View(): Mailbox<T>
      reads this
    {
      Mailbox(queue, capacity, dropped)
    }

    ghost predicate Valid()
      reads this
    {
      Fits(View())
    }

    constructor (capacity: nat := 64)
      ensures Valid() && View() == Mailbox([], capacity, 0)
    {
      queue, this.capacity, dropped := [], capacity, 0;
    }

    method PutNowait(frame: T) returns (ok: bool)
      requires Valid()
      modifies `queue
      ensures ok == !old(Full(View())) && Valid()
      ensures queue == if ok then old(queue) + [frame] else old(queue)
    {
      if capacity > 0 && |queue| >= capacity {
        return false;
      }
      queue := queue + [frame];
      return true;
    }

    /** Never waits: a full mailbox gives up its oldest frame for the new one. */
    method Put(frame: T)
      requires Valid()
      modifies this
      ensures Valid() && View() == AfterPut(old(View()), frame)
    {
      var ok := PutNowait(frame);
      if !ok {
        queue := queue[1..];
        dropped := dropped + 1;
        ok := PutNowait(frame);
      }
    }

    /** None where the source would wait. */
    method Get() returns (frame: Option<T>)
      requires Valid()
      modifies this
      ensures Valid() && (frame.Some? <==> old(queue) != [])
      ensures if frame.Some? then (View(), frame.value) == AfterGet(old(View())) else View() == old(View())
    {
      if queue == [] {
        return None;
      }
      frame := Some(queue[0]);
      queue := queue[1..];
    }
  }

  class BrowserHub<T> {
    var subscriptions: set<Subscription<T>>
    var delivered: nat

    ghost predicate Valid()
      reads this, subscriptions
    {
      forall s :: s in subscriptions ==> s.Valid()
    }

    constructor ()
      ensures Valid() && subscriptions == {} && delivered == 0
    {
      subscriptions, delivered := {}, 0;
    }

    method Subscribe() returns (s: Subscription<T>)
      requires Valid()
      modifies `subscriptions
      ensures Valid() && fresh(s) && subscriptions == old(subscriptions) + {s}
      ensures s.View() == Mailbox([], 64, 0)
    {
      s := new Subscription<T>(64);
      subscriptions := subscriptions + {s};
    }

    /** A second unsubscribe does nothing. */
    method Unsubscribe(s: Subscription<T>)
      requires Valid()
      modifies `subscriptions
      ensures Valid() && subscriptions == old(subscriptions) - {s}
    {
      subscriptions := subscriptions - {s};
    }

    /** Whatever the iteration order, every subscriber gets the frame once and nobody else is touched. */
    method Broadcast(frame: T)
      requires Valid()
      modifies this, subscriptions
      ensures Valid() && subscriptions == old(subscriptions) && delivered == old(delivered) + 1
      ensures forall s :: s in subscriptions ==> s.View() == AfterPut(old(s.View()), frame)
    {
      var rest := subscriptions;
      while rest != {}
        invariant rest <= subscriptions == old(subscriptions) && delivered == old(delivered)
        invariant forall s :: s in rest ==> s.View() == old(s.View())
        invariant forall s :: s in subscriptions - rest ==> s.Valid() && s.View() == AfterPut(old(s.View()), frame)
        decreases rest
      {
        var s :| s in rest;
        assert s.View() == old(s.View());
        s.Put(frame);
        rest := rest - {s};
      }
      delivered := delivered + 1;
    }
  }
}
