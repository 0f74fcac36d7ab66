/** The live feed inside storage-core: a drop-oldest ring buffer per subscriber that counts what it
    lost, and the broadcaster that fans each new block out to all of them. */
module Broadcast {
  import opened Records

  datatype Ring<T> = Ring(buffer: seq<T>, capacity: nat, lagged: nat, closed: bool)

  /** One delivery: the value, and how many were dropped immediately before it. */
  datatype Item<T> = Item(value: T, lagged: nat)

  ghost predicate Bounded<T>(r: Ring<T>) {
    1 <= r.capacity && |r.buffer| <= r.capacity
  }

  function Offer<T>(r: Ring<T>, x: T): Ring<T>
    requires Bounded(r)
  {
    if r.closed then r
    else if |r.buffer| >= r.capacity then r.(buffer := r.buffer[1..] + [x], lagged := r.lagged + 1)
    else r.(buffer := r.buffer + [x])
  }

  function Take<T>(r: Ring<T>): (Ring<T>, Item<T>)
    requires r.buffer != []
  {
    (r.(buffer := r.buffer[1..], lagged := 0), Item(r.buffer[0], r.lagged))
  }

  /** How many offered values a list of deliveries answers for: itself and its announced losses. */
  ghost function Covered<T>(items: seq<Item<T>>): nat {
    if items == [] then 0 else Covered(items[..|items| - 1]) + Last(items).lagged + 1
  }

  /** The exact books of a ring: every offered value was delivered, announced as dropped, dropped and
      waiting to be announced, or is still buffered, and each delivery is the value its position in
      the books says. */
  ghost predicate Accounts<T(!new)>(offered: seq<T>, items: seq<Item<T>>, r: Ring<T>) {
    && Bounded(r)
    && |offered| == Covered(items) + r.lagged + |r.buffer|
    && r.buffer == offered[|offered| - |r.buffer|..]
    && forall k :: 0 <= k < |items| ==> DeliveredAt(offered, items, k)
  }

  ghost predicate DeliveredAt<T(!new)>(offered: seq<T>, items: seq<Item<T>>, k: nat)
    requires k < |items|
  {
    Covered(items[..k + 1]) <= |offered| && items[k].value == offered[Covered(items[..k + 1]) - 1]
  }

  /** An open ring takes every offer; a closed one none. */
  lemma OfferKeepsAccounts<T(!new)>(offered: seq<T>, items: seq<Item<T>>, r: Ring<T>, x: T)
    requires Accounts(offered, items, r)
    ensures Accounts(if r.closed then offered else offered + [x], items, Offer(r, x))
  {
    if !r.closed {
      forall k | 0 <= k < |items| ensures DeliveredAt(offered + [x], items, k) {
        assert DeliveredAt(offered, items, k);
      }
    }
  }

  lemma TakeKeepsAccounts<T(!new)>(offered: seq<T>, items: seq<Item<T>>, r: Ring<T>)
    requires Accounts(offered, items, r) && r.buffer != []
    ensures Accounts(offered, items + [Take(r).1], Take(r).0)
  {
    var items' := items + [Take(r).1];
    assert items'[..|items|] == items;
    forall k | 0 <= k < |items'| ensures DeliveredAt(offered, items', k) {
      if k < |items| {
        assert DeliveredAt(offered, items, k);
        assert items'[..k + 1] == items[..k + 1];
      } else {
        assert items'[..k + 1] == items';
      }
    }
  }

  lemma CoveredNext<T>(items: seq<Item<T>>, k: nat)
    requires k + 1 < |items|
    ensures Covered(items[..k + 2]) == Covered(items[..k + 1]) + 1 + items[k + 1].lagged
  {
    assert items[..k + 2][..k + 1] == items[..k + 1];
  }

  /** Between two consecutive deliveries lie exactly the values announced as dropped. */
  lemma GapIsWhatWasAnnounced<T(!new)>(offered: seq<T>, items: seq<Item<T>>, r: Ring<T>, k: nat)
    requires Accounts(offered, items, r) && k + 1 < |items|
    ensures Covered(items[..k + 2]) == Covered(items[..k + 1]) + 1 + items[k + 1].lagged
    ensures DeliveredAt(offered, items, k) && DeliveredAt(offered, items, k + 1)
  {
    CoveredNext(items, k);
    assert DeliveredAt(offered, items, k) && DeliveredAt(offered, items, k + 1);
  }

  datatype Delivery = WouldBlock | Ended | Got(item: Item<Block>)

  /** One subscriber's buffer. Each method is one critical section under the subscription's mutex;
      a wait that would block is reported to the caller. */
  class Subscription {
    var buffer: seq<Block>
    const capacity: nat
    var lagged: nat
    var closed: bool

    ghost function View(): Ring<Block>
      reads this
    {
      Ring(buffer, capacity, lagged, closed)
    }

    ghost predicate Valid()
      reads this
    {
      Bounded(View())
    }

    constructor (capacity: nat := 64)
      requires capacity >= 1
      ensures Valid() && View() == Ring([], capacity, 0, false)
    {
      this.capacity := capacity;
      buffer, lagged, closed := [], 0, false;
    }

    method Push(block: Block)
      requires Valid()
      modifies this
      ensures Valid() && View() == Offer(old(View()), block)
    {
      if closed {
        return;
      }
      if |buffer| >= capacity {
        buffer := buffer[1..];
        lagged := lagged + 1;
      }
      buffer := buffer + [block];
    }

    /** One pass of next(): a buffered block is delivered even after close(), and closure is reported
        only once the buffer is empty. */
    method Next() returns (d: Delivery)
      requires Valid()
      modifies this
      ensures Valid()
      ensures d.Got? <==> old(buffer) != []
      ensures d.Got? ==> (View(), d.item) == Take(old(View()))
      ensures !d.Got? ==> View() == old(View()) && (d.Ended? <==> closed)
    {
      if !(closed || buffer != []) {
        return WouldBlock;
      }
      if buffer == [] {
        return Ended;
      }
      d := Got(Item(buffer[0], lagged));
      buffer := buffer[1..];
      lagged := 0;
    }

    /** The non-blocking variant does not tell an idle feed from a finished one. */
    method TryNext() returns (item: Option<Item<Block>>)
      requires Valid()
      modifies this
      ensures Valid()
      ensures item.Some? <==> old(buffer) != []
      ensures item.Some? ==> (View(), item.value) == Take(old(View()))
      ensures item.None? ==> View() == old(View())
    {
      if buffer == [] {
        return None;
      }
      item := Some(Item(buffer[0], lagged));
      buffer := buffer[1..];
      lagged := 0;
    }

    method Close()
      requires Valid()
      modifies this
      ensures Valid() && View() == old(View()).(closed := true)
    {
      closed := true;
    }
  }

  /** The entries of a subscriber list whose subscription still exists, in order. */
  function Live(subs: seq<Subscription>, live: set<Subscription>): seq<Subscription> {
    if subs == [] then []
    else if subs[0] in live then [subs[0]] + Live(subs[1..], live)
    else Live(subs[1..], live)
  }

  ghost predicate Distinct(subs: seq<Subscription>) {
    forall i, j :: 0 <= i < j < |subs| ==> subs[i] != subs[j]
  }

  lemma {:induction false} LiveMembers(subs: seq<Subscription>, live: set<Subscription>)
    ensures forall i :: 0 <= i < |Live(subs, live)| ==> Live(subs, live)[i] in subs && Live(subs, live)[i] in live
    ensures forall i :: 0 <= i < |subs| && subs[i] in live ==> subs[i] in Live(subs, live)
    ensures Distinct(subs) ==> Distinct(Live(subs, live))
  {
    if subs != [] {
      LiveMembers(subs[1..], live);
    }
  }

  lemma {:induction false} LiveConcat(a: seq<Subscription>, b: seq<Subscription>, live: set<Subscription>)
    ensures Live(a + b, live) == Live(a, live) + Live(b, live)
  {
    if a == [] {
      assert a + b == b;
    } else {
      assert (a + b)[1..] == a[1..] + b;
      LiveConcat(a[1..], b, live);
    }
  }

  /** What one publish does to one subscription. */
  twostate predicate OfferedTo(s: Subscription, hit: bool, block: Block)
    reads s
  {
    && old(s.Valid()) && s.Valid()
    && s.View() == if hit then Offer(old(s.View()), block) else old(s.View())
  }

  /** The list part-way through the pruning loop: the survivors so far, then what is still to visit. */
  ghost function Visited(subs: seq<Subscription>, k: nat, live: set<Subscription>): seq<Subscription>
    requires k <= |subs|
  {
    Live(subs[..k], live) + subs[k..]
  }

  lemma VisitAll(subs: seq<Subscription>, live: set<Subscription>)
    ensures Visited(subs, 0, live) == subs && Live(subs[..0], live) == []
    ensures Visited(subs, |subs|, live) == Live(subs, live) && Live(subs[..|subs|], live) == Live(subs, live)
  {
    assert subs[..|subs|] == subs;
  }

  lemma VisitOne(subs: seq<Subscription>, k: nat, live: set<Subscription>)
    requires k < |subs|
    ensures
      var it := |Live(subs[..k], live)|;
      var v := Visited(subs, k, live);
      && it < |v| && v[it] == subs[k]
      && Visited(subs, k + 1, live) == (if subs[k] in live then v else v[..it] + v[it + 1..])
      && |Live(subs[..k + 1], live)| == it + (if subs[k] in live then 1 else 0)
  {
    assert subs[..k + 1] == subs[..k] + [subs[k]];
    LiveConcat(subs[..k], [subs[k]], live);
  }

  /** The weak pointers of the source become a set of the subscriptions that still exist, fixed for
      the duration of each call. */
  class Broadcaster {
    var subscribers: seq<Subscription>

    ghost predicate Valid()
      reads this, subscribers
    {
      && Distinct(subscribers)
      && forall s :: s in subscribers ==> s.Valid()
    }

    constructor ()
      ensures Valid() && subscribers == []
    {
      subscribers := [];
    }

    method Subscribe(capacity: nat, live: set<Subscription>) returns (sub: Subscription)
      requires Valid() && capacity >= 1
      modifies this
      ensures Valid() && fresh(sub)
      ensures subscribers == Live(old(subscribers), live) + [sub]
      ensures sub.Valid() && sub.View() == Ring([], capacity, 0, false)
    {
      LiveMembers(subscribers, live);
      sub := new Subscription(capacity);
      subscribers := Live(subscribers, live) + [sub];
    }

    /** Erases the expired entries while iterating, and offers the block to all the others. */
    method Publish(block: Block, live: set<Subscription>)
      requires Valid()
      modifies this, subscribers
      ensures Valid() && subscribers == Live(old(subscribers), live)
      ensures forall s :: s in old(subscribers) && s in live ==> s.View() == Offer(old(s.View()), block)
      ensures forall s :: s in old(subscribers) && s !in live ==> s.View() == old(s.View())
    {
      hide Offer, Live, Visited;
      ghost var before := subscribers;
      VisitAll(before, live);
      ghost var passed: nat := 0;
      var it := 0;
      while it < |subscribers|
        invariant passed <= |before|
        invariant |subscribers| - it == |before| - passed
        invariant subscribers == Visited(before, passed, live) && it == |Live(before[..passed], live)|
        invariant forall i :: 0 <= i < |before| ==> OfferedTo(before[i], i < passed && before[i] in live, block)
        decreases |before| - passed
      {
        VisitOne(before, passed, live);
        if subscribers[it] in live {
          subscribers[it].Push(block);
          it := it + 1;
        } else {
          subscribers := subscribers[..it] + subscribers[it + 1..];
        }
        passed := passed + 1;
      }
      LiveMembers(before, live);
    }

    method CloseAll(live: set<Subscription>)
      requires Valid()
      modifies this, subscribers
      ensures Valid() && subscribers == []
      ensures forall s :: s in old(subscribers) ==>
        s.View() == if s in live then old(s.View()).(closed := true) else old(s.View())
    {
      for i := 0 to |subscribers|
        invariant subscribers == old(subscribers)
        invariant forall s :: s in subscribers ==> s.Valid()
        invariant forall j :: 0 <= j < i ==>
          subscribers[j].View() == (if subscribers[j] in live then old(subscribers[j].View()).(closed := true)
              else old(subscribers[j].View()))
        invariant forall j :: i <= j < |subscribers| ==> subscribers[j].View() == old(subscribers[j].View())
      {
        if subscribers[i] in live {
          subscribers[i].Close();
        }
      }
      subscribers := [];
    }
  }
}
