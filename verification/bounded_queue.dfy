/** The bounded, closable queue of write requests: what one pass through each critical section
    does, as functions, and the class whose methods are those critical sections. */
module BoundedQueue {
  import opened Records

  /** One pending append. The ticket names the promise the reply travels back on. */
  datatype Request = Request(ticket: nat, event: Event)

  datatype Queue = Queue(items: seq<Request>, capacity: nat, closed: bool)

  datatype PushOutcome = MustWait | Refused | Accepted
  datatype PopOutcome = PopMustWait | Drained | Took(request: Request)

  /** The predicate push() waits for. */
  predicate PushReady(q: Queue) {
    q.closed || |q.items| < q.capacity
  }

  /** The predicate pop() waits for. */
  predicate PopReady(q: Queue) {
    q.closed || q.items != []
  }

  /** One pass of push() through its critical section. */
  function PushSection(q: Queue, request: Request): (Queue, PushOutcome) {
    if !PushReady(q) then (q, MustWait)
    else if q.closed then (q, Refused)
    else (q.(items := q.items + [request]), Accepted)
  }

  /** One pass of pop() through its critical section. */
  function PopSection(q: Queue): (Queue, PopOutcome) {
    if !PopReady(q) then (q, PopMustWait)
    else if q.items == [] then (q, Drained)
    else (q.(items := q.items[1..]), Took(q.items[0]))
  }

  /** A bounded queue that never holds more than its capacity. */
  ghost predicate WithinCapacity(q: Queue) {
    |q.items| <= q.capacity
  }

  /** The requests a drain hands out are exactly the accepted ones, in order, and a closed queue
      is drained before closure is reported. */
  lemma {:induction false} DrainServesBacklog(q: Queue)
    requires q.closed
    ensures Drain(q, |q.items|) == (q.(items := []), q.items)
    ensures PopSection(Drain(q, |q.items|).0).1 == Drained
    decreases |q.items|
  {
    if q.items != [] {
      DrainServesBacklog(PopSection(q).0);
      assert [q.items[0]] + q.items[1..] == q.items;
    }
  }

  /** The requests handed out by n successive pops. */
  ghost function Drain(q: Queue, n: nat): (Queue, seq<Request>)
    requires n <= |q.items|
    decreases n
  {
    if n == 0 then (q, [])
    else
      var (rest, out) := Drain(PopSection(q).0, n - 1);
      (rest, [q.items[0]] + out)
  }

  /** The queue object. Each method is one critical section: it runs with the mutex held, and a
      wait that would block is reported to the caller instead. */
  class WriteQueue {
    var queue: seq<Request>
    const capacity: nat
    var closed: bool

    ghost function View(): Queue
      reads this
    {
      Queue(queue, capacity, closed)
    }

    constructor (capacity: nat := 256)
      ensures View() == Queue([], capacity, false)
    {
      this.capacity := capacity;
      queue := [];
      closed := false;
    }

    /** A refused or waiting push leaves the queue, and so the request, untouched. */
    method Push(request: Request) returns (outcome: PushOutcome)
      modifies this
      ensures (View(), outcome) == PushSection(old(View()), request)
      ensures outcome != Accepted ==> View() == old(View())
      ensures outcome == Accepted ==> !old(closed) && queue == old(queue) + [request] && |queue| <= capacity
    {
      if !(closed || |queue| < capacity) {
        return MustWait;
      }
      if closed {
        return Refused;
      }
      queue := queue + [request];
      outcome := Accepted;
    }

    method Pop() returns (outcome: PopOutcome)
      modifies this
      ensures (View(), outcome) == PopSection(old(View()))
      ensures outcome.Took? <==> old(queue) != []
      ensures outcome.Took? ==> old(queue) == [outcome.request] + queue
      ensures outcome == Drained ==> closed && queue == []
    {
      if !(closed || queue != []) {
        return PopMustWait;
      }
      if queue == [] {
        return Drained;
      }
      outcome := Took(queue[0]);
      queue := queue[1..];
    }

    method Close()
      modifies this
      ensures View() == old(View()).(closed := true)
    {
      closed := true;
    }
  }
}
