/** The write queue as a monitor: any number of threads inside push(), pop() and close(), two
    condition variables, and notifications sent after the mutex is released. */
module QueueMonitor {
  import opened Records
  import opened BoundedQueue
  import opened Tally

  /** Where a blocked call stands: about to take the lock for the first time, in the condition
      variable's wait set, or woken and about to re-check its predicate. */
  datatype Phase = Arriving | Parked | Woken

  datatype Thread =
    | Idle
    | Pushing(request: Request, phase: Phase)
    | Popping(phase: Phase)
    | OwesNotEmpty  // pushed and unlocked, not_empty_.notify_one() still to come
    | OwesNotFull   // popped and unlocked, not_full_.notify_one() still to come
    | OwesBothAll   // closed and unlocked, both notify_all() still to come
    | OwesNotFullAll

  /** The queue, its threads, and what has happened so far: who arrived, in which order requests
      were accepted and taken, and which were refused. */
  datatype Monitor = Monitor(
    queue: Queue,
    threads: seq<Thread>,
    arrived: multiset<Request>,
    accepted: seq<Request>,
    taken: seq<Request>,
    refused: multiset<Request>)

  datatype Label =
    | StartPush(t: nat, request: Request)
    | StartPop(t: nat)
    | Close(t: nat)
    | PushSect(t: nat)
    | PopSect(t: nat)
    | NotifyNotEmpty(t: nat, woken: nat)
    | NotifyNotFull(t: nat, woken: nat)
    | NotifyAllNotEmpty(t: nat)
    | NotifyAllNotFull(t: nat)
    | Spurious(t: nat)

  ghost predicate ParkedPopper(th: Thread) { th == Popping(Parked) }

  ghost predicate ParkedPusher(th: Thread) { th.Pushing? && th.phase == Parked }

  ghost predicate SomePopperParked(m: Monitor) {
    exists t :: 0 <= t < |m.threads| && ParkedPopper(m.threads[t])
  }

  ghost predicate SomePusherParked(m: Monitor) {
    exists t :: 0 <= t < |m.threads| && ParkedPusher(m.threads[t])
  }

  ghost predicate Enabled(m: Monitor, l: Label) {
    l.t < |m.threads| &&
    var th := m.threads[l.t];
    match l
    case StartPush(_, _) => th == Idle
    case StartPop(_) => th == Idle
    case Close(_) => th == Idle
    case PushSect(_) => th.Pushing? && th.phase != Parked
    case PopSect(_) => th.Popping? && th.phase != Parked
    case NotifyNotEmpty(_, w) =>
      // notify_one wakes some waiter whenever there is one
      th == OwesNotEmpty && w < |m.threads| && (SomePopperParked(m) ==> ParkedPopper(m.threads[w]))
    case NotifyNotFull(_, w) =>
      th == OwesNotFull && w < |m.threads| && (SomePusherParked(m) ==> ParkedPusher(m.threads[w]))
    case NotifyAllNotEmpty(_) => th == OwesBothAll
    case NotifyAllNotFull(_) => th == OwesNotFullAll
    case Spurious(_) => ParkedPopper(th) || ParkedPusher(th)
  }

  ghost function WakePopper(th: Thread): Thread {
    if ParkedPopper(th) then Popping(Woken) else th
  }

  ghost function WakePusher(th: Thread): Thread {
    if ParkedPusher(th) then th.(phase := Woken) else th
  }

  ghost function Apply(m: Monitor, l: Label): Monitor
    requires Enabled(m, l)
  {
    var ts := m.threads;
    match l
    case StartPush(t, r) => m.(threads := ts[t := Pushing(r, Arriving)], arrived := m.arrived + multiset{r})
    case StartPop(t) => m.(threads := ts[t := Popping(Arriving)])
    case Close(t) => m.(queue := m.queue.(closed := true), threads := ts[t := OwesBothAll])
    case PushSect(t) =>
      var r := ts[t].request;
      (match PushSection(m.queue, r)
       case (_, MustWait) => m.(threads := ts[t := Pushing(r, Parked)])
       case (_, Refused) => m.(threads := ts[t := Idle], refused := m.refused + multiset{r})
       case (q, Accepted) => m.(queue := q, threads := ts[t := OwesNotEmpty], accepted := m.accepted + [r]))
    case PopSect(t) =>
      (match PopSection(m.queue)
       case (_, PopMustWait) => m.(threads := ts[t := Popping(Parked)])
       case (_, Drained) => m.(threads := ts[t := Idle])
       case (q, Took(r)) => m.(queue := q, threads := ts[t := OwesNotFull], taken := m.taken + [r]))
    case NotifyNotEmpty(t, w) => m.(threads := ts[w := WakePopper(ts[w])][t := Idle])
    case NotifyNotFull(t, w) => m.(threads := ts[w := WakePusher(ts[w])][t := Idle])
    case NotifyAllNotEmpty(t) =>
      m.(threads := seq(|ts|, i requires 0 <= i < |ts| => WakePopper(ts[i]))[t := OwesNotFullAll])
    case NotifyAllNotFull(t) =>
      m.(threads := seq(|ts|, i requires 0 <= i < |ts| => WakePusher(ts[i]))[t := Idle])
    case Spurious(t) => m.(threads := ts[t := ts[t].(phase := Woken)])
  }

  /** Steps the queue takes on its own, once calls have been made: not a new call, and not one of
      the wakeups a condition variable is allowed to invent. */
  ghost predicate Internal(l: Label) {
    l.PushSect? || l.PopSect? || l.NotifyNotEmpty? || l.NotifyNotFull? || l.NotifyAllNotEmpty? || l.NotifyAllNotFull?
  }

  ghost predicate Initial(m: Monitor) {
    && m.queue.items == [] && !m.queue.closed
    && (forall t :: 0 <= t < |m.threads| ==> m.threads[t] == Idle)
    && m.arrived == multiset{} && m.accepted == [] && m.taken == [] && m.refused == multiset{}
  }

  ghost predicate Trace(ms: seq<Monitor>, ls: seq<Label>) {
    && |ms| == |ls| + 1
    && forall i :: 0 <= i < |ls| ==> Enabled(ms[i], ls[i]) && ms[i + 1] == Apply(ms[i], ls[i])
  }

  /** A thread that will reach pop()'s critical section, or will wake one that does. */
  ghost function PopHope(th: Thread): nat {
    if th == OwesNotEmpty || th == Popping(Woken) then 1 else 0
  }

  ghost function PushHope(th: Thread): nat {
    if th == OwesNotFull || (th.Pushing? && th.phase == Woken) then 1 else 0
  }

  /** While a popper is parked, every queued item is covered by a pending notification or a woken
      popper; on a closed queue, by the closer's notify_all. */
  ghost predicate ItemsCovered(m: Monitor) {
    SomePopperParked(m) ==>
      if m.queue.closed then exists t :: 0 <= t < |m.threads| && m.threads[t] == OwesBothAll
      else |m.queue.items| <= Sum(m.threads, PopHope)
  }

  /** The dual: while a pusher is parked, every free slot is covered. */
  ghost predicate SlotsCovered(m: Monitor) {
    SomePusherParked(m) ==>
      if m.queue.closed then
        exists t :: 0 <= t < |m.threads| && (m.threads[t] == OwesBothAll || m.threads[t] == OwesNotFullAll)
      else m.queue.capacity <= |m.queue.items| + Sum(m.threads, PushHope)
  }

  ghost predicate ClosersAfterClose(m: Monitor) {
    forall t :: 0 <= t < |m.threads| && (m.threads[t] == OwesBothAll || m.threads[t] == OwesNotFullAll) ==>
        m.queue.closed
  }

  /** Every request that arrived is with exactly one holder. */
  ghost predicate Conserved(m: Monitor) {
    && m.accepted == m.taken + m.queue.items
    && forall r :: AccountedFor(m, r)
  }

  ghost predicate AccountedFor(m: Monitor, r: Request) {
    m.arrived[r] == multiset(m.accepted)[r] + m.refused[r] + Sum(m.threads, Holding(r))
  }

  /** Counts the threads whose push() still holds request r. */
  ghost function Holding(r: Request): Thread -> nat {
    (th: Thread) => if th.Pushing? && th.request == r then 1 else 0
  }

  ghost predicate Inv(m: Monitor) {
    && WithinCapacity(m.queue)
    && ClosersAfterClose(m)
    && ItemsCovered(m)
    && SlotsCovered(m)
    && Conserved(m)
  }

  // ----- preservation ---------------------------------------------------------------------

  /** Only thread t changes, and it changes to m'.threads[t]. */
  ghost predicate OneThreadMoves(l: Label) {
    !l.NotifyNotEmpty? && !l.NotifyNotFull? && !l.NotifyAllNotEmpty? && !l.NotifyAllNotFull?
  }

  lemma ClosedItemsStayCovered(m: Monitor, l: Label)
    requires ItemsCovered(m) && Enabled(m, l) && OneThreadMoves(l) && Apply(m, l).queue.closed
    ensures ItemsCovered(Apply(m, l))
  {
    hide Sum, SomePusherParked;
    var m', t := Apply(m, l), l.t;
    OneThreadChanges(m, l);
    if l.Close? {
      assert m'.threads[t] == OwesBothAll;
    } else if SomePopperParked(m') {
      var p :| 0 <= p < |m'.threads| && ParkedPopper(m'.threads[p]);
      assert ParkedPopper(m.threads[p]);
      var c :| 0 <= c < |m.threads| && m.threads[c] == OwesBothAll;
      assert m'.threads[c] == OwesBothAll;
    }
  }

  lemma ClosedSlotsStayCovered(m: Monitor, l: Label)
    requires SlotsCovered(m) && Enabled(m, l) && OneThreadMoves(l) && Apply(m, l).queue.closed
    ensures SlotsCovered(Apply(m, l))
  {
    hide Sum, SomePopperParked;
    var m', t := Apply(m, l), l.t;
    OneThreadChanges(m, l);
    if l.Close? {
      assert m'.threads[t] == OwesBothAll;
    } else if SomePusherParked(m') {
      var p :| 0 <= p < |m'.threads| && ParkedPusher(m'.threads[p]);
      assert ParkedPusher(m.threads[p]);
      var c :| 0 <= c < |m.threads| && (m.threads[c] == OwesBothAll || m.threads[c] == OwesNotFullAll);
      assert m'.threads[c] == m.threads[c];
    }
  }

  lemma SameWaitersSameCloser(m: Monitor, l: Label)
    requires ItemsCovered(m) && SlotsCovered(m)
    requires Enabled(m, l) && OneThreadMoves(l) && Apply(m, l).queue.closed
    ensures ItemsCovered(Apply(m, l)) && SlotsCovered(Apply(m, l))
  {
    hide ItemsCovered, SlotsCovered;
    ClosedItemsStayCovered(m, l);
    ClosedSlotsStayCovered(m, l);
  }

  lemma OneThreadChanges(m: Monitor, l: Label)
    requires Enabled(m, l) && OneThreadMoves(l)
    ensures Apply(m, l).threads == m.threads[l.t := Apply(m, l).threads[l.t]]
  {
  }

  lemma OpenItemsStayCovered(m: Monitor, l: Label)
    requires WithinCapacity(m.queue) && ItemsCovered(m)
    requires Enabled(m, l) && OneThreadMoves(l) && !Apply(m, l).queue.closed
    ensures ItemsCovered(Apply(m, l))
  {
    hide Sum, SomePusherParked;
    var m', t := Apply(m, l), l.t;
    OneThreadChanges(m, l);
    SumUpdate(m.threads, t, m'.threads[t], PopHope);
    if SomePopperParked(m') && !ParkedPopper(m'.threads[t]) {
      var p :| 0 <= p < |m'.threads| && ParkedPopper(m'.threads[p]);
      assert ParkedPopper(m.threads[p]);
    }
  }

  lemma OpenSlotsStayCovered(m: Monitor, l: Label)
    requires WithinCapacity(m.queue) && SlotsCovered(m)
    requires Enabled(m, l) && OneThreadMoves(l) && !Apply(m, l).queue.closed
    ensures SlotsCovered(Apply(m, l))
  {
    hide Sum, SomePopperParked;
    var m', t := Apply(m, l), l.t;
    OneThreadChanges(m, l);
    SumUpdate(m.threads, t, m'.threads[t], PushHope);
    if SomePusherParked(m') && !ParkedPusher(m'.threads[t]) {
      var p :| 0 <= p < |m'.threads| && ParkedPusher(m'.threads[p]);
      assert ParkedPusher(m.threads[p]);
    }
  }

  /** On an open queue the two counts move together: a push adds an item and a promise to notify, a
      pop uses up an item and at most one hope, a parking thread leaves nothing to hope for. */
  lemma OpenCountsMoveTogether(m: Monitor, l: Label)
    requires WithinCapacity(m.queue) && ItemsCovered(m) && SlotsCovered(m)
    requires Enabled(m, l) && OneThreadMoves(l) && !Apply(m, l).queue.closed
    ensures ItemsCovered(Apply(m, l)) && SlotsCovered(Apply(m, l))
  {
    hide ItemsCovered, SlotsCovered;
    OpenItemsStayCovered(m, l);
    OpenSlotsStayCovered(m, l);
  }

  /** The counts after waking thread w (if it was parked) and retiring the notifier t. */
  lemma NotifyCounts(ts: seq<Thread>, t: nat, w: nat, th: Thread, f: Thread -> nat)
    requires t < |ts| && w < |ts| && f(Idle) == 0 && (w == t ==> th == ts[w])
    ensures Sum(ts[w := th][t := Idle], f) + f(ts[t]) + f(ts[w]) == Sum(ts, f) + f(th)
  {
    SumUpdate(ts, w, th, f);
    SumUpdate(ts[w := th], t, Idle, f);
  }

  lemma NotifyKeepsClosersAndWaiters(m: Monitor, l: Label)
    requires Enabled(m, l) && (l.NotifyNotEmpty? || l.NotifyNotFull?)
    ensures SomePopperParked(Apply(m, l)) ==> SomePopperParked(m)
    ensures SomePusherParked(Apply(m, l)) ==> SomePusherParked(m)
    ensures forall c :: 0 <= c < |m.threads| && (m.threads[c] == OwesBothAll || m.threads[c] == OwesNotFullAll)
                        ==> Apply(m, l).threads[c] == m.threads[c]
  {
    var m' := Apply(m, l);
    if SomePopperParked(m') {
      var p :| 0 <= p < |m'.threads| && ParkedPopper(m'.threads[p]);
      assert ParkedPopper(m.threads[p]);
    }
    if SomePusherParked(m') {
      var p :| 0 <= p < |m'.threads| && ParkedPusher(m'.threads[p]);
      assert ParkedPusher(m.threads[p]);
    }
  }

  /** A notification turns one promise into one woken thread, or finds nobody to wake. */
  lemma NotifyNotEmptyKeepsCover(m: Monitor, l: Label)
    requires ItemsCovered(m) && SlotsCovered(m) && Enabled(m, l) && l.NotifyNotEmpty?
    ensures ItemsCovered(Apply(m, l)) && SlotsCovered(Apply(m, l))
  {
    NotifyKeepsClosersAndWaiters(m, l);
    NotifyCounts(m.threads, l.t, l.woken, WakePopper(m.threads[l.woken]), PopHope);
    NotifyCounts(m.threads, l.t, l.woken, WakePopper(m.threads[l.woken]), PushHope);
  }

  lemma NotifyNotFullKeepsCover(m: Monitor, l: Label)
    requires ItemsCovered(m) && SlotsCovered(m) && Enabled(m, l) && l.NotifyNotFull?
    ensures ItemsCovered(Apply(m, l)) && SlotsCovered(Apply(m, l))
  {
    NotifyKeepsClosersAndWaiters(m, l);
    NotifyCounts(m.threads, l.t, l.woken, WakePusher(m.threads[l.woken]), PopHope);
    NotifyCounts(m.threads, l.t, l.woken, WakePusher(m.threads[l.woken]), PushHope);
  }

  /** notify_all leaves nobody parked on its condition variable. */
  lemma NotifyAllKeepsCover(m: Monitor, l: Label)
    requires ClosersAfterClose(m) && ItemsCovered(m) && SlotsCovered(m)
    requires Enabled(m, l) && (l.NotifyAllNotEmpty? || l.NotifyAllNotFull?)
    ensures ItemsCovered(Apply(m, l)) && SlotsCovered(Apply(m, l))
  {
    var ts, m' := m.threads, Apply(m, l);
    if l.NotifyAllNotEmpty? {
      assert m'.threads[l.t] == OwesNotFullAll;
    } else if SomePopperParked(m') {
      var p :| 0 <= p < |m'.threads| && ParkedPopper(m'.threads[p]);
      assert ParkedPopper(ts[p]);
      var c :| 0 <= c < |ts| && ts[c] == OwesBothAll;
      assert m'.threads[c] == OwesBothAll;
    }
  }

  lemma CoverKept(m: Monitor, l: Label)
    requires WithinCapacity(m.queue) && ClosersAfterClose(m) && ItemsCovered(m) && SlotsCovered(m)
    requires Enabled(m, l)
    ensures ItemsCovered(Apply(m, l)) && SlotsCovered(Apply(m, l))
  {
    if OneThreadMoves(l) {
      if Apply(m, l).queue.closed { SameWaitersSameCloser(m, l); } else { OpenCountsMoveTogether(m, l); }
    } else if l.NotifyNotEmpty? {
      NotifyNotEmptyKeepsCover(m, l);
    } else if l.NotifyNotFull? {
      NotifyNotFullKeepsCover(m, l);
    } else {
      NotifyAllKeepsCover(m, l);
    }
  }

  lemma HoldersMove(m: Monitor, l: Label, r: Request)
    requires Enabled(m, l)
    ensures OneThreadMoves(l) ==>
      Sum(Apply(m, l).threads, Holding(r)) + Holding(r)(m.threads[l.t])
        == Sum(m.threads, Holding(r)) + Holding(r)(Apply(m, l).threads[l.t])
    ensures !OneThreadMoves(l) ==> Sum(Apply(m, l).threads, Holding(r)) == Sum(m.threads, Holding(r))
  {
    var ts, ts' := m.threads, Apply(m, l).threads;
    if OneThreadMoves(l) {
      assert ts[l.t := ts'[l.t]] == ts';
      SumUpdate(ts, l.t, ts'[l.t], Holding(r));
    } else {
      SumPointwise(ts', ts, Holding(r));
    }
  }

  lemma PushAccountedFor(m: Monitor, l: Label, r: Request)
    requires AccountedFor(m, r) && Enabled(m, l) && l.PushSect?
    ensures AccountedFor(Apply(m, l), r)
  {
    HoldersMove(m, l, r);
    var x, m' := m.threads[l.t].request, Apply(m, l);
    assert Holding(r)(m.threads[l.t]) == multiset{x}[r];
    if PushReady(m.queue) && !m.queue.closed {
      assert m'.accepted == m.accepted + [x] && m'.refused == m.refused;
      assert multiset(m'.accepted) == multiset(m.accepted) + multiset{x};
    }
  }

  lemma StaysAccountedFor(m: Monitor, l: Label, r: Request)
    requires AccountedFor(m, r) && Enabled(m, l)
    ensures AccountedFor(Apply(m, l), r)
  {
    if l.PushSect? {
      PushAccountedFor(m, l, r);
    } else {
      HoldersMove(m, l, r);
      assert Apply(m, l).accepted == m.accepted && Apply(m, l).refused == m.refused;
      if l.StartPush? {
        assert Holding(r)(Apply(m, l).threads[l.t]) == multiset{l.request}[r];
      } else {
        assert Apply(m, l).arrived == m.arrived;
      }
    }
  }

  lemma RequestsStayConserved(m: Monitor, l: Label)
    requires Conserved(m) && Enabled(m, l)
    ensures Conserved(Apply(m, l))
  {
    forall r ensures AccountedFor(Apply(m, l), r) {
      StaysAccountedFor(m, l, r);
    }
  }

  lemma QueueStaysInBounds(m: Monitor, l: Label)
    requires WithinCapacity(m.queue) && ClosersAfterClose(m) && Enabled(m, l)
    ensures WithinCapacity(Apply(m, l).queue) && ClosersAfterClose(Apply(m, l))
    ensures Apply(m, l).queue.capacity == m.queue.capacity && |Apply(m, l).threads| == |m.threads|
  {
  }

  /** One step of any thread keeps every invariant of the monitor. */
  lemma StepKeepsInv(m: Monitor, l: Label)
    requires Inv(m) && Enabled(m, l)
    ensures Inv(Apply(m, l)) && Apply(m, l).queue.capacity == m.queue.capacity && |Apply(m, l).threads| == |m.threads|
  {
    QueueStaysInBounds(m, l);
    CoverKept(m, l);
    RequestsStayConserved(m, l);
  }

  lemma {:induction false} NobodyHolds(ts: seq<Thread>, r: Request)
    requires forall t :: 0 <= t < |ts| ==> ts[t] == Idle
    ensures Sum(ts, Holding(r)) == 0
  {
    if ts != [] {
      NobodyHolds(ts[1..], r);
    }
  }

  /** Every state a run can reach, from an empty open queue and any number of idle threads. */
  lemma {:induction false} ReachableInv(ms: seq<Monitor>, ls: seq<Label>)
    requires Trace(ms, ls) && Initial(ms[0])
    ensures Inv(Last(ms)) && Last(ms).queue.capacity == ms[0].queue.capacity && |Last(ms).threads| == |ms[0].threads|
    decreases |ls|
  {
    if ls == [] {
      forall r ensures AccountedFor(ms[0], r) { NobodyHolds(ms[0].threads, r); }
    } else {
      var n := |ls| - 1;
      ReachableInv(ms[..n + 1], ls[..n]);
      StepKeepsInv(ms[n], ls[n]);
    }
  }

  // ----- no lost wakeup, and what is left when nothing can move ------------------------------

  ghost predicate Stuck(m: Monitor) {
    forall l :: Internal(l) ==> !Enabled(m, l)
  }

  ghost predicate IdleOrParked(th: Thread) {
    th == Idle || ParkedPopper(th) || ParkedPusher(th)
  }

  lemma MovableThread(m: Monitor, t: nat) returns (l: Label)
    requires t < |m.threads| && !IdleOrParked(m.threads[t])
    ensures Internal(l) && Enabled(m, l)
  {
    var w: nat := t;
    match m.threads[t]
    case Pushing(_, _) => l := PushSect(t);
    case Popping(_) => l := PopSect(t);
    case OwesNotEmpty =>
      if SomePopperParked(m) { w :| 0 <= w < |m.threads| && ParkedPopper(m.threads[w]); }
      l := NotifyNotEmpty(t, w);
    case OwesNotFull =>
      if SomePusherParked(m) { w :| 0 <= w < |m.threads| && ParkedPusher(m.threads[w]); }
      l := NotifyNotFull(t, w);
    case OwesBothAll => l := NotifyAllNotEmpty(t);
    case OwesNotFullAll => l := NotifyAllNotFull(t);
  }

  lemma StuckMeansIdleOrParked(m: Monitor)
    ensures Stuck(m) <==> forall t :: 0 <= t < |m.threads| ==> IdleOrParked(m.threads[t])
  {
    if t: nat :| t < |m.threads| && !IdleOrParked(m.threads[t]) {
      var l := MovableThread(m, t);
    }
  }

  /** A thread that pop()'s condition variable still owes a wakeup to, or has already woken. */
  ghost predicate WillReachPop(m: Monitor, h: nat) {
    h < |m.threads| && (PopHope(m.threads[h]) == 1 || (m.queue.closed && m.threads[h] == OwesBothAll))
  }

  ghost predicate WillReachPush(m: Monitor, h: nat) {
    h < |m.threads|
    && (PushHope(m.threads[h]) == 1
        || (m.queue.closed && (m.threads[h] == OwesBothAll || m.threads[h] == OwesNotFullAll)))
  }

  /** No wakeup is lost: a parked thread whose predicate holds is never forgotten, because some
      thread was woken on the same condition variable or is about to notify it. */
  lemma NoLostWakeup(m: Monitor, t: nat)
    requires Inv(m) && t < |m.threads|
    ensures ParkedPopper(m.threads[t]) && PopReady(m.queue) ==> exists h :: WillReachPop(m, h)
    ensures ParkedPusher(m.threads[t]) && PushReady(m.queue) ==> exists h :: WillReachPush(m, h)
    ensures (ParkedPopper(m.threads[t]) && PopReady(m.queue)) || (ParkedPusher(m.threads[t]) && PushReady(m.queue)) ==>
      !Stuck(m)
  {
    if ParkedPopper(m.threads[t]) && PopReady(m.queue) {
      var h: nat;
      if m.queue.closed {
        h :| h < |m.threads| && m.threads[h] == OwesBothAll;
      } else {
        h := SumWitness(m.threads, PopHope);
      }
      assert WillReachPop(m, h);
      var l := MovableThread(m, h);
    }
    if ParkedPusher(m.threads[t]) && PushReady(m.queue) {
      var h: nat;
      if m.queue.closed {
        h :| h < |m.threads| && (m.threads[h] == OwesBothAll || m.threads[h] == OwesNotFullAll);
      } else {
        h := SumWitness(m.threads, PushHope);
      }
      assert WillReachPush(m, h);
      var l := MovableThread(m, h);
    }
  }

  /** When the queue can make no step by itself, only legitimate waiting is left: poppers on an
      open empty queue or pushers on an open full one, never both, and nobody once it is closed. */
  lemma StuckIsLegitimate(m: Monitor)
    requires Inv(m) && Stuck(m) && m.queue.capacity >= 1
    ensures forall t :: 0 <= t < |m.threads| ==> IdleOrParked(m.threads[t])
    ensures SomePopperParked(m) ==> !m.queue.closed && m.queue.items == []
    ensures SomePusherParked(m) ==> !m.queue.closed && |m.queue.items| == m.queue.capacity
    ensures !(SomePopperParked(m) && SomePusherParked(m))
    ensures m.queue.closed ==> forall t :: 0 <= t < |m.threads| ==> m.threads[t] == Idle
  {
    StuckMeansIdleOrParked(m);
    forall t | 0 <= t < |m.threads|
      ensures ParkedPopper(m.threads[t]) ==> !PopReady(m.queue)
      ensures ParkedPusher(m.threads[t]) ==> !PushReady(m.queue)
    {
      NoLostWakeup(m, t);
    }
  }

  // ----- every run settles ------------------------------------------------------------------

  ghost function CloserRank(th: Thread): nat {
    if th == OwesBothAll then 2 else if th == OwesNotFullAll then 1 else 0
  }

  ghost function Work(th: Thread): nat {
    match th
    case Pushing(_, phase) => if phase == Parked then 2 else 3
    case Popping(phase) => if phase == Parked then 2 else 3
    case OwesNotEmpty => 2
    case OwesNotFull => 2
    case _ => 0
  }

  ghost function Remaining(m: Monitor): nat {
    Sum(m.threads, CloserRank) * (3 * |m.threads| + 1) + Sum(m.threads, Work)
  }

  lemma {:induction false} WorkAtMost(ts: seq<Thread>)
    ensures Sum(ts, Work) <= 3 * |ts|
  {
    if ts != [] {
      WorkAtMost(ts[1..]);
    }
  }

  lemma OneMoveWork(m: Monitor, l: Label)
    requires Enabled(m, l) && OneThreadMoves(l) && (Internal(l) || l.Spurious?)
    ensures |Apply(m, l).threads| == |m.threads|
    ensures Sum(Apply(m, l).threads, CloserRank) == Sum(m.threads, CloserRank)
    ensures Internal(l) ==> Sum(Apply(m, l).threads, Work) < Sum(m.threads, Work)
    ensures l.Spurious? ==> Sum(Apply(m, l).threads, Work) == Sum(m.threads, Work) + 1
  {
    hide Sum;
    var th := Apply(m, l).threads[l.t];
    assert Apply(m, l).threads == m.threads[l.t := th];
    SumUpdate(m.threads, l.t, th, CloserRank);
    SumUpdate(m.threads, l.t, th, Work);
  }

  lemma NotifyOneWork(m: Monitor, l: Label)
    requires Enabled(m, l) && (l.NotifyNotEmpty? || l.NotifyNotFull?)
    ensures |Apply(m, l).threads| == |m.threads|
    ensures Sum(Apply(m, l).threads, CloserRank) == Sum(m.threads, CloserRank)
    ensures Sum(Apply(m, l).threads, Work) < Sum(m.threads, Work)
  {
    var th := if l.NotifyNotEmpty? then WakePopper(m.threads[l.woken]) else WakePusher(m.threads[l.woken]);
    NotifyCounts(m.threads, l.t, l.woken, th, CloserRank);
    NotifyCounts(m.threads, l.t, l.woken, th, Work);
  }

  lemma NotifyAllWork(m: Monitor, l: Label)
    requires Enabled(m, l) && (l.NotifyAllNotEmpty? || l.NotifyAllNotFull?)
    ensures |Apply(m, l).threads| == |m.threads|
    ensures Sum(Apply(m, l).threads, CloserRank) + 1 == Sum(m.threads, CloserRank)
  {
    var ts, ts' := m.threads, Apply(m, l).threads;
    var woken := ts'[l.t := ts[l.t]];
    SumPointwise(woken, ts, CloserRank);
    SumUpdate(woken, l.t, ts'[l.t], CloserRank);
    assert woken[l.t := ts'[l.t]] == ts';
  }

  /** Every internal step uses up work; an invented wakeup adds exactly one unit. */
  lemma StepUsesWork(m: Monitor, l: Label)
    requires Enabled(m, l) && (Internal(l) || l.Spurious?)
    ensures |Apply(m, l).threads| == |m.threads|
    ensures Internal(l) ==> Remaining(Apply(m, l)) < Remaining(m)
    ensures l.Spurious? ==> Remaining(Apply(m, l)) == Remaining(m) + 1
  {
    hide Apply, Enabled, Sum;
    if OneThreadMoves(l) {
      OneMoveWork(m, l);
    } else if l.NotifyNotEmpty? || l.NotifyNotFull? {
      NotifyOneWork(m, l);
    } else {
      NotifyAllWork(m, l);
      WorkAtMost(Apply(m, l).threads);
      var c', k := Sum(Apply(m, l).threads, CloserRank), 3 * |m.threads| + 1;
      assert (c' + 1) * k == c' * k + k;
    }
  }

  ghost function IsSpurious(l: Label): nat { if l.Spurious? then 1 else 0 }

  /** However the threads interleave, the calls already made settle: at most Remaining(start) steps
      plus two for each wakeup the condition variables invent. */
  lemma {:induction false} RunsSettle(ms: seq<Monitor>, ls: seq<Label>)
    requires Trace(ms, ls) && forall i :: 0 <= i < |ls| ==> Internal(ls[i]) || ls[i].Spurious?
    ensures |ls| + Remaining(Last(ms)) <= Remaining(ms[0]) + 2 * Sum(ls, IsSpurious)
    decreases |ls|
  {
    hide Apply, Enabled, Sum, Remaining;
    if ls != [] {
      var n := |ls| - 1;
      RunsSettle(ms[..n + 1], ls[..n]);
      StepUsesWork(ms[n], ls[n]);
      SumSnoc(ls[..n], ls[n], IsSpurious);
      assert ls[..n] + [ls[n]] == ls;
    }
  }

  lemma {:induction false} TraceKeepsInv(ms: seq<Monitor>, ls: seq<Label>)
    requires Trace(ms, ls) && Inv(ms[0])
    ensures Inv(Last(ms)) && (ms[0].queue.closed ==> Last(ms).queue.closed)
    ensures Last(ms).queue.capacity == ms[0].queue.capacity
    decreases |ls|
  {
    if ls != [] {
      var n := |ls| - 1;
      TraceKeepsInv(ms[..n + 1], ls[..n]);
      StepKeepsInv(ms[n], ls[n]);
    }
  }

  /** close() releases everyone: from any reachable closed state, every way of letting the queue run
      ends after a bounded number of steps with every call returned. */
  lemma CloseReleasesEveryone(ms: seq<Monitor>, ls: seq<Label>)
    requires Trace(ms, ls) && Inv(ms[0]) && ms[0].queue.closed && ms[0].queue.capacity >= 1
    requires forall i :: 0 <= i < |ls| ==> Internal(ls[i]) || ls[i].Spurious?
    ensures |ls| <= Remaining(ms[0]) + 2 * Sum(ls, IsSpurious)
    ensures Stuck(Last(ms)) ==> forall t :: 0 <= t < |Last(ms).threads| ==> Last(ms).threads[t] == Idle
  {
    RunsSettle(ms, ls);
    TraceKeepsInv(ms, ls);
    if Stuck(Last(ms)) {
      StuckIsLegitimate(Last(ms));
    }
  }
}
