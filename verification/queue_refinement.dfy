/** The write path takes each critical section of its queue as one step. That is what the monitor with
    its threads, condition variables and late notifications does, seen from the queue: each machine's
    steps are the other's. */
module QueueRefinement {
  import opened Records
  import opened BoundedQueue
  import QueueMonitor
  import WritePath
  import opened Blocks

  /** A handler, the writer and the main thread, with no call under way. */
  ghost predicate AtRest(m: QueueMonitor.Monitor) {
    |m.threads| == 3 && forall t :: 0 <= t < 3 ==> m.threads[t] == QueueMonitor.Idle
  }

  /** Everything the writer has taken out: answered, or in its hands. */
  ghost function TakenBy(s: WritePath.State): seq<Request> {
    WritePath.Requests(s.served) + WritePath.InFlight(s.writer)
  }

  ghost predicate Implements(m: QueueMonitor.Monitor, s: WritePath.State) {
    AtRest(m) && m.queue == s.queue && m.accepted == s.accepted && m.taken == TakenBy(s)
  }

  ghost predicate OnQueue(l: WritePath.Label) {
    l.Accept? || l.Refuse? || l.Pop? || l.Exit? || l.CloseQueue?
  }

  lemma RepliesStayTaken(sha: Sha, s: WritePath.State, l: WritePath.Label)
    requires WritePath.Enabled(s, l) && !OnQueue(l)
    ensures var s' := WritePath.Apply(sha, s, l);
      s'.queue == s.queue && s'.accepted == s.accepted && TakenBy(s') == TakenBy(s)
  {
    var s' := WritePath.Apply(sha, s, l);
    if l.ReplyCreated? || l.ReplyFailed? {
      assert WritePath.Requests(s'.served) == WritePath.Requests(s.served) + [s.writer.request];
    }
  }

  // ----- every step of the write path is a call on the monitor -------------------------------------------

  lemma Extend(ms: seq<QueueMonitor.Monitor>, ls: seq<QueueMonitor.Label>, l: QueueMonitor.Label)
    returns (ms': seq<QueueMonitor.Monitor>, ls': seq<QueueMonitor.Label>)
    requires ms != [] && QueueMonitor.Trace(ms, ls) && QueueMonitor.Enabled(Last(ms), l)
    ensures ms' == ms + [QueueMonitor.Apply(Last(ms), l)] && ls' == ls + [l] && QueueMonitor.Trace(ms', ls')
  {
    hide QueueMonitor.Enabled, QueueMonitor.Apply;
    ms', ls' := ms + [QueueMonitor.Apply(Last(ms), l)], ls + [l];
  }

  ghost predicate Continues(ms: seq<QueueMonitor.Monitor>, ls: seq<QueueMonitor.Label>,
                            ms': seq<QueueMonitor.Monitor>, ls': seq<QueueMonitor.Label>) {
    QueueMonitor.Trace(ms', ls') && ms != [] && ms <= ms' && ls <= ls'
  }

  /** A whole push(): it arrives, finds its predicate true, and if it was accepted notifies a popper. */
  lemma PushCall(ms: seq<QueueMonitor.Monitor>, ls: seq<QueueMonitor.Label>, r: Request)
    returns (ms': seq<QueueMonitor.Monitor>, ls': seq<QueueMonitor.Label>)
    requires ms != [] && QueueMonitor.Trace(ms, ls) && AtRest(Last(ms)) && PushReady(Last(ms).queue)
    ensures Continues(ms, ls, ms', ls') && AtRest(Last(ms'))
    ensures Last(ms').queue == PushSection(Last(ms).queue, r).0 && Last(ms').taken == Last(ms).taken
    ensures Last(ms').accepted == Last(ms).accepted + if Last(ms).queue.closed then [] else [r]
  {
    hide QueueMonitor.Trace;
    var m := Last(ms);
    ms', ls' := Extend(ms, ls, QueueMonitor.StartPush(0, r));
    ms', ls' := Extend(ms', ls', QueueMonitor.PushSect(0));
    if !m.queue.closed {
      ms', ls' := Extend(ms', ls', QueueMonitor.NotifyNotEmpty(0, 0));
    }
  }

  /** A whole pop(): it takes the oldest request and notifies a pusher, or reports closure. */
  lemma PopCall(ms: seq<QueueMonitor.Monitor>, ls: seq<QueueMonitor.Label>)
    returns (ms': seq<QueueMonitor.Monitor>, ls': seq<QueueMonitor.Label>)
    requires ms != [] && QueueMonitor.Trace(ms, ls) && AtRest(Last(ms)) && PopReady(Last(ms).queue)
    ensures Continues(ms, ls, ms', ls') && AtRest(Last(ms'))
    ensures Last(ms').queue == PopSection(Last(ms).queue).0 && Last(ms').accepted == Last(ms).accepted
    ensures Last(ms').taken == Last(ms).taken + Last(ms).queue.items[..if Last(ms).queue.items == [] then 0 else 1]
  {
    hide QueueMonitor.Trace;
    var m := Last(ms);
    ms', ls' := Extend(ms, ls, QueueMonitor.StartPop(1));
    ms', ls' := Extend(ms', ls', QueueMonitor.PopSect(1));
    if m.queue.items != [] {
      ms', ls' := Extend(ms', ls', QueueMonitor.NotifyNotFull(1, 1));
      assert m.queue.items[..1] == [m.queue.items[0]];
    }
  }

  lemma CloseCall(ms: seq<QueueMonitor.Monitor>, ls: seq<QueueMonitor.Label>)
    returns (ms': seq<QueueMonitor.Monitor>, ls': seq<QueueMonitor.Label>)
    requires ms != [] && QueueMonitor.Trace(ms, ls) && AtRest(Last(ms))
    ensures Continues(ms, ls, ms', ls') && AtRest(Last(ms'))
    ensures Last(ms').queue == Last(ms).queue.(closed := true)
    ensures Last(ms').accepted == Last(ms).accepted && Last(ms').taken == Last(ms).taken
  {
    hide QueueMonitor.Trace;
    ms', ls' := Extend(ms, ls, QueueMonitor.Close(2));
    ms', ls' := Extend(ms', ls', QueueMonitor.NotifyAllNotEmpty(2));
    ms', ls' := Extend(ms', ls', QueueMonitor.NotifyAllNotFull(2));
  }

  /** What a step of the write path does to the queue, and to what was accepted and taken. */
  ghost predicate QueueEffect(s: WritePath.State, l: WritePath.Label, s': WritePath.State) {
    match l
    case Accept(r) =>
      && PushReady(s.queue) && !s.queue.closed && s'.queue == PushSection(s.queue, r).0
      && s'.accepted == s.accepted + [r] && TakenBy(s') == TakenBy(s)
    case Refuse(r) => PushReady(s.queue) && s.queue.closed && s' == s && s.queue == PushSection(s.queue, r).0
    case Pop =>
      && PopReady(s.queue) && s.queue.items != [] && s'.queue == PopSection(s.queue).0
      && s'.accepted == s.accepted && TakenBy(s') == TakenBy(s) + s.queue.items[..1]
    case Exit =>
      && PopReady(s.queue) && s.queue.items == [] && s'.queue == PopSection(s.queue).0
      && s'.accepted == s.accepted && TakenBy(s') == TakenBy(s)
    case CloseQueue =>
      s'.queue == s.queue.(closed := true) && s'.accepted == s.accepted && TakenBy(s') == TakenBy(s)
    case _ => s'.queue == s.queue && s'.accepted == s.accepted && TakenBy(s') == TakenBy(s)
  }

  lemma StepEffect(sha: Sha, s: WritePath.State, l: WritePath.Label)
    requires WritePath.Enabled(s, l)
    ensures QueueEffect(s, l, WritePath.Apply(sha, s, l))
  {
    if !OnQueue(l) { RepliesStayTaken(sha, s, l); }
  }

  lemma StepIsACall(s: WritePath.State, l: WritePath.Label, s': WritePath.State, ms: seq<QueueMonitor.Monitor>,
                    ls: seq<QueueMonitor.Label>)
    returns (ms': seq<QueueMonitor.Monitor>, ls': seq<QueueMonitor.Label>)
    requires QueueEffect(s, l, s') && ms != [] && QueueMonitor.Trace(ms, ls) && Implements(Last(ms), s)
    ensures Continues(ms, ls, ms', ls') && Implements(Last(ms'), s')
  {
    hide QueueMonitor.Trace, AtRest, TakenBy, PushSection, PopSection;
    if l.Accept? || l.Refuse? {
      ms', ls' := PushCall(ms, ls, l.request);
    } else if l.Pop? || l.Exit? {
      ms', ls' := PopCall(ms, ls);
    } else if l.CloseQueue? {
      ms', ls' := CloseCall(ms, ls);
    } else {
      ms', ls' := ms, ls;
    }
  }

  /** Every run of the write path is, on its queue, a run of the monitor, call for call: the same items,
      the same acceptances in the same order, and the same requests taken out in the same order. */
  lemma {:induction false} WritePathRunsOnTheMonitor(sha: Sha, run: seq<WritePath.State>)
    returns (ms: seq<QueueMonitor.Monitor>, ls: seq<QueueMonitor.Label>)
    requires WritePath.IsRun(sha, run) && WritePath.Initial(run[0])
    ensures ms != [] && QueueMonitor.Trace(ms, ls) && QueueMonitor.Initial(ms[0]) && Implements(Last(ms), Last(run))
    decreases |run|
  {
    hide WritePath.Enabled, WritePath.Apply, WritePath.Initial, QueueMonitor.Trace, QueueMonitor.Initial,
      Implements, QueueEffect;
    if |run| == 1 {
      ms, ls := StartTogether(run[0]);
    } else {
      var n := |run| - 1;
      ms, ls := WritePathRunsOnTheMonitor(sha, run[..n]);
      assert WritePath.Step(sha, run[n - 1], run[n]);
      var l :| WritePath.Enabled(run[n - 1], l) && run[n] == WritePath.Apply(sha, run[n - 1], l);
      StepEffect(sha, run[n - 1], l);
      ms, ls := StepIsACall(run[n - 1], l, run[n], ms, ls);
    }
  }

  lemma StartTogether(s: WritePath.State) returns (ms: seq<QueueMonitor.Monitor>, ls: seq<QueueMonitor.Label>)
    requires WritePath.Initial(s)
    ensures |ms| == 1 && QueueMonitor.Trace(ms, ls) && QueueMonitor.Initial(ms[0]) && Implements(ms[0], s)
  {
    var idle := QueueMonitor.Idle;
    ms, ls := [QueueMonitor.Monitor(s.queue, [idle, idle, idle], multiset{}, [], [], multiset{})], [];
  }

  // ----- every step of the monitor is a step of the write path, or leaves the queue alone ------------------

  /** What the write path calls a critical section that went through. */
  ghost function CallOf(m: QueueMonitor.Monitor, l: QueueMonitor.Label): Option<WritePath.Label>
    requires QueueMonitor.Enabled(m, l)
  {
    if l.Close? then Some(WritePath.CloseQueue)
    else if l.PushSect? && PushReady(m.queue) then
      var r := m.threads[l.t].request;
      Some(if m.queue.closed then WritePath.Refuse(r) else WritePath.Accept(r))
    else if l.PopSect? && PopReady(m.queue) then Some(if m.queue.items == [] then WritePath.Exit else WritePath.Pop)
    else None
  }

  /** What the write path asks of whoever makes the call, beside what it asks of the queue: a checked
      event with a promise of its own, one writer between two requests, and a stop in its order. */
  ghost predicate CallerIsReady(s: WritePath.State, k: WritePath.Label) {
    && (k.Accept? ==> WellFormedEvent(k.request.event) && WritePath.NewTicket(s, k.request))
    && (k.Pop? || k.Exit? ==> s.writer.Waiting?)
    && (k.CloseQueue? ==> s.main.FeedStopped?)
  }

  /** Whatever threads the monitor has, and in whatever state they are: a step that changes the queue, or
      settles a call, is one the write path can take on the same queue as soon as its caller is ready,
      with the same effect; every other step leaves the queue and both its histories alone. */
  lemma MonitorStepIsAStep(sha: Sha, m: QueueMonitor.Monitor, l: QueueMonitor.Label, s: WritePath.State)
    requires QueueMonitor.Enabled(m, l) && m.queue == s.queue && m.accepted == s.accepted && m.taken == TakenBy(s)
    ensures var m', k := QueueMonitor.Apply(m, l), CallOf(m, l);
      if k.None? then m'.queue == m.queue && m'.accepted == m.accepted && m'.taken == m.taken
      else CallerIsReady(s, k.value) ==>
        WritePath.Enabled(s, k.value) &&
        var s' := WritePath.Apply(sha, s, k.value);
        m'.queue == s'.queue && m'.accepted == s'.accepted && m'.taken == TakenBy(s')
  {
  }
}
