/** Who owns a pump thread. Connections come and go on the library's threads, Close and Error callbacks may
    repeat, and the stop sweep runs among them: whichever takes a pump out of the connection map closes
    its subscription and joins it, outside the lock. */
module Pumps {
  import opened Records
  import opened Tally

  type Id = string

  /** A started pump: whether its subscription is closed, whether its loop has returned, and how often
      its thread has been joined. */
  datatype Pump = Pump(closed: bool, finished: bool, joins: nat)

  /** One on_close call that found its connection: the pump moved into it, and how far it is. */
  datatype Phase = Moved | SubscriptionClosed | Done
  datatype Callback = Callback(pump: nat, phase: Phase)

  /** The stop sequence. */
  datatype Stop =
    | Running
    | StoppingServer
    | ServerStopped
    | Sweeping(todo: set<nat>, current: Option<nat>)  // current: closed and about to be joined
    | Stopped

  datatype State = State(
    conns: map<Id, nat>,
    pumps: seq<Pump>,
    opening: set<Id>,   // subscribed, not yet in the map
    seen: set<Id>,      // every id that was ever opened
    callbacks: seq<Callback>,
    stop: Stop)

  datatype Label =
    | Subscribe(id: Id)
    | Insert(id: Id)
    | CloseCalled(id: Id)   // Close or Error
    | CallbackCloses(i: nat)
    | CallbackJoins(i: nat)
    | PumpReturns(k: nat)
    | BeginStop
    | ServerStops
    | Swap
    | SweepCloses(k: nat)
    | SweepJoins
    | EndStop

  /** Of the libraries it is assumed that a connection is opened once and ids are not reused, that no
      connection is opened once the server has stopped, and that a join returns only after the loop. */
  ghost predicate Enabled(s: State, l: Label) {
    match l
    case Subscribe(id) => (s.stop.Running? || s.stop.StoppingServer?) && id !in s.seen
    case Insert(id) => id in s.opening
    case CloseCalled(id) => true
    case CallbackCloses(i) => i < |s.callbacks| && s.callbacks[i].phase.Moved? && s.callbacks[i].pump < |s.pumps|
    case CallbackJoins(i) =>
      i < |s.callbacks| && s.callbacks[i].phase.SubscriptionClosed? && s.callbacks[i].pump < |s.pumps|
      && s.pumps[s.callbacks[i].pump].finished
    case PumpReturns(k) => k < |s.pumps| && !s.pumps[k].finished
    case BeginStop => s.stop.Running?
    case ServerStops => s.stop.StoppingServer? && s.opening == {}
    case Swap => s.stop.ServerStopped?
    case SweepCloses(k) => s.stop.Sweeping? && s.stop.current.None? && k in s.stop.todo && k < |s.pumps|
    case SweepJoins =>
      s.stop.Sweeping? && s.stop.current.Some? && s.stop.current.value < |s.pumps|
      && s.pumps[s.stop.current.value].finished
    case EndStop => s.stop.Sweeping? && s.stop.current.None? && s.stop.todo == {}
  }

  ghost function Close(pumps: seq<Pump>, k: nat): seq<Pump>
    requires k < |pumps|
  {
    pumps[k := pumps[k].(closed := true)]
  }

  ghost function Join(pumps: seq<Pump>, k: nat): seq<Pump>
    requires k < |pumps|
  {
    pumps[k := pumps[k].(joins := pumps[k].joins + 1)]
  }

  ghost function Apply(s: State, l: Label): State
    requires Enabled(s, l)
  {
    match l
    case Subscribe(id) => s.(opening := s.opening + {id}, seen := s.seen + {id})
    case Insert(id) =>
      s.(opening := s.opening - {id}, conns := s.conns[id := |s.pumps|], pumps := s.pumps + [Pump(false, false, 0)])
    case CloseCalled(id) =>
      if id !in s.conns then s
      else s.(conns := s.conns - {id}, callbacks := s.callbacks + [Callback(s.conns[id], Moved)])
    case CallbackCloses(i) =>
      s.(pumps := Close(s.pumps, s.callbacks[i].pump),
         callbacks := s.callbacks[i := s.callbacks[i].(phase := SubscriptionClosed)])
    case CallbackJoins(i) =>
      s.(pumps := Join(s.pumps, s.callbacks[i].pump), callbacks := s.callbacks[i := s.callbacks[i].(phase := Done)])
    case PumpReturns(k) => s.(pumps := s.pumps[k := s.pumps[k].(finished := true)])
    case BeginStop => s.(stop := StoppingServer)
    case ServerStops => s.(stop := ServerStopped)
    case Swap => s.(conns := map[], stop := Sweeping(s.conns.Values, None))
    case SweepCloses(k) => s.(pumps := Close(s.pumps, k), stop := s.stop.(current := Some(k)))
    case SweepJoins =>
      var k := s.stop.current.value;
      s.(pumps := Join(s.pumps, k), stop := Sweeping(s.stop.todo - {k}, None))
    case EndStop => s.(stop := Stopped)
  }

  ghost predicate Initial(s: State) {
    s.conns == map[] && s.pumps == [] && s.opening == s.seen == {} && s.callbacks == [] && s.stop.Running?
  }

  ghost predicate Step(s: State, s': State) {
    exists l :: Enabled(s, l) && s' == Apply(s, l)
  }

  ghost predicate IsRun(run: seq<State>) {
    && run != []
    && forall i :: 0 <= i < |run| - 1 ==> Step(run[i], run[i + 1])
  }

  // ----- ownership ----------------------------------------------------------------------------------

  ghost predicate InMap(s: State, k: nat) { k in s.conns.Values }

  ghost predicate HeldBy(s: State, k: nat, i: nat) {
    i < |s.callbacks| && s.callbacks[i].pump == k && !s.callbacks[i].phase.Done?
  }

  ghost predicate InCallback(s: State, k: nat) { exists i: nat :: HeldBy(s, k, i) }

  ghost predicate InSweep(s: State, k: nat) { s.stop.Sweeping? && k in s.stop.todo }

  ghost predicate Joined(s: State, k: nat)
    requires k < |s.pumps|
  {
    s.pumps[k].joins > 0
  }

  ghost function One(b: bool): nat { if b then 1 else 0 }

  /** Exactly one of four. */
  ghost predicate OwnedOnce(s: State, k: nat)
    requires k < |s.pumps|
  {
    One(InMap(s, k)) + One(InCallback(s, k)) + One(InSweep(s, k)) + One(Joined(s, k)) == 1
  }

  ghost predicate PumpOk(s: State, k: nat)
    requires k < |s.pumps|
  {
    && OwnedOnce(s, k)
    && s.pumps[k].joins <= 1
    && (Joined(s, k) ==> s.pumps[k].closed && s.pumps[k].finished)
  }

  ghost predicate MapOk(s: State) {
    && (forall id :: id in s.conns ==> s.conns[id] < |s.pumps|)
    && (forall id, id' :: id in s.conns && id' in s.conns && s.conns[id] == s.conns[id'] ==> id == id')
  }

  ghost predicate CallbacksOk(s: State) {
    && (forall i :: 0 <= i < |s.callbacks| ==> s.callbacks[i].pump < |s.pumps|)
    && (forall i, j :: 0 <= i < j < |s.callbacks| ==> s.callbacks[i].pump != s.callbacks[j].pump)
    && (forall i :: 0 <= i < |s.callbacks| && !s.callbacks[i].phase.Moved? ==> s.pumps[s.callbacks[i].pump].closed)
    && (forall i :: 0 <= i < |s.callbacks| && s.callbacks[i].phase.Done? ==> Joined(s, s.callbacks[i].pump))
  }

  ghost predicate SweepOk(s: State) {
    s.stop.Sweeping? ==>
      && (forall k :: k in s.stop.todo ==> k < |s.pumps|)
      && (s.stop.current.Some? ==> s.stop.current.value in s.stop.todo && s.pumps[s.stop.current.value].closed)
  }

  ghost predicate IdsOk(s: State) {
    && s.opening <= s.seen && s.conns.Keys <= s.seen && s.opening !! s.conns.Keys
    && (s.stop.ServerStopped? || s.stop.Sweeping? || s.stop.Stopped? ==> s.opening == {})
    && (s.stop.Sweeping? || s.stop.Stopped? ==> s.conns == map[])
  }

  ghost predicate HoldersOk(s: State) {
    MapOk(s) && CallbacksOk(s) && SweepOk(s) && IdsOk(s)
  }

  ghost predicate Inv(s: State) {
    HoldersOk(s) && forall k :: 0 <= k < |s.pumps| ==> PumpOk(s, k)
  }

  lemma MapStaysOk(s: State, l: Label)
    requires MapOk(s) && Enabled(s, l)
    ensures MapOk(Apply(s, l))
  {
  }

  /** Pumps are only added, closed, joined and returned from. */
  ghost predicate PumpsGrow(pumps: seq<Pump>, pumps': seq<Pump>) {
    && |pumps| <= |pumps'|
    && forall k :: 0 <= k < |pumps| ==> (pumps[k].closed ==> pumps'[k].closed) && pumps[k].joins <= pumps'[k].joins
  }

  lemma PumpsOnlyGrow(s: State, l: Label)
    requires Enabled(s, l)
    ensures PumpsGrow(s.pumps, Apply(s, l).pumps)
  {
  }

  lemma SameCallbacksStayOk(s: State, s': State)
    requires CallbacksOk(s) && PumpsGrow(s.pumps, s'.pumps) && s'.callbacks == s.callbacks
    ensures CallbacksOk(s')
  {
  }

  lemma NewCallbackIsOk(s: State, s': State, k: nat)
    requires CallbacksOk(s) && s'.pumps == s.pumps && s'.callbacks == s.callbacks + [Callback(k, Moved)]
    requires k < |s.pumps| && forall i :: 0 <= i < |s.callbacks| ==> s.callbacks[i].pump != k
    ensures CallbacksOk(s')
  {
  }

  lemma AdvancedCallbackIsOk(s: State, s': State, i: nat, phase: Phase)
    requires CallbacksOk(s) && i < |s.callbacks| && PumpsGrow(s.pumps, s'.pumps)
    requires s'.callbacks == s.callbacks[i := s.callbacks[i].(phase := phase)]
    requires var p := s'.pumps[s.callbacks[i].pump]; p.closed && (phase.Done? ==> p.joins > 0)
    ensures CallbacksOk(s')
  {
  }

  lemma CallbacksStayOk(s: State, l: Label)
    requires CallbacksOk(s) && Enabled(s, l)
    requires l.CloseCalled? && l.id in s.conns ==>
      s.conns[l.id] < |s.pumps| && forall i :: 0 <= i < |s.callbacks| ==> s.callbacks[i].pump != s.conns[l.id]
    ensures CallbacksOk(Apply(s, l))
  {
    hide PumpsGrow;
    var s' := Apply(s, l);
    PumpsOnlyGrow(s, l);
    match l
    case CallbackCloses(i) => AdvancedCallbackIsOk(s, s', i, SubscriptionClosed);
    case CallbackJoins(i) => AdvancedCallbackIsOk(s, s', i, Done);
    case CloseCalled(id) => if id in s.conns { NewCallbackIsOk(s, s', s.conns[id]); }
    case _ => SameCallbacksStayOk(s, s');
  }

  lemma SweepStaysOk(s: State, l: Label)
    requires SweepOk(s) && MapOk(s) && Enabled(s, l)
    ensures SweepOk(Apply(s, l))
  {
  }

  lemma IdsStayOk(s: State, l: Label)
    requires IdsOk(s) && Enabled(s, l)
    ensures IdsOk(Apply(s, l))
  {
  }

  lemma HoldersStayOk(s: State, l: Label)
    requires Inv(s) && Enabled(s, l)
    ensures HoldersOk(Apply(s, l))
  {
    hide Apply, Enabled, OwnedOnce, InCallback, InSweep;
    if l.CloseCalled? && l.id in s.conns {
      NotInCallback(s, l.id);
    }
    MapStaysOk(s, l);
    CallbacksStayOk(s, l);
    SweepStaysOk(s, l);
    IdsStayOk(s, l);
  }

  /** A pump in the map is in no callback's hands, not swept and not joined. */
  lemma NotInCallback(s: State, id: Id)
    requires Inv(s) && id in s.conns
    ensures forall i :: 0 <= i < |s.callbacks| ==> s.callbacks[i].pump != s.conns[id]
  {
    var k := s.conns[id];
    assert PumpOk(s, k) && InMap(s, k);
    forall i | 0 <= i < |s.callbacks| ensures s.callbacks[i].pump != k {
      if s.callbacks[i].pump == k && !s.callbacks[i].phase.Done? {
        assert HeldBy(s, k, i);
      }
    }
  }

  /** What each step does to the set of pumps that callbacks hold. */
  lemma CallbacksAfter(s: State, l: Label, k: nat)
    requires HoldersOk(s) && Enabled(s, l)
    ensures InCallback(Apply(s, l), k) <==>
      if l.CloseCalled? && l.id in s.conns then InCallback(s, k) || k == s.conns[l.id]
      else if l.CallbackJoins? then InCallback(s, k) && k != s.callbacks[l.i].pump
      else InCallback(s, k)
  {
    var s' := Apply(s, l);
    if i: nat :| HeldBy(s, k, i) {
      if !(l.CallbackJoins? && l.i == i) { assert HeldBy(s', k, i); }
    }
    if i: nat :| HeldBy(s', k, i) {
      if i < |s.callbacks| { assert HeldBy(s, k, i); }
    }
    if l.CloseCalled? && l.id in s.conns && k == s.conns[l.id] {
      assert HeldBy(s', k, |s.callbacks|);
    }
  }

  lemma PumpStaysOk(s: State, l: Label, k: nat)
    requires Inv(s) && Enabled(s, l) && k < |Apply(s, l).pumps|
    ensures PumpOk(Apply(s, l), k)
  {
    hide InCallback, HeldBy;
    var s' := Apply(s, l);
    CallbacksAfter(s, l, k);
    if k < |s.pumps| {
      assert PumpOk(s, k);
      MapAfter(s, l, k);
      if l.CallbackJoins? { assert InCallback(s, s.callbacks[l.i].pump) by { StillHeld(s, l.i); } }
    } else {
      NobodyHolds(s, k);
      assert s'.conns[l.id] == k;
    }
  }

  lemma StillHeld(s: State, i: nat)
    requires i < |s.callbacks| && !s.callbacks[i].phase.Done?
    ensures InCallback(s, s.callbacks[i].pump)
  {
    assert HeldBy(s, s.callbacks[i].pump, i);
  }

  lemma NobodyHolds(s: State, k: nat)
    requires HoldersOk(s) && k >= |s.pumps|
    ensures !InMap(s, k) && !InCallback(s, k) && !InSweep(s, k)
  {
  }

  /** What each step does to the set of pumps in the map. */
  lemma MapAfter(s: State, l: Label, k: nat)
    requires HoldersOk(s) && Enabled(s, l) && k < |s.pumps|
    ensures InMap(Apply(s, l), k) <==>
      InMap(s, k) && !l.Swap? && !(l.CloseCalled? && l.id in s.conns && s.conns[l.id] == k)
  {
    var s' := Apply(s, l);
    if InMap(s, k) {
      var id :| id in s.conns && s.conns[id] == k;
      if id in s'.conns && !l.Insert? { assert s'.conns[id] == k; }
      if l.Insert? { assert id != l.id && s'.conns[id] == k; }
    }
  }

  lemma StepKeepsInv(s: State, l: Label)
    requires Inv(s) && Enabled(s, l)
    ensures Inv(Apply(s, l))
  {
    hide PumpOk, HoldersOk;
    HoldersStayOk(s, l);
    forall k | 0 <= k < |Apply(s, l).pumps| ensures PumpOk(Apply(s, l), k) {
      PumpStaysOk(s, l, k);
    }
  }

  /** Under any interleaving of opens, repeated Close and Error callbacks and the stop sweep, every pump
      ever started is owned by exactly one of the map, one callback, the sweep, or nobody because it has
      been joined; it is joined at most once, and then its subscription is closed. */
  lemma {:induction false} OwnershipIsLinear(run: seq<State>, i: nat, k: nat)
    requires IsRun(run) && Initial(run[0]) && i < |run| && k < |run[i].pumps|
    ensures OwnedOnce(run[i], k) && run[i].pumps[k].joins <= 1
    ensures Joined(run[i], k) ==> run[i].pumps[k].closed && run[i].pumps[k].finished
  {
    hide HoldersOk, OwnedOnce, Joined;
    ReachableInv(run, i);
    assert PumpOk(run[i], k);
  }

  lemma {:induction false} ReachableInv(run: seq<State>, i: nat)
    requires IsRun(run) && Initial(run[0]) && i < |run|
    ensures Inv(run[i])
  {
    hide PumpOk, Apply, Enabled;
    if i > 0 {
      ReachableInv(run, i - 1);
      assert Step(run[i - 1], run[i - 1 + 1]);
      var l :| Enabled(run[i - 1], l) && run[i] == Apply(run[i - 1], l);
      StepKeepsInv(run[i - 1], l);
    }
  }

  /** The step that joins a pump finds its subscription closed and its loop returned. */
  lemma JoinComesAfterClose(s: State, l: Label, k: nat)
    requires Inv(s) && Enabled(s, l) && k < |s.pumps| && Apply(s, l).pumps[k].joins != s.pumps[k].joins
    ensures s.pumps[k].closed && s.pumps[k].finished && s.pumps[k].joins == 0 && Apply(s, l).pumps[k].joins == 1
  {
    hide InMap;
    assert PumpOk(s, k);
    if l.CallbackJoins? { StillHeld(s, l.i); }
  }

  /** A second Close or Error for the same connection does nothing. */
  lemma RepeatedCloseIsHarmless(s: State, id: Id)
    ensures Apply(Apply(s, CloseCalled(id)), CloseCalled(id)) == Apply(s, CloseCalled(id))
  {
  }

  // ----- the end of it --------------------------------------------------------------------------------

  ghost predicate CallbacksDone(s: State) {
    forall i :: 0 <= i < |s.callbacks| ==> s.callbacks[i].phase.Done?
  }

  /** After stop() has returned and the callbacks it overlapped have too, nothing is left: every pump
      has been joined exactly once. */
  lemma NothingIsLeft(s: State, k: nat)
    requires Inv(s) && s.stop.Stopped? && CallbacksDone(s) && k < |s.pumps|
    ensures Joined(s, k) && s.pumps[k].joins == 1 && s.pumps[k].closed
  {
    assert PumpOk(s, k);
  }

  /** The steps the stop sequence and the callbacks themselves still have to take. */
  ghost predicate Closing(l: Label) {
    !l.Subscribe? && !l.CloseCalled? && !l.PumpReturns?
  }

  /** A pump whose subscription is closed, or whose loop has returned. */
  ghost predicate WillReturn(s: State, k: nat)
    requires k < |s.pumps|
  {
    s.pumps[k].closed || s.pumps[k].finished
  }

  /** Stopping never gets stuck: until everything is joined, the stop sequence or a callback has a step
      of its own, or the pump it is about to join has been told to return. */
  lemma StoppingNeverStuck(s: State) returns (l: Label)
    requires Inv(s) && !s.stop.Running? && !(s.stop.Stopped? && CallbacksDone(s))
    ensures Enabled(s, l) && (Closing(l) || (l.PumpReturns? && WillReturn(s, l.k)))
  {
    if i :| 0 <= i < |s.callbacks| && !s.callbacks[i].phase.Done? {
      var k := s.callbacks[i].pump;
      l := if s.callbacks[i].phase.Moved? then CallbackCloses(i) else if s.pumps[k].finished then CallbackJoins(i)
          else PumpReturns(k);
    } else {
      match s.stop
      case StoppingServer =>
        if id :| id in s.opening { l := Insert(id); } else { l := ServerStops; }
      case ServerStopped => l := Swap;
      case Sweeping(todo, Some(k)) => l := if s.pumps[k].finished then SweepJoins else PumpReturns(k);
      case Sweeping(todo, None) =>
        if k :| k in todo { l := SweepCloses(k); } else { l := EndStop; }
      case _ =>
    }
  }

  ghost function PumpWork(p: Pump): nat { One(!p.finished) }

  ghost function CallbackWork(c: Callback): nat {
    match c.phase case Moved => 2 case SubscriptionClosed => 1 case Done => 0
  }

  ghost function StopWork(stop: Stop): nat {
    match stop
    case Running => 5
    case StoppingServer => 4
    case ServerStopped => 3
    case Sweeping(todo, current) => 1 + 2 * |todo| + (if current.Some? then 0 else 1)
    case Stopped => 0
  }

  ghost function Work(s: State): nat {
    Sum(s.pumps, PumpWork) + Sum(s.callbacks, CallbackWork) + 3 * |s.conns| + StopWork(s.stop)
  }

  /** The server has stopped: no connection is opened any more. */
  ghost predicate NoMoreOpens(s: State) {
    s.stop.ServerStopped? || s.stop.Sweeping? || s.stop.Stopped?
  }

  lemma {:induction false} FewerValues(m: map<Id, nat>)
    ensures |m.Values| <= |m|
    decreases |m|
  {
    if m != map[] {
      var id :| id in m;
      FewerValues(m - {id});
      assert m.Values == (m - {id}).Values + {m[id]} by {
        forall v | v in m.Values ensures v in (m - {id}).Values + {m[id]} {
          var j :| j in m && m[j] == v;
          if j != id { assert j in m - {id}; }
        }
      }
      assert (m - {id}).Keys == m.Keys - {id};
    }
  }

  lemma ClosedPumpsWeighTheSame(pumps: seq<Pump>, pumps': seq<Pump>)
    requires |pumps'| == |pumps| && forall i :: 0 <= i < |pumps| ==> pumps'[i].finished == pumps[i].finished
    ensures Sum(pumps', PumpWork) == Sum(pumps, PumpWork)
  {
    SumPointwise(pumps, pumps', PumpWork);
  }

  lemma CallbackStepCounts(s: State, l: Label)
    requires Enabled(s, l) && (l.CallbackCloses? || l.CallbackJoins?)
    ensures Work(Apply(s, l)) < Work(s)
  {
    hide StopWork;
    ClosedPumpsWeighTheSame(s.pumps, Apply(s, l).pumps);
    var phase := if l.CallbackCloses? then SubscriptionClosed else Done;
    SumUpdate(s.callbacks, l.i, s.callbacks[l.i].(phase := phase), CallbackWork);
  }

  lemma SweepJoinCounts(s: State)
    requires Enabled(s, SweepJoins) && SweepOk(s)
    ensures Work(Apply(s, SweepJoins)) < Work(s)
  {
    hide CallbackWork, PumpWork, Sum;
    var k := s.stop.current.value;
    ClosedPumpsWeighTheSame(s.pumps, Join(s.pumps, k));
    assert |s.stop.todo - {k}| == |s.stop.todo| - 1;
  }

  lemma SweepCloseCounts(s: State, k: nat)
    requires Enabled(s, SweepCloses(k))
    ensures Work(Apply(s, SweepCloses(k))) < Work(s)
  {
    hide CallbackWork, PumpWork, Sum;
    ClosedPumpsWeighTheSame(s.pumps, Close(s.pumps, k));
  }

  lemma SwapCounts(s: State)
    requires Enabled(s, Swap)
    ensures Work(Apply(s, Swap)) < Work(s)
  {
    hide CallbackWork, PumpWork, Sum;
    FewerValues(s.conns);
  }

  /** Once the server has stopped every step that changes anything takes the shutdown nearer its end. */
  lemma EveryStepCounts(s: State, l: Label)
    requires IdsOk(s) && SweepOk(s) && Enabled(s, l) && NoMoreOpens(s)
    ensures NoMoreOpens(Apply(s, l))
    ensures Apply(s, l) == s || Work(Apply(s, l)) < Work(s)
  {
    hide SweepOk;
    if l.CallbackCloses? || l.CallbackJoins? {
      CallbackStepCounts(s, l);
    } else if l.Swap? {
      SwapCounts(s);
    } else if l.SweepCloses? {
      SweepCloseCounts(s, l.k);
    } else if l.SweepJoins? {
      SweepJoinCounts(s);
    } else if l.PumpReturns? {
      SumUpdate(s.pumps, l.k, s.pumps[l.k].(finished := true), PumpWork);
    } else if l.CloseCalled? && l.id in s.conns {
      SumSnoc(s.callbacks, Callback(s.conns[l.id], Moved), CallbackWork);
      assert (s.conns - {l.id}).Keys == s.conns.Keys - {l.id};
    }
  }

  /** The shutdown is bounded: from when the server has stopped there are at most Work more changes,
      whatever the interleaving. */
  lemma {:induction false} SweepIsBounded(run: seq<State>)
    requires run != [] && Inv(run[0]) && NoMoreOpens(run[0])
    requires forall i :: 0 <= i < |run| - 1 ==> Step(run[i], run[i + 1]) && run[i + 1] != run[i]
    ensures |run| - 1 <= Work(run[0])
    decreases |run|
  {
    hide Work, PumpOk, MapOk, CallbacksOk, SweepOk, IdsOk, Step;
    if |run| > 1 {
      assert Step(run[0], run[0 + 1]);
      OneStep(run[0], run[1]);
      var rest := run[1..];
      forall i | 0 <= i < |rest| - 1 ensures Step(rest[i], rest[i + 1]) && rest[i + 1] != rest[i] {
        assert rest[i] == run[i + 1] && rest[i + 1] == run[i + 1 + 1];
      }
      SweepIsBounded(rest);
    }
  }

  lemma OneStep(s: State, s': State)
    requires Inv(s) && NoMoreOpens(s) && Step(s, s') && s' != s
    ensures Inv(s') && NoMoreOpens(s') && Work(s') < Work(s)
  {
    hide Inv, Work, Apply, Enabled, NoMoreOpens;
    var l :| Enabled(s, l) && s' == Apply(s, l);
    StepKeepsInv(s, l);
    InvParts(s);
    EveryStepCounts(s, l);
  }

  lemma InvParts(s: State)
    requires Inv(s)
    ensures IdsOk(s) && SweepOk(s)
  {
  }

  /** Opening a connection gives it a pump of its own that runs on an open subscription: possible for every
      new id as long as the server serves, whatever else is going on. */
  lemma OpeningStartsAPump(s: State, id: Id)
    requires Inv(s) && (s.stop.Running? || s.stop.StoppingServer?) && id !in s.seen
    ensures Enabled(s, Subscribe(id)) && Enabled(Apply(s, Subscribe(id)), Insert(id))
    ensures var s' := Apply(Apply(s, Subscribe(id)), Insert(id));
      && id in s'.conns && s'.conns[id] == |s.pumps| && s'.pumps == s.pumps + [Pump(false, false, 0)]
      && (forall id' :: id' != id ==> (id' in s'.conns <==> id' in s.conns))
      && (forall id' :: id' in s.conns ==> s'.conns[id'] == s.conns[id'])
  {
  }
}
