/** Stopping the HTTP server from another thread, at any moment of its life. */
module ServerHandles {
  import opened Records

  /** The server lives on the stack of serve(); the handle points at it while stop() may call it. */
  datatype Handle = Handle(attached: bool, stopped: bool)

  class ServerHandle {
    var attached: bool
    var stopped: bool

    ghost function View(): Handle
      reads this
    {
      Handle(attached, stopped)
    }

    constructor ()
      ensures View() == Handle(false, false)
    {
      attached, stopped := false, false;
    }

    /** Whether it called the server's own stop(), inside the lock. */
    method Stop() returns (touched: bool)
      modifies this
      ensures View() == Handle(old(attached), true) && touched == old(attached)
    {
      stopped := true;
      touched := attached;
    }

    method Attach() returns (refused: bool)
      modifies this
      ensures (View(), refused) == AfterAttach(old(View()))
    {
      if stopped {
        return true;
      }
      attached := true;
      return false;
    }

    method Detach()
      modifies this
      ensures View() == old(View()).(attached := false)
    {
      attached := false;
    }
  }

  function AfterAttach(h: Handle): (Handle, bool) {
    if h.stopped then (h, true) else (h.(attached := true), false)
  }

  // ----- serve() and any number of stop() calls, interleaved -------------------------------------------

  datatype Phase = Created | Attached | Listening | ListenReturned | Detached | Refused | Destroyed

  /** touchedIn lists the phases in which a stop() called the server; the rest is history too. */
  datatype State = State(
    handle: Handle,
    phase: Phase,
    touchedIn: seq<Phase>,
    everListened: bool,
    stoppedBeforeAttach: bool,
    stoppedBeforeDetach: bool)

  datatype Label = Attach | Listen | ListenReturns | Detach | Destroy | Stop

  ghost predicate Enabled(s: State, l: Label) {
    match l
    case Attach => s.phase.Created?
    case Listen => s.phase.Attached?
    case ListenReturns => s.phase.Listening?
    case Detach => s.phase.ListenReturned?
    case Destroy => s.phase.Detached? || s.phase.Refused?
    case Stop => true
  }

  ghost function Apply(s: State, l: Label): State
    requires Enabled(s, l)
  {
    match l
    case Attach =>
      var (h, refused) := AfterAttach(s.handle);
      s.(handle := h, phase := if refused then Refused else Attached)
    case Listen => s.(phase := Listening, everListened := true)
    case ListenReturns => s.(phase := ListenReturned)
    case Detach => s.(phase := Detached, handle := s.handle.(attached := false))
    case Destroy => s.(phase := Destroyed)
    case Stop =>
      s.(handle := s.handle.(stopped := true),
         touchedIn := if s.handle.attached then s.touchedIn + [s.phase] else s.touchedIn,
         stoppedBeforeAttach := s.stoppedBeforeAttach || s.phase.Created?,
         stoppedBeforeDetach := s.stoppedBeforeDetach || Alive(s.phase))
  }

  ghost predicate Initial(s: State) {
    s == State(Handle(false, false), Created, [], false, false, false)
  }

  ghost predicate Step(s: State, s': State) {
    exists l :: Enabled(s, l) && s' == Apply(s, l)
  }

  ghost predicate IsRun(run: seq<State>) {
    run != [] && forall i :: 0 <= i < |run| - 1 ==> Step(run[i], run[i + 1])
  }

  ghost predicate Alive(p: Phase) {
    p.Attached? || p.Listening? || p.ListenReturned?
  }

  ghost predicate Inv(s: State) {
    && (s.handle.attached <==> Alive(s.phase))
    && (forall i :: 0 <= i < |s.touchedIn| ==> Alive(s.touchedIn[i]))
    && (s.stoppedBeforeAttach ==>
          && s.handle.stopped && !s.everListened
          && (s.phase.Created? || s.phase.Refused? || s.phase.Destroyed?))
    && (s.stoppedBeforeDetach <==> s.touchedIn != [])
    && (s.phase.Created? || s.phase.Attached? || s.phase.Refused? ==> !s.everListened)
    && (s.phase.Created? && s.handle.stopped ==> s.stoppedBeforeAttach)
    && (s.phase.Refused? ==> s.stoppedBeforeAttach)
  }

  lemma {:induction false} ReachableInv(run: seq<State>, i: nat)
    requires IsRun(run) && Initial(run[0]) && i < |run|
    ensures Inv(run[i])
  {
    hide IsRun;
    if i > 0 {
      ReachableInv(run, i - 1);
      assert Step(run[i - 1], run[i]) by { RunSteps(run, i - 1); }
    }
  }

  lemma RunSteps(run: seq<State>, i: nat)
    requires IsRun(run) && i < |run| - 1
    ensures Step(run[i], run[i + 1])
  {
  }

  /** Whatever the interleaving: no stop() ever calls a server outside its life on serve()'s stack, a
      stop() that comes before attach keeps it from ever listening, and serve() declines to listen for
      no other reason; a stop() between attach and detach always reaches it. */
  lemma StopIsSafeAndNotLost(run: seq<State>, i: nat)
    requires IsRun(run) && Initial(run[0]) && i < |run|
    ensures forall k :: 0 <= k < |run[i].touchedIn| ==> Alive(run[i].touchedIn[k])
    ensures run[i].stoppedBeforeAttach ==> !run[i].everListened
    ensures run[i].phase.Refused? ==> run[i].stoppedBeforeAttach
    ensures run[i].stoppedBeforeDetach <==> run[i].touchedIn != []
  {
    ReachableInv(run, i);
  }

  /** A stop() can come at any time, and calls the server exactly if it is attached then. */
  lemma StopComesAnyTime(s: State)
    ensures Enabled(s, Stop) && Apply(s, Stop).handle.stopped && Apply(s, Stop).phase == s.phase
    ensures Apply(s, Stop).touchedIn == if s.handle.attached then s.touchedIn + [s.phase] else s.touchedIn
  {
  }

  lemma Extend(run: seq<State>, l: Label) returns (run': seq<State>)
    requires IsRun(run) && Enabled(Last(run), l)
    ensures IsRun(run') && run' == run + [Apply(Last(run), l)]
  {
    hide Enabled, Apply;
    run' := run + [Apply(Last(run), l)];
    forall i | 0 <= i < |run'| - 1 ensures Step(run'[i], run'[i + 1]) {
      if i < |run| - 1 { assert Step(run[i], run[i + 1]); }
    }
  }

  /** A serve() that nobody stops listens, returns and takes its server away; one that was stopped before
      never listens and comes to the same end. */
  lemma ServeComesToItsEnd(stopped: bool) returns (run: seq<State>)
    ensures IsRun(run) && Initial(run[0]) && Last(run).phase.Destroyed?
    ensures Last(run).everListened == !stopped && Last(run).handle.stopped == stopped && Last(run).touchedIn == []
  {
    hide IsRun;
    run := [State(Handle(false, false), Created, [], false, false, false)];
    assert IsRun(run) by { OneStateIsRun(run[0]); }
    if stopped {
      run := Extend(run, Stop);
      run := Extend(run, Attach);
    } else {
      run := Extend(run, Attach);
      run := Extend(run, Listen);
      run := Extend(run, ListenReturns);
      run := Extend(run, Detach);
    }
    run := Extend(run, Destroy);
  }

  lemma OneStateIsRun(s: State)
    ensures IsRun([s])
  {
  }
}
