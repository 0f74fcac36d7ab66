/** A request that is refused because the disk failed, and whose block is nevertheless there after a restart. */
module RevivedBlock {
  import opened Records
  import opened BoundedQueue
  import opened Blocks
  import opened Chains
  import opened Storage
  import opened WritePath
  import opened WriterLoop

  lemma JoinRuns(sha: Sha, a: seq<State>, b: seq<State>)
    requires IsRun(sha, a) && IsRun(sha, b) && b[0] == Last(a)
    ensures IsRun(sha, a + b[1..])
  {
    hide Step;
    var run := a + b[1..];
    forall i | 0 <= i < |run| - 1 ensures Step(sha, run[i], run[i + 1]) {
      if i < |a| - 1 {
        assert Step(sha, a[i], a[i + 1]);
      } else {
        assert run[i] == b[i - (|a| - 1)] && run[i + 1] == b[i - (|a| - 1) + 1];
      }
    }
  }

  /** From every file of complete lines and for every event: the disk takes all of the line, with or
      without its newline, and fails. The one request is answered with the failure, the chain stays as it was, and the
      next start-up loads it with the refused block on top. */
  lemma RefusedBlockComesBack(sha: Sha, start: State, r: Request, now: string, whole: bool, later: string)
    returns (run: seq<State>, b: Block)
    requires Initial(start) && Terminated(start.loaded) && WellFormedEvent(r.event)
    ensures run != [] && IsRun(sha, run) && run[0] == start && Last(run).chain == start.chain
    ensures Last(run).served == [Served(r, StorageFailure)] && b.event == r.event
    ensures LoadChain(sha, Some(Last(run).log.bytes), later) == Loaded(start.chain + [b])
  {
    hide ReadLog, EncodeLog, BlockText, BuildNext, LoadChain, Terminated, WellFormedEvent, Inv;
    InitialInv(sha, start);
    assert start.chain != [];
    b := BuildNext(sha, start.chain, r.event, now);
    BuiltBlockHasEvent(sha, start.chain, r.event, now);
    SingletonIsRun(sha, start);
    run := Extend(sha, [start], Accept(r));
    var n := |BlockText(b)| + if whole then 1 else 0;
    var rest := LoopBodyIsARun(sha, Last(run), now, FailsAfter(n));
    JoinRuns(sha, run, rest);
    run := run + rest[1..];
    assert Last(run) == Last(rest);
    assert Last(run).log.bytes == start.loaded + Line(b)[..n];
    var none: seq<Block> := [];
    assert start.loaded + EncodeLog(none) + Line(b)[..n] == start.loaded + Line(b)[..n] by { EncodeNothing(); }
    RestartAfterTornAppend(sha, start.loaded, start.base, none, b, n, later);
    BlockTextIsOneLine(b);
    assert start.base + none + [b] == start.chain + [b];
  }

  lemma EncodeNothing()
    ensures EncodeLog([]) == ""
  {
  }
}
