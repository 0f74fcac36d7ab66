/** What one WebSocket client can conclude from its frames alone. */
module FeedOrder {
  import opened Records
  import opened Broadcast
  import opened Blocks
  import opened Chains
  import opened WritePath
  import opened Guarantees

  datatype Frame = LagFrame(dropped: nat) | BlockFrame(block: Block)

  /** The pump announces a gap before the block that follows it. */
  function FramesOf(items: seq<Item<Block>>): seq<Frame> {
    if items == [] then []
    else FramesOf(items[..|items| - 1]) + ItemFrames(Last(items))
  }

  function ItemFrames(item: Item<Block>): seq<Frame> {
    (if item.lagged > 0 then [LagFrame(item.lagged)] else []) + [BlockFrame(item.value)]
  }

  /** Positions p and q of a frame sequence carry blocks, and none between them does. */
  ghost predicate ConsecutiveBlocks(fs: seq<Frame>, p: nat, q: nat) {
    && p < q < |fs| && fs[p].BlockFrame? && fs[q].BlockFrame?
    && forall i :: p < i < q ==> fs[i].LagFrame?
  }

  lemma {:induction false} FramesEndWithBlock(items: seq<Item<Block>>)
    requires items != []
    ensures |FramesOf(items)| >= 1 && Last(FramesOf(items)) == BlockFrame(Last(items).value)
  {
  }

  /** Consecutive block frames come from consecutive deliveries. */
  lemma {:induction false} FramesComeFromItems(items: seq<Item<Block>>, p: nat, q: nat) returns (k: nat)
    requires ConsecutiveBlocks(FramesOf(items), p, q)
    ensures k + 1 < |items|
    ensures FramesOf(items)[p] == BlockFrame(items[k].value) && FramesOf(items)[q] == BlockFrame(items[k + 1].value)
    ensures if items[k + 1].lagged > 0 then q == p + 2 && FramesOf(items)[p + 1] == LagFrame(items[k + 1].lagged)
      else q == p + 1
    decreases |items|
  {
    var front, fs := items[..|items| - 1], FramesOf(items);
    var before := FramesOf(front);
    if q < |before| {
      forall i | p < i < q ensures before[i].LagFrame? { assert fs[i] == before[i]; }
      assert fs[p] == before[p] && fs[q] == before[q];
      k := FramesComeFromItems(front, p, q);
    } else {
      assert q == |fs| - 1;
      if front != [] {
        FramesEndWithBlock(front);
        assert fs[|before| - 1] == Last(before);
        assert p == |before| - 1;
        k := |items| - 2;
        assert Last(front) == items[k];
      }
    }
  }

  /** The number of blocks announced as lost between two consecutive block frames. */
  function Announced(fs: seq<Frame>, p: nat, q: nat): nat
    requires p < q < |fs|
  {
    if q == p + 2 && fs[p + 1].LagFrame? then fs[p + 1].dropped else 0
  }

  /** The k-th sent block lies in the chain where the client's books say. */
  lemma SentPosition(sha: Sha, s: State, c: nat, k: nat) returns (n: nat)
    requires Inv(sha, s) && c < |s.clients| && k < |s.clients[c].sent|
    ensures var cl := s.clients[c];
      && n == cl.first + Covered(cl.sent[..k + 1]) - 1 && |s.base| <= n < |s.chain|
      && s.chain[n] == cl.sent[k].value
  {
    hide Inv, ChainOk, ServiceOk, DiskOk, MainOk;
    InvParts(sha, s);
    assert ClientOk(s, c);
    var cl := s.clients[c];
    assert Held(cl)[..k + 1] == cl.sent[..k + 1];
    assert DeliveredAt(s.chain[cl.first..cl.upto], Held(cl), k);
    CoversSomething(cl.sent, k);
    n := cl.first + Covered(cl.sent[..k + 1]) - 1;
  }

  /** No silent gap: of two consecutive block frames with indices i and j, j is i + 1 + N, where N is
      what the lag frame between them says (0 if there is none); a lag frame always says at least
      one; and when N is 0 the second block is linked to the first by its previous hash. */
  lemma NoSilentGap(sha: Sha, s: State, c: nat, p: nat, q: nat)
    requires Inv(sha, s) && c < |s.clients| && ConsecutiveBlocks(FramesOf(s.clients[c].sent), p, q)
    ensures
      var fs := FramesOf(s.clients[c].sent);
      var n := Announced(fs, p, q);
      && (q == p + 1 || (q == p + 2 && n > 0))
      && fs[q].block.index == Wrap(fs[p].block.index + 1 + n)
      && (n == 0 ==> fs[q].block.prevHash == fs[p].block.hash)
  {
    hide Inv, ChainOk, ServiceOk, DiskOk, MainOk, ClientsOk, FramesOf, Covered, ComputeHash;
    var sent := s.clients[c].sent;
    var k := FramesComeFromItems(sent, p, q);
    var a := SentPosition(sha, s, c, k);
    var b := SentPosition(sha, s, c, k + 1);
    CoveredNext(sent, k);
    assert b == a + 1 + sent[k + 1].lagged;
    InvParts(sha, s);
    NewBlockAt(sha, s, a);
    NewBlockAt(sha, s, b);
    WrapAdd(a, 1 + sent[k + 1].lagged);
  }

  /** Whatever file the ledger was loaded from, blocks that have joined since are numbered and linked. */
  lemma NewBlockAt(sha: Sha, s: State, n: nat)
    requires ChainOk(sha, s) && |s.base| <= n < |s.chain|
    ensures n > 0 && s.chain[n].index == Wrap(n) && s.chain[n].prevHash == s.chain[n - 1].hash
  {
    hide ComputeHash, HashOf, BuildNext;
    assert BlockOk(sha, s.chain, n);
  }

  lemma WrapAdd(a: nat, d: nat)
    ensures Wrap(Wrap(a) + d) == Wrap(a + d)
  {
  }

  /** The first block a client receives is the first one published after it subscribed, unless the
      lag it is told about says how many of those it already missed. */
  lemma FeedStartsAtSubscription(sha: Sha, s: State, c: nat)
    requires Inv(sha, s) && c < |s.clients| && s.clients[c].sent != []
    ensures s.clients[c].sent[0].value.index == Wrap(s.clients[c].first + s.clients[c].sent[0].lagged)
  {
    hide Inv, ChainOk, ServiceOk, DiskOk, MainOk, ClientsOk;
    var sent := s.clients[c].sent;
    var n := SentPosition(sha, s, c, 0);
    assert sent[..1][..0] == [] && Last(sent[..1]) == sent[0];
    assert Covered(sent[..1]) == sent[0].lagged + 1;
    InvParts(sha, s);
    NewBlockAt(sha, s, n);
  }

  /** For every run and every client. */
  lemma NoSilentGapInAnyRun(sha: Sha, run: seq<State>, i: nat, c: nat, p: nat, q: nat)
    requires IsRun(sha, run) && Initial(run[0]) && i < |run|
    requires c < |run[i].clients| && ConsecutiveBlocks(FramesOf(run[i].clients[c].sent), p, q)
    ensures
      var fs := FramesOf(run[i].clients[c].sent);
      var n := Announced(fs, p, q);
      && (q == p + 1 || (q == p + 2 && n > 0))
      && fs[q].block.index == Wrap(fs[p].block.index + 1 + n)
      && (n == 0 ==> fs[q].block.prevHash == fs[p].block.hash)
  {
    hide Inv, Initial, IsRun, FramesOf;
    ReachableInv(sha, run, i);
    NoSilentGap(sha, run[i], c, p, q);
  }
}
