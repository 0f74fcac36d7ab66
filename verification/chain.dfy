/** The hash chain: how it grows, what verify_chain checks, and what passing it rules out. */
module Chains {
  import opened Records
  import opened Blocks
  import opened EventTexts

  /** The check verify_chain makes at position i. */
  predicate BlockOk(sha: Sha, blocks: seq<Block>, i: nat)
    requires i < |blocks|
  {
    && blocks[i].prevHash == (if i == 0 then ZERO_HASH else blocks[i - 1].hash)
    && HashOf(sha, blocks[i]) == blocks[i].hash
  }

  ghost predicate Verifies(sha: Sha, blocks: seq<Block>) {
    forall i :: 0 <= i < |blocks| ==> BlockOk(sha, blocks, i)
  }

  datatype VerifyResult = VerifyResult(
    valid: bool,
    chainLength: nat,
    checkedBlocks: nat,
    firstInvalid: Option<nat>)

  /** What a verification result has to say about a chain. */
  ghost predicate Reports(sha: Sha, blocks: seq<Block>, r: VerifyResult) {
    && r.chainLength == |blocks|
    && (r.valid <==> Verifies(sha, blocks))
    && (r.valid <==> r.firstInvalid.None?)
    && (r.valid ==> r.checkedBlocks == |blocks|)
    && (!r.valid ==>
          var k := r.firstInvalid.value;
          && k < |blocks| && !BlockOk(sha, blocks, k) && r.checkedBlocks == k + 1
          && forall i :: 0 <= i < k ==> BlockOk(sha, blocks, i))
  }

  /** verify_chain: stops at the least position whose hash or linkage is wrong. */
  method VerifyChain(sha: Sha, blocks: seq<Block>) returns (r: VerifyResult)
    ensures Reports(sha, blocks, r)
  {
    r := VerifyResult(true, |blocks|, 0, None);
    for i := 0 to |blocks|
      invariant r == VerifyResult(true, |blocks|, i, None)
      invariant forall j :: 0 <= j < i ==> BlockOk(sha, blocks, j)
    {
      var b := blocks[i];
      var expectedPrev := if i == 0 then ZERO_HASH else blocks[i - 1].hash;
      var recomputed := ComputeHash(sha, b.index, b.timestamp, b.event, b.prevHash);
      r := r.(checkedBlocks := r.checkedBlocks + 1);
      if b.prevHash != expectedPrev || recomputed != b.hash {
        assert !BlockOk(sha, blocks, i);
        r := r.(valid := false, firstInvalid := Some(i));
        return;
      }
    }
  }

  // ----- growth -----------------------------------------------------------------------------

  /** The writer thread's build_next: the index is the length of the chain. */
  function BuildNext(sha: Sha, chain: seq<Block>, event: Event, timestamp: string): Block
    requires chain != []
  {
    MakeBlock(sha, Wrap(|chain|), timestamp, event, Last(chain).hash)
  }

  /** Chain::append's block: the index is one more than the last block's. */
  function AppendBlock(sha: Sha, chain: seq<Block>, event: Event, timestamp: string): Block
    requires chain != []
  {
    MakeBlock(sha, Wrap(Last(chain).index + 1), timestamp, event, Last(chain).hash)
  }

  ghost predicate IndexIsPosition(chain: seq<Block>) {
    forall i :: 0 <= i < |chain| ==> chain[i].index == Wrap(i)
  }

  /** A chain that verifies and numbers its blocks from zero. */
  ghost predicate Sound(sha: Sha, chain: seq<Block>) {
    chain != [] && Verifies(sha, chain) && IndexIsPosition(chain)
  }

  /** The two ways of building the next block agree exactly when the last index fits the length,
      which a loaded file need not guarantee. */
  lemma BuildersAgree(sha: Sha, chain: seq<Block>, event: Event, timestamp: string)
    requires chain != []
    ensures BuildNext(sha, chain, event, timestamp) == AppendBlock(sha, chain, event, timestamp)
        <==> Wrap(|chain|) == Wrap(Last(chain).index + 1)
  {
    hide Preimage;
    if BuildNext(sha, chain, event, timestamp) == AppendBlock(sha, chain, event, timestamp) {
      assert BuildNext(sha, chain, event, timestamp).index == Wrap(|chain|);
    }
  }

  lemma WrapStep(i: nat)
    ensures Wrap(Wrap(i) + 1) == Wrap(i + 1)
  {
  }

  /** Either way of growing keeps a sound chain sound. */
  lemma GrowthKeepsSound(sha: Sha, chain: seq<Block>, event: Event, timestamp: string)
    requires Sound(sha, chain)
    ensures BuildNext(sha, chain, event, timestamp) == AppendBlock(sha, chain, event, timestamp)
    ensures Sound(sha, chain + [BuildNext(sha, chain, event, timestamp)])
  {
    hide ComputeHash;
    var chain' := chain + [BuildNext(sha, chain, event, timestamp)];
    WrapStep(|chain| - 1);
    forall i | 0 <= i < |chain'| ensures BlockOk(sha, chain', i) {
      if i < |chain| { assert BlockOk(sha, chain, i); }
    }
  }

  lemma GenesisIsSound(sha: Sha, timestamp: string)
    ensures Sound(sha, [Genesis(sha, timestamp)])
  {
    hide ComputeHash;
  }

  datatype Stamped = Stamped(event: Event, timestamp: string)

  function StampOf(b: Block): Stamped {
    Stamped(b.event, b.timestamp)
  }

  lemma BuiltBlockHasEvent(sha: Sha, chain: seq<Block>, event: Event, timestamp: string)
    requires chain != []
    ensures StampOf(BuildNext(sha, chain, event, timestamp)) == Stamped(event, timestamp)
  {
    hide ComputeHash;
  }

  /** Appending a list of events with Chain::append alone. */
  ghost function AppendAll(sha: Sha, chain: seq<Block>, events: seq<Stamped>): seq<Block>
    requires chain != []
    decreases |events|
  {
    if events == [] then chain
    else
      var b := AppendBlock(sha, chain, events[0].event, events[0].timestamp);
      AppendAll(sha, chain + [b], events[1..])
  }

  ghost function Stamps(blocks: seq<Block>): seq<Stamped> {
    seq(|blocks|, i requires 0 <= i < |blocks| => StampOf(blocks[i]))
  }

  /** A chain grown from base by a writer: every later block links, rehashes and is numbered by its
      position, whatever the base is like. */
  ghost predicate Grown(sha: Sha, base: seq<Block>, chain: seq<Block>) {
    && base != [] && base <= chain
    && forall i :: |base| <= i < |chain| ==> BlockOk(sha, chain, i) && chain[i].index == Wrap(i)
  }

  lemma NextBlockKeepsGrown(sha: Sha, base: seq<Block>, chain: seq<Block>, event: Event, timestamp: string)
    requires Grown(sha, base, chain)
    ensures Grown(sha, base, chain + [BuildNext(sha, chain, event, timestamp)])
  {
    hide ComputeHash;
    var chain' := chain + [BuildNext(sha, chain, event, timestamp)];
    forall i | |base| <= i < |chain'| ensures BlockOk(sha, chain', i) && chain'[i].index == Wrap(i) {
      if i < |chain| { assert BlockOk(sha, chain, i); }
    }
  }

  /** What a writer appends never changes the verdict on what was there: the grown chain verifies, and
      is numbered by position, exactly if its base is. */
  lemma GrowthKeepsVerdict(sha: Sha, base: seq<Block>, chain: seq<Block>)
    requires Grown(sha, base, chain)
    ensures Verifies(sha, chain) <==> Verifies(sha, base)
    ensures IndexIsPosition(chain) <==> IndexIsPosition(base)
    ensures Sound(sha, chain) <==> Sound(sha, base)
  {
    hide HashOf;
    forall i | 0 <= i < |base| ensures BlockOk(sha, chain, i) <==> BlockOk(sha, base, i) {
      assert base[i] == chain[i] && (i > 0 ==> base[i - 1] == chain[i - 1]);
    }
    if Verifies(sha, base) {
      forall i | 0 <= i < |chain| ensures BlockOk(sha, chain, i) {
        if i < |base| { assert BlockOk(sha, base, i); }
      }
    }
    assert IndexIsPosition(chain) ==> forall i :: 0 <= i < |base| ==> base[i].index == chain[i].index;
    assert IndexIsPosition(base) ==> forall i :: 0 <= i < |base| ==> chain[i].index == base[i].index;
  }

  lemma LaterBlockIsAppended(sha: Sha, base: seq<Block>, chain: seq<Block>, n: nat)
    requires Grown(sha, base, chain) && |base| <= n < |chain| && Wrap(|base|) == Wrap(Last(base).index + 1)
    ensures chain[n] == AppendBlock(sha, chain[..n], chain[n].event, chain[n].timestamp)
  {
    hide Preimage, Grown, Wrap;
    LaterBlockIsOk(sha, base, chain, n);
    assert Last(chain[..n]) == chain[n - 1];
    IndexFollows(sha, base, chain, n);
  }

  lemma LaterBlockIsOk(sha: Sha, base: seq<Block>, chain: seq<Block>, n: nat)
    requires Grown(sha, base, chain) && |base| <= n < |chain|
    ensures n > 0 && BlockOk(sha, chain, n)
  {
    hide BlockOk;
  }

  lemma IndexFollows(sha: Sha, base: seq<Block>, chain: seq<Block>, n: nat)
    requires Grown(sha, base, chain) && |base| <= n < |chain| && Wrap(|base|) == Wrap(Last(base).index + 1)
    ensures chain[n].index == Wrap(chain[n - 1].index + 1)
  {
    hide BlockOk;
    if n > |base| {
      assert chain[n - 1].index == Wrap(n - 1);
      WrapStep(n - 1);
    } else {
      assert chain[n - 1] == Last(base);
    }
  }

  lemma {:induction false} GrownIsAppended(sha: Sha, base: seq<Block>, more: seq<Block>)
    requires Grown(sha, base, base + more) && Wrap(|base|) == Wrap(Last(base).index + 1)
    ensures base + more == AppendAll(sha, base, Stamps(more))
    decreases |more|
  {
    hide Grown, AppendBlock;
    if more == [] {
      assert base + more == base;
    } else {
      var chain, b, n := base + more, more[0], |base|;
      assert chain[n] == b && chain[..n] == base;
      LaterBlockIsAppended(sha, base, chain, n);
      assert chain == (base + [b]) + more[1..];
      LongerBase(sha, base, chain, n + 1);
      GrownIsAppended(sha, base + [b], more[1..]);
      assert Stamps(more)[1..] == Stamps(more[1..]);
    }
  }

  lemma LongerBase(sha: Sha, base: seq<Block>, chain: seq<Block>, n: nat)
    requires Grown(sha, base, chain) && |base| < n <= |chain|
    ensures Grown(sha, chain[..n], chain) && Wrap(n) == Wrap(Last(chain[..n]).index + 1)
  {
    hide BlockOk;
    WrapStep(n - 1);
  }

  lemma AppendedStarts(sha: Sha, chain: seq<Block>, events: seq<Stamped>)
    requires chain != [] && events != []
    ensures |AppendAll(sha, chain, events)| > |chain|
    ensures AppendAll(sha, chain, events)[|chain|] == AppendBlock(sha, chain, events[0].event, events[0].timestamp)
  {
    hide AppendBlock;
    var b := AppendBlock(sha, chain, events[0].event, events[0].timestamp);
    AppendedKeeps(sha, chain + [b], events[1..]);
    assert (chain + [b])[|chain|] == b;
  }

  lemma {:induction false} AppendedKeeps(sha: Sha, chain: seq<Block>, events: seq<Stamped>)
    requires chain != []
    ensures chain <= AppendAll(sha, chain, events)
    decreases |events|
  {
    hide AppendBlock;
    if events != [] {
      AppendedKeeps(sha, chain + [AppendBlock(sha, chain, events[0].event, events[0].timestamp)], events[1..]);
    }
  }

  /** A grown chain is its base extended by Chain::append, content and order of the later events
      determining every byte of the later blocks, exactly if nothing was appended or the base's last
      index fits its length. */
  lemma GrownChainIsAppended(sha: Sha, base: seq<Block>, chain: seq<Block>)
    requires Grown(sha, base, chain)
    ensures chain == AppendAll(sha, base, Stamps(chain[|base|..]))
      <==> (chain == base || Wrap(|base|) == Wrap(Last(base).index + 1))
  {
    hide ComputeHash, AppendAll;
    var more := chain[|base|..];
    assert chain == base + more;
    if Wrap(|base|) == Wrap(Last(base).index + 1) {
      GrownIsAppended(sha, base, more);
    } else if chain == base {
      NothingAppended(sha, base, Stamps(more));
    } else {
      AppendedStarts(sha, base, Stamps(more));
      assert chain[|base|].index == Wrap(|base|);
    }
  }

  lemma NothingAppended(sha: Sha, base: seq<Block>, events: seq<Stamped>)
    requires base != [] && events == []
    ensures AppendAll(sha, base, events) == base
  {
  }

  // ----- what verification rules out ------------------------------------------------------------

  /** Metadata of every block is a JSON value, as it is for any block that was parsed or posted. */
  ghost predicate Readable(blocks: seq<Block>) {
    forall i :: 0 <= i < |blocks| ==> WellFormedEvent(blocks[i].event)
  }

  lemma PrevHashLength(sha: Sha, blocks: seq<Block>, i: nat)
    requires HexDigest(sha) && i < |blocks| && BlockOk(sha, blocks, i) && (i > 0 ==> BlockOk(sha, blocks, i - 1))
    ensures |blocks[i].prevHash| == 64
  {
  }

  /** Blocks that pass their checks and carry one hash are equal, or SHA-256 has collided on two
      byte strings that are exhibited. */
  lemma SameHashSameBlock(sha: Sha, b: Block, b': Block) returns (x: string, y: string)
    requires WellFormedEvent(b.event) && WellFormedEvent(b'.event) && |b.prevHash| == |b'.prevHash|
    requires HashOf(sha, b) == b.hash && HashOf(sha, b') == b'.hash && b.hash == b'.hash
    ensures b == b' || Collision(sha, x, y)
  {
    x := Preimage(b.index, b.timestamp, b.event, b.prevHash);
    y := Preimage(b'.index, b'.timestamp, b'.event, b'.prevHash);
    if x == y {
      PreimageInjectiveAnyTimestamp(b.index, b.timestamp, b.event, b.prevHash, b'.index, b'.timestamp, b'.event,
          b'.prevHash);
    }
  }

  lemma VerifiesPrefix(sha: Sha, blocks: seq<Block>, n: nat)
    requires Verifies(sha, blocks) && n <= |blocks|
    ensures Verifies(sha, blocks[..n])
  {
    forall i | 0 <= i < n ensures BlockOk(sha, blocks[..n], i) {
      assert BlockOk(sha, blocks, i);
    }
  }

  lemma LastBlocksAgree(sha: Sha, a: seq<Block>, b: seq<Block>) returns (x: string, y: string)
    requires HexDigest(sha) && Readable(a) && Readable(b) && a != [] && b != []
    requires Verifies(sha, a) && Verifies(sha, b) && Last(a).hash == Last(b).hash && |a| == |b|
    ensures Last(a) == Last(b) || Collision(sha, x, y)
  {
    hide HashOf, Collision;
    var n := |a| - 1;
    assert BlockOk(sha, a, n) && BlockOk(sha, b, n);
    assert n > 0 ==> BlockOk(sha, a, n - 1) && BlockOk(sha, b, n - 1);
    PrevHashLength(sha, a, n);
    PrevHashLength(sha, b, n);
    x, y := SameHashSameBlock(sha, a[n], b[n]);
  }

  lemma LinkedToLast(sha: Sha, blocks: seq<Block>)
    requires Verifies(sha, blocks) && |blocks| > 1
    ensures Last(blocks).prevHash == blocks[|blocks| - 2].hash
  {
    hide HashOf;
    assert BlockOk(sha, blocks, |blocks| - 1);
  }

  /** Tamper evidence: two verifying chains of one length that end in the same hash are equal block
      for block, or a SHA-256 collision is exhibited. */
  lemma {:induction false} TamperEvidence(sha: Sha, a: seq<Block>, b: seq<Block>) returns (x: string, y: string)
    requires HexDigest(sha) && Readable(a) && Readable(b)
    requires Verifies(sha, a) && Verifies(sha, b) && |a| == |b| > 0 && Last(a).hash == Last(b).hash
    ensures a == b || Collision(sha, x, y)
    decreases |a|
  {
    hide HashOf, Collision, BlockOk, Verifies;
    var n := |a| - 1;
    x, y := LastBlocksAgree(sha, a, b);
    if a[n] == b[n] {
      if n > 0 {
        LinkedToLast(sha, a);
        LinkedToLast(sha, b);
        VerifiesPrefix(sha, a, n);
        VerifiesPrefix(sha, b, n);
        x, y := TamperEvidence(sha, a[..n], b[..n]);
      }
      assert a == a[..n] + [a[n]] && b == b[..n] + [b[n]];
    }
  }

  /** If an edited block passes both its own check and its successor's, SHA-256 has collided. */
  lemma UndetectedEditCollides(sha: Sha, blocks: seq<Block>, k: nat, b: Block) returns (x: string, y: string)
    requires HexDigest(sha) && k + 1 < |blocks| && WellFormedEvent(blocks[k].event) && WellFormedEvent(b.event)
    requires Verifies(sha, blocks) && b != blocks[k]
    requires BlockOk(sha, blocks[k := b], k) && BlockOk(sha, blocks[k := b], k + 1)
    ensures Collision(sha, x, y)
  {
    hide Preimage, ComputeHash;
    assert BlockOk(sha, blocks, k) && BlockOk(sha, blocks, k + 1);
    assert k > 0 ==> BlockOk(sha, blocks, k - 1);
    PrevHashLength(sha, blocks, k);
    assert b.prevHash == blocks[k].prevHash && b.hash == blocks[k].hash;
    x, y := SameHashSameBlock(sha, blocks[k], b);
  }

  /** An edit is localised: replacing a block other than the last by any different block is reported
      at its own position or the next, or a SHA-256 collision is exhibited. */
  lemma EditIsLocalised(sha: Sha, blocks: seq<Block>, k: nat, b: Block, r: VerifyResult) returns (x: string, y: string)
    requires HexDigest(sha) && k + 1 < |blocks| && Readable(blocks) && WellFormedEvent(b.event)
    requires Verifies(sha, blocks) && b != blocks[k]
    requires Reports(sha, blocks[k := b], r)
    ensures (!r.valid && (r.firstInvalid == Some(k) || r.firstInvalid == Some(k + 1))) || Collision(sha, x, y)
  {
    hide HashOf, Collision;
    var edited := blocks[k := b];
    forall i | 0 <= i < k ensures BlockOk(sha, edited, i) {
      assert BlockOk(sha, blocks, i);
    }
    x, y := "", "";
    if BlockOk(sha, edited, k) && BlockOk(sha, edited, k + 1) {
      x, y := UndetectedEditCollides(sha, blocks, k, b);
    }
  }

  /** What verification cannot see. It accepts every truncation, it accepts a different last block
      exactly when that block is consistent with itself and its predecessor, and it never looks at
      whether indices match positions. */
  lemma VerificationBlindSpots(sha: Sha, blocks: seq<Block>, n: nat, b: Block)
    requires Verifies(sha, blocks) && n <= |blocks|
    ensures Verifies(sha, blocks[..n])
    ensures blocks != [] ==>
      (Verifies(sha, blocks[|blocks| - 1 := b]) <==> BlockOk(sha, blocks[|blocks| - 1 := b], |blocks| - 1))
  {
    hide HashOf;
    VerifiesPrefix(sha, blocks, n);
    if blocks != [] {
      var edited := blocks[|blocks| - 1 := b];
      forall i | 0 <= i < |blocks| - 1 ensures BlockOk(sha, edited, i) {
        assert BlockOk(sha, blocks, i);
      }
    }
  }

  /** A one-block chain with a wrong index verifies, and after it the two builders disagree. */
  lemma WrongIndexVerifies(sha: Sha, event: Event, timestamp: string)
    ensures var chain := [MakeBlock(sha, 7, timestamp, GENESIS_EVENT, ZERO_HASH)];
      && Verifies(sha, chain) && !IndexIsPosition(chain)
      && BuildNext(sha, chain, event, timestamp).index == 1
      && AppendBlock(sha, chain, event, timestamp).index == 8
  {
    hide ComputeHash;
    var chain := [MakeBlock(sha, 7, timestamp, GENESIS_EVENT, ZERO_HASH)];
    assert chain[0].index != Wrap(0);
  }

  /** The chain object. */
  class Chain {
    var blocks: seq<Block>

    ghost predicate Valid()
      reads this
    {
      blocks != []
    }

    /** A fresh chain holds just the genesis block. */
    constructor (sha: Sha, timestamp: string)
      ensures Valid() && blocks == [Genesis(sha, timestamp)] && Sound(sha, blocks)
    {
      blocks := [Genesis(sha, timestamp)];
      new;
      GenesisIsSound(sha, timestamp);
    }

    /** Blocks from disk are kept verbatim. */
    constructor Load(stored: seq<Block>)
      requires stored != []
      ensures Valid() && blocks == stored
    {
      blocks := stored;
    }

    method Append(sha: Sha, event: Event, timestamp: string) returns (b: Block)
      requires Valid()
      modifies this
      ensures Valid() && b == AppendBlock(sha, old(blocks), event, timestamp) && blocks == old(blocks) + [b]
      ensures old(Sound(sha, blocks)) ==> Sound(sha, blocks)
    {
      hide ComputeHash;
      ghost var before := blocks;
      var nextIndex := Wrap(Last(blocks).index + 1);
      var prevHash := Last(blocks).hash;
      b := MakeBlock(sha, nextIndex, timestamp, event, prevHash);
      blocks := blocks + [b];
      if Sound(sha, before) {
        GrowthKeepsSound(sha, before, event, timestamp);
      }
    }

    /** Stored verbatim: no recompute. */
    method PushPersisted(b: Block) returns (r: Block)
      requires Valid()
      modifies this
      ensures Valid() && r == b && blocks == old(blocks) + [b]
    {
      blocks := blocks + [b];
      r := Last(blocks);
    }

    method Verify(sha: Sha) returns (r: VerifyResult)
      ensures Reports(sha, blocks, r)
    {
      r := VerifyChain(sha, blocks);
    }
  }
}
