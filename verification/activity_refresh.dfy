/** What the cache is worth after refreshes: one after another, and interleaved in any way. */
module ActivityRefresh {
  import opened Records
  import opened Blocks
  import opened Activity
  import opened GetBlocks

  // ----- folding ------------------------------------------------------------------------------------

  lemma {:induction false} ConsumeConcat(parse: Parse, c: Cache, a: seq<Block>, b: seq<Block>, cap: nat)
    ensures Consume(parse, c, a + b, cap) == Consume(parse, Consume(parse, c, a, cap), b, cap)
    decreases |b|
  {
    hide ConsumeBlock;
    if b == [] {
      assert a + b == a;
    } else {
      var front := b[..|b| - 1];
      assert (a + b)[..|a + b| - 1] == a + front && Last(a + b) == Last(b);
      ConsumeConcat(parse, c, a, front, cap);
    }
  }

  /** Two caches that agree on everything but the histories. */
  ghost predicate Same(c: Cache, c': Cache) {
    c.lastSeen == c'.lastSeen && c.latest == c'.latest && c.camera == c'.camera
  }

  lemma {:induction false} SameStaysSame(parse: Parse, c: Cache, c': Cache, blocks: seq<Block>, cap: nat)
    requires Same(c, c')
    ensures Same(Consume(parse, c, blocks, cap), Consume(parse, c', blocks, cap))
  {
    hide SeenStep, LatestStep, CameraStep, HistoryStep;
    if blocks != [] {
      SameStaysSame(parse, c, c', blocks[..|blocks| - 1], cap);
    }
  }

  /** Re-reading the last block changes neither last seen nor the latest readings nor the cameras. */
  lemma ReReadIsHarmless(parse: Parse, c: Cache, b: Block, cap: nat)
    ensures Same(ConsumeBlock(parse, ConsumeBlock(parse, c, b, cap), b, cap), ConsumeBlock(parse, c, b, cap))
  {
    hide ReportOf, MakeReading, AnnouncedUrl, HistoryStep, Instant;
    var c1 := ConsumeBlock(parse, c, b, cap);
    SeenIdempotent(parse, c.lastSeen, b);
    LatestIdempotent(parse, c.latest, b);
    CameraIdempotent(parse, c.camera, b);
  }

  lemma SeenIdempotent(parse: Parse, m: map<string, int>, b: Block)
    ensures SeenStep(parse, SeenStep(parse, m, b), b) == SeenStep(parse, m, b)
  {
    hide Instant;
  }

  lemma LatestIdempotent(parse: Parse, m: map<Key, Reading>, b: Block)
    ensures LatestStep(parse, LatestStep(parse, m, b), b) == LatestStep(parse, m, b)
  {
    hide ReadingOf;
    match ReadingOf(parse, b)
    case Some((key, r)) => assert m[key := r][key := r] == m[key := r];
    case None =>
  }

  lemma CameraIdempotent(parse: Parse, m: map<Key, CameraState>, b: Block)
    ensures CameraStep(parse, CameraStep(parse, m, b), b) == CameraStep(parse, m, b)
  {
    hide ReportOf, AnnouncedUrl;
    var m' := CameraStep(parse, m, b);
    match ReportOf(parse, b, "CAMERA_EVENT")
    case None =>
    case Some((key, at)) => if Accepts(CameraAt(m, key), at) { assert m'[key := m'[key]] == m'; }
  }

  /** The guard of _consume_reading lets this block through, as reading r of this sensor. */
  ghost predicate LetsIn(parse: Parse, c: Cache, b: Block, key: Key, r: Reading) {
    ReadingOf(parse, b) == Some((key, r)) && Accepts(LatestAt(c.latest, key), r.at)
  }

  /** The history is the exception. Whatever it holds and however full it is: a block that is let in is
      appended once by the first read and once more by every further one, and any other block leaves
      the sensor's history alone. */
  lemma ReReadDuplicatesHistory(parse: Parse, c: Cache, b: Block, cap: nat, key: Key)
    ensures
      var once := ConsumeBlock(parse, c, b, cap);
      var twice := ConsumeBlock(parse, once, b, cap);
      var h := HistoryAt(c.history, key);
      && (forall r :: LetsIn(parse, c, b, key, r) ==>
            && HistoryAt(once.history, key) == Tail(h + [r], cap)
            && HistoryAt(twice.history, key) == Tail(h + [r, r], cap))
      && ((forall r :: !LetsIn(parse, c, b, key, r)) ==>
            HistoryAt(once.history, key) == h && HistoryAt(twice.history, key) == h)
  {
    hide ReportOf, MakeReading, CameraStep, SeenStep, ReadingOf;
    match ReadingOf(parse, b)
    case None =>
    case Some((k, r)) =>
      var h := HistoryAt(c.history, k);
      assert LetsIn(parse, c, b, k, r) <==> Accepts(LatestAt(c.latest, k), r.at);
      TailOneMore(h + [r], r, cap);
      assert h + [r] + [r] == h + [r, r];
  }

  ghost function Copies(r: Reading, n: nat): seq<Reading> {
    seq(n, i requires 0 <= i < n => r)
  }

  /** Exactly when the second read changes anything: the block is let in, and what one read leaves is
      not already all copies of its reading. On a full history the change is a loss, because the
      oldest reading makes way for the copy. */
  lemma ReReadCostsAReading(parse: Parse, c: Cache, b: Block, cap: nat, key: Key)
    requires |HistoryAt(c.history, key)| <= cap
    ensures
      var once := HistoryAt(ConsumeBlock(parse, c, b, cap).history, key);
      var twice := HistoryAt(ConsumeBlock(parse, ConsumeBlock(parse, c, b, cap), b, cap).history, key);
      && (twice != once <==>
            exists r :: LetsIn(parse, c, b, key, r) && Tail(HistoryAt(c.history, key) + [r], cap) != Copies(r, cap))
      && (twice != once && |once| == cap ==> exists r :: LetsIn(parse, c, b, key, r) && twice == once[1..] + [r])
  {
    hide LetsIn, ConsumeBlock, HistoryAt;
    ReReadDuplicatesHistory(parse, c, b, cap, key);
    var h := HistoryAt(c.history, key);
    if r :| LetsIn(parse, c, b, key, r) {
      OnlyOneIsLetIn(parse, c, b, key, r);
      ShiftIn(h, r, cap);
    }
  }

  lemma OnlyOneIsLetIn(parse: Parse, c: Cache, b: Block, key: Key, r: Reading)
    requires LetsIn(parse, c, b, key, r)
    ensures forall r' :: LetsIn(parse, c, b, key, r') ==> r' == r
  {
  }

  /** Shifting one more r into a list that ends in r changes it unless it is all r. */
  lemma ShiftIn(h: seq<Reading>, r: Reading, cap: nat)
    requires |h| <= cap
    ensures Tail(h + [r, r], cap) == Tail(h + [r], cap) <==> Tail(h + [r], cap) == Copies(r, cap)
    ensures |Tail(h + [r], cap)| == cap > 0 ==> Tail(h + [r, r], cap) == Tail(h + [r], cap)[1..] + [r]
  {
    var once, twice := Tail(h + [r], cap), Tail(h + [r, r], cap);
    if |once| == cap > 0 {
      assert twice == once[1..] + [r];
      if twice == once {
        AllAlike(once, r);
      }
      if once == Copies(r, cap) {
        assert twice == once;
      }
    } else if cap == 0 {
      assert once == twice == Copies(r, cap);
    } else {
      assert |twice| == |once| + 1;
    }
  }

  lemma {:induction false} AllAlike(s: seq<Reading>, r: Reading)
    requires s != [] && s == s[1..] + [r]
    ensures s == Copies(r, |s|)
  {
    forall i | 0 <= i < |s| ensures s[i] == r {
      AlikeFrom(s, r, i);
    }
  }

  lemma {:induction false} AlikeFrom(s: seq<Reading>, r: Reading, i: nat)
    requires i < |s| && s == s[1..] + [r]
    ensures s[i] == r
    decreases |s| - i
  {
    assert s[i] == (s[1..] + [r])[i];
    if i + 1 < |s| { AlikeFrom(s, r, i + 1); }
  }

  // ----- one refresh after another ---------------------------------------------------------------------

  datatype Poller = Poller(chain: seq<Block>, cache: Cache, nextIndex: nat)

  datatype Occurrence = Grow(more: seq<Block>) | Poll | PollFails

  ghost predicate CanHappen(p: Poller, e: Occurrence) {
    e.Grow? ==> |p.chain + e.more| < U64
  }

  ghost function Happen(parse: Parse, p: Poller, e: Occurrence, cap: nat): Poller {
    match e
    case Grow(more) => p.(chain := p.chain + more)
    case PollFails => p
    case Poll =>
      match ServeRange(p.chain, Some(Decimal(RequestFrom(p.nextIndex))), None)
      case Blocks(blocks, Some(n)) => p.(cache := Consume(parse, p.cache, blocks, cap), nextIndex := n)
      case BadRequest => p.(nextIndex := 0)
      case _ => p
  }

  ghost predicate PollerRun(parse: Parse, ps: seq<Poller>, es: seq<Occurrence>, cap: nat) {
    && |ps| == |es| + 1
    && forall i :: 0 <= i < |es| ==> CanHappen(ps[i], es[i]) && ps[i + 1] == Happen(parse, ps[i], es[i], cap)
  }

  /** The cache holds what a single scan of everything before the cursor gives. */
  ghost predicate UpToCursor(parse: Parse, p: Poller, cap: nat) {
    && 0 < |p.chain| < U64 && p.nextIndex <= |p.chain|
    && Same(p.cache, Scan(parse, p.chain[..p.nextIndex], cap))
  }

  lemma PollKeepsUp(parse: Parse, p: Poller, cap: nat)
    requires UpToCursor(parse, p, cap)
    ensures UpToCursor(parse, Happen(parse, p, Poll, cap), cap) && Happen(parse, p, Poll, cap).nextIndex == |p.chain|
  {
    hide ConsumeBlock, ServeRange, Decimal;
    var n, from, chain := p.nextIndex, RequestFrom(p.nextIndex), p.chain;
    RefreshIsNeverRefused(chain, n);
    var scanned := Scan(parse, chain[..n], cap);
    SameStaysSame(parse, p.cache, scanned, chain[from..], cap);
    if n == 0 {
      assert chain[from..] == chain && chain[..|chain|] == chain;
    } else {
      var b, before := chain[n - 1], Scan(parse, chain[..n - 1], cap);
      assert chain[..n][..n - 1] == chain[..n - 1] && Last(chain[..n]) == b;
      assert scanned == ConsumeBlock(parse, before, b, cap);
      ReReadIsHarmless(parse, before, b, cap);
      ConsumeOne(parse, scanned, b, cap);
      assert chain[from..] == [b] + chain[n..];
      ConsumeConcat(parse, scanned, [b], chain[n..], cap);
      SameStaysSame(parse, ConsumeBlock(parse, scanned, b, cap), scanned, chain[n..], cap);
      assert chain[..|chain|] == chain[..n] + chain[n..];
      ConsumeConcat(parse, EMPTY_CACHE, chain[..n], chain[n..], cap);
    }
  }

  lemma ConsumeOne(parse: Parse, c: Cache, b: Block, cap: nat)
    ensures Consume(parse, c, [b], cap) == ConsumeBlock(parse, c, b, cap)
  {
    hide ConsumeBlock;
    assert [b][..0] == [];
  }

  /** Sequential refreshes, with any mix of growth and failures in between and the last block re-read
      every time, keep last seen, latest readings and cameras equal to a single scan. */
  lemma {:induction false} SequentialRefreshesAreAScan(parse: Parse, ps: seq<Poller>, es: seq<Occurrence>, cap: nat)
    requires PollerRun(parse, ps, es, cap)
    requires 0 < |ps[0].chain| < U64 && ps[0].cache == EMPTY_CACHE && ps[0].nextIndex == 0
    ensures UpToCursor(parse, Last(ps), cap)
    decreases |es|
  {
    hide ConsumeBlock, ServeRange, Decimal, Happen;
    if es == [] {
      assert ps[0].chain[..0] == [];
    } else {
      var n := |es| - 1;
      SequentialRefreshesAreAScan(parse, ps[..n + 1], es[..n], cap);
      if es[n].Poll? {
        PollKeepsUp(parse, ps[n], cap);
      } else {
        OtherEventsKeepUp(parse, ps[n], es[n], cap);
      }
    }
  }

  lemma OtherEventsKeepUp(parse: Parse, p: Poller, e: Occurrence, cap: nat)
    requires UpToCursor(parse, p, cap) && CanHappen(p, e) && !e.Poll?
    ensures UpToCursor(parse, Happen(parse, p, e, cap), cap)
  {
    hide Consume;
    if e.Grow? {
      assert (p.chain + e.more)[..p.nextIndex] == p.chain[..p.nextIndex];
    }
  }

  // ----- polling an idle ledger ----------------------------------------------------------------------

  ghost function AfterPolls(parse: Parse, p: Poller, n: nat, cap: nat): Poller {
    if n == 0 then p else Happen(parse, AfterPolls(parse, p, n - 1, cap), Poll, cap)
  }

  /** A poll that finds nothing new consumes the last block once more. */
  lemma IdlePoll(parse: Parse, p: Poller, cap: nat)
    requires 0 < |p.chain| < U64 && p.nextIndex == |p.chain|
    ensures Happen(parse, p, Poll, cap) == p.(cache := ConsumeBlock(parse, p.cache, Last(p.chain), cap))
  {
    hide ConsumeBlock, ServeRange, Decimal;
    RefreshIsNeverRefused(p.chain, p.nextIndex);
    assert p.chain[|p.chain| - 1..] == [Last(p.chain)];
    ConsumeOne(parse, p.cache, Last(p.chain), cap);
  }

  lemma StaysLetIn(parse: Parse, c: Cache, b: Block, cap: nat, key: Key, r: Reading)
    requires LetsIn(parse, c, b, key, r)
    ensures LetsIn(parse, ConsumeBlock(parse, c, b, cap), b, key, r)
  {
    hide ReadingOf, SeenStep, CameraStep, HistoryStep;
  }

  /** Every poll of a ledger that does not grow appends another copy of the last block's reading, if it
      is let in at all; after as many polls as the history holds, every other reading of that sensor
      has been evicted. */
  lemma {:induction false} IdlePollsFillHistory(parse: Parse, p: Poller, n: nat, cap: nat, key: Key, r: Reading)
    requires 0 < |p.chain| < U64 && p.nextIndex == |p.chain|
    requires LetsIn(parse, p.cache, Last(p.chain), key, r) && n > 0
    ensures
      var h := HistoryAt(AfterPolls(parse, p, n, cap).cache.history, key);
      && h == Tail(HistoryAt(p.cache.history, key) + Copies(r, n), cap)
      && (n >= cap ==> h == Copies(r, cap))
    ensures AfterPolls(parse, p, n, cap).chain == p.chain && AfterPolls(parse, p, n, cap).nextIndex == p.nextIndex
    ensures LetsIn(parse, AfterPolls(parse, p, n, cap).cache, Last(p.chain), key, r)
    decreases n
  {
    hide ConsumeBlock, Happen, LetsIn, HistoryAt, Tail, Copies;
    var b, h := Last(p.chain), HistoryAt(p.cache.history, key);
    var before := AfterPolls(parse, p, n - 1, cap);
    if n > 1 {
      IdlePollsFillHistory(parse, p, n - 1, cap, key, r);
    }
    IdlePoll(parse, before, cap);
    ReReadDuplicatesHistory(parse, before.cache, b, cap, key);
    StaysLetIn(parse, before.cache, b, cap, key, r);
    OneMoreCopy(h, r, n, cap);
  }

  lemma OneMoreCopy(h: seq<Reading>, r: Reading, n: nat, cap: nat)
    requires n > 0
    ensures Tail((if n == 1 then h else Tail(h + Copies(r, n - 1), cap)) + [r], cap) == Tail(h + Copies(r, n), cap)
    ensures n >= cap ==> Tail(h + Copies(r, n), cap) == Copies(r, cap)
  {
    assert h + Copies(r, n - 1) + [r] == h + Copies(r, n);
    if n == 1 {
      assert h + [r] == h + Copies(r, 1);
    } else {
      TailOneMore(h + Copies(r, n - 1), r, cap);
    }
  }

  // ----- what a scan means -------------------------------------------------------------------------------

  ghost predicate Reports(parse: Parse, b: Block, key: Key, r: Reading) {
    ReadingOf(parse, b) == Some((key, r))
  }

  /** Every key that was reported is there, with one of its newest readings. */
  ghost predicate HoldsNewest(parse: Parse, m: map<Key, Reading>, blocks: seq<Block>) {
    && (forall key :: key in m ==> exists i :: 0 <= i < |blocks| && Reports(parse, blocks[i], key, m[key]))
    && (forall i :: 0 <= i < |blocks| && ReadingOf(parse, blocks[i]).Some? ==>
          var (key, r) := ReadingOf(parse, blocks[i]).value;
          key in m && r.at <= m[key].at)
  }

  /** Position i is the newest report of its key: nothing is newer, and nothing equally new is later. */
  ghost predicate NewestLast(parse: Parse, blocks: seq<Block>, i: nat, key: Key, r: Reading) {
    && i < |blocks| && Reports(parse, blocks[i], key, r)
    && forall j ::
         0 <= j < |blocks| && ReadingOf(parse, blocks[j]).Some? && ReadingOf(parse, blocks[j]).value.0 == key ==>
         var r' := ReadingOf(parse, blocks[j]).value.1;
         r'.at < r.at || (r'.at == r.at && j <= i)
  }

  /** After a scan, a sensor's latest reading is its newest one, the last in chain order among ties;
      and a sensor that was never reported has none. */
  lemma {:induction false} ScanLatestIsNewestLast(parse: Parse, blocks: seq<Block>, cap: nat, key: Key)
    ensures
      var latest := Scan(parse, blocks, cap).latest;
      && (key in latest ==> exists i :: NewestLast(parse, blocks, i, key, latest[key]))
      && (key !in latest ==>
            forall i :: 0 <= i < |blocks| && ReadingOf(parse, blocks[i]).Some? ==>
              ReadingOf(parse, blocks[i]).value.0 != key)
  {
    hide ReadingOf, SeenStep, CameraStep, HistoryStep;
    if blocks != [] {
      var n := |blocks| - 1;
      var front, b := blocks[..n], Last(blocks);
      ScanLatestIsNewestLast(parse, front, cap, key);
      var before, after := Scan(parse, front, cap).latest, Scan(parse, blocks, cap).latest;
      assert after == LatestStep(parse, before, b);
      if key in after {
        if key in before && after[key] == before[key] &&
            !(ReadingOf(parse, b).Some? && ReadingOf(parse, b).value == (key, after[key])) {
          var i: nat :| NewestLast(parse, front, i, key, before[key]);
          assert NewestLast(parse, blocks, i, key, after[key]);
        } else {
          if key in before {
            var i: nat :| NewestLast(parse, front, i, key, before[key]);
          }
          assert NewestLast(parse, blocks, n, key, after[key]);
        }
      }
    }
  }

  /** Position i is an accepted report of a camera: none before it is newer. */
  ghost predicate CameraAccepted(parse: Parse, blocks: seq<Block>, i: nat, key: Key, at: int) {
    && i < |blocks| && ReportOf(parse, blocks[i], "CAMERA_EVENT") == Some((key, at))
    && forall j ::
         (0 <= j < i && ReportOf(parse, blocks[j], "CAMERA_EVENT").Some?
          && ReportOf(parse, blocks[j], "CAMERA_EVENT").value.0 == key) ==>
         ReportOf(parse, blocks[j], "CAMERA_EVENT").value.1 <= at
  }

  /** What a camera report says happened. */
  ghost function EventField(b: Block): Json {
    if b.event.metadata.Obj? then Field(b.event.metadata.members, "event") else Null
  }

  /** Position i is the last accepted report. */
  ghost predicate CameraCurrent(parse: Parse, blocks: seq<Block>, i: nat, key: Key, at: int) {
    && CameraAccepted(parse, blocks, i, key, at)
    && forall j ::
         (i < j < |blocks| && ReportOf(parse, blocks[j], "CAMERA_EVENT").Some?
          && ReportOf(parse, blocks[j], "CAMERA_EVENT").value.0 == key) ==>
         ReportOf(parse, blocks[j], "CAMERA_EVENT").value.1 < at
  }

  /** The state is what the last accepted report, at position i, says. */
  ghost predicate TellsOf(parse: Parse, blocks: seq<Block>, i: nat, key: Key, state: CameraState) {
    CameraCurrent(parse, blocks, i, key, state.at) && state.event == EventField(blocks[i])
  }

  /** Position j holds the last announcement among the accepted reports. */
  ghost predicate LastAnnouncement(parse: Parse, blocks: seq<Block>, j: nat, key: Key, url: string) {
    && j < |blocks| && SaysUrl(blocks[j], url)
    && (exists at :: CameraAccepted(parse, blocks, j, key, at))
    && forall k, at, other :: j < k < |blocks| && CameraAccepted(parse, blocks, k, key, at) ==>
         !SaysUrl(blocks[k], other)
  }

  ghost predicate NeverAnnounced(parse: Parse, blocks: seq<Block>, key: Key) {
    forall k, at, url :: 0 <= k < |blocks| && CameraAccepted(parse, blocks, k, key, at) ==> !SaysUrl(blocks[k], url)
  }

  lemma AcceptedStaysAccepted(parse: Parse, blocks: seq<Block>, k: nat, key: Key, at: int)
    requires blocks != [] && k < |blocks| - 1
    ensures CameraAccepted(parse, blocks, k, key, at) <==> CameraAccepted(parse, blocks[..|blocks| - 1], k, key, at)
  {
    hide ReportOf;
    var front := blocks[..|blocks| - 1];
    assert forall j :: 0 <= j <= k ==> front[j] == blocks[j];
  }

  ghost predicate CameraMeaning(parse: Parse, m: map<Key, CameraState>, blocks: seq<Block>, key: Key) {
    if key in m then
      && m[key].sensor == key.sensor
      && (exists i :: TellsOf(parse, blocks, i, key, m[key]))
      && (match m[key].url
          case Some(url) => exists j :: LastAnnouncement(parse, blocks, j, key, url)
          case None => NeverAnnounced(parse, blocks, key))
    else
      forall i :: 0 <= i < |blocks| && ReportOf(parse, blocks[i], "CAMERA_EVENT").Some? ==>
          ReportOf(parse, blocks[i], "CAMERA_EVENT").value.0 != key
  }

  lemma CameraUntouched(parse: Parse, m: map<Key, CameraState>, blocks: seq<Block>, key: Key)
    requires blocks != [] && CameraMeaning(parse, m, blocks[..|blocks| - 1], key)
    requires var rep := ReportOf(parse, Last(blocks), "CAMERA_EVENT");
      rep.None? || rep.value.0 != key || (key in m && rep.value.1 < m[key].at)
    ensures CameraMeaning(parse, m, blocks, key)
  {
    hide ReportOf, AnnouncedUrl;
    var n := |blocks| - 1;
    var front := blocks[..n];
    forall k, at | 0 <= k < n
      ensures CameraAccepted(parse, blocks, k, key, at) <==> CameraAccepted(parse, front, k, key, at)
    {
      AcceptedStaysAccepted(parse, blocks, k, key, at);
    }
    if key in m {
      var i: nat :| TellsOf(parse, front, i, key, m[key]);
      assert TellsOf(parse, blocks, i, key, m[key]) && blocks[i] == front[i];
      forall at ensures !CameraAccepted(parse, blocks, n, key, at) {
        assert blocks[i] == front[i];
      }
      match m[key].url
      case Some(url) =>
        var j: nat :| LastAnnouncement(parse, front, j, key, url);
        assert LastAnnouncement(parse, blocks, j, key, url);
      case None =>
    }
  }

  lemma CameraTouched(parse: Parse, m: map<Key, CameraState>, blocks: seq<Block>, key: Key)
    requires blocks != [] && CameraMeaning(parse, m, blocks[..|blocks| - 1], key)
    requires var rep := ReportOf(parse, Last(blocks), "CAMERA_EVENT");
      rep.Some? && rep.value.0 == key && Accepts(CameraAt(m, key), rep.value.1)
    ensures CameraMeaning(parse, CameraStep(parse, m, Last(blocks)), blocks, key)
  {
    hide ReportOf, AnnouncedUrl, SaysUrl;
    UrlsAreSaid(blocks);
    var n := |blocks| - 1;
    var front, b := blocks[..n], Last(blocks);
    var at := ReportOf(parse, b, "CAMERA_EVENT").value.1;
    forall k, a | 0 <= k < n
      ensures CameraAccepted(parse, blocks, k, key, a) <==> CameraAccepted(parse, front, k, key, a)
    {
      AcceptedStaysAccepted(parse, blocks, k, key, a);
    }
    NewestSoFar(parse, m, front, key, at);
    assert CameraAccepted(parse, blocks, n, key, at);
    assert TellsOf(parse, blocks, n, key, CameraStep(parse, m, b)[key]);
    if AnnouncedUrl(b).Some? {
      assert LastAnnouncement(parse, blocks, n, key, AnnouncedUrl(b).value);
    } else if key in m && m[key].url.Some? {
      var j: nat :| LastAnnouncement(parse, front, j, key, m[key].url.value);
      NoneSaidFurther(parse, blocks, j + 1, key);
      assert LastAnnouncement(parse, blocks, j, key, m[key].url.value);
    } else {
      if key in m { NoneSaidFurther(parse, blocks, 0, key); } else { NoneBefore(parse, m, blocks, key); }
    }
  }

  /** A report that announces nothing does not end a silence. */
  lemma NoneSaidFurther(parse: Parse, blocks: seq<Block>, from: nat, key: Key)
    requires blocks != [] && AnnouncedUrl(Last(blocks)).None?
    requires var front := blocks[..|blocks| - 1];
      forall k, at, url :: from <= k < |front| && CameraAccepted(parse, front, k, key, at) ==> !SaysUrl(front[k], url)
    ensures forall k, at, url :: from <= k < |blocks| && CameraAccepted(parse, blocks, k, key, at) ==>
      !SaysUrl(blocks[k], url)
  {
    hide CameraAccepted, SaysUrl, AnnouncedUrl;
    var n, front := |blocks| - 1, blocks[..|blocks| - 1];
    forall k, at, url | from <= k < |blocks| && CameraAccepted(parse, blocks, k, key, at)
      ensures !SaysUrl(blocks[k], url)
    {
      if k < n {
        AcceptedStaysAccepted(parse, blocks, k, key, at);
        assert front[k] == blocks[k] && !SaysUrl(front[k], url);
      } else {
        UrlIsSaid(Last(blocks));
      }
    }
  }

  /** The first report of a camera comes after none. */
  lemma NoneBefore(parse: Parse, m: map<Key, CameraState>, blocks: seq<Block>, key: Key)
    requires blocks != [] && AnnouncedUrl(Last(blocks)).None?
    requires CameraMeaning(parse, m, blocks[..|blocks| - 1], key) && key !in m
    ensures NeverAnnounced(parse, blocks, key)
  {
    hide ReportOf, SaysUrl, AnnouncedUrl;
    var front := blocks[..|blocks| - 1];
    assert forall k, at :: 0 <= k < |front| ==> !CameraAccepted(parse, front, k, key, at);
    NoneSaidFurther(parse, blocks, 0, key);
  }

  lemma NewestSoFar(parse: Parse, m: map<Key, CameraState>, blocks: seq<Block>, key: Key, at: int)
    requires CameraMeaning(parse, m, blocks, key) && Accepts(CameraAt(m, key), at)
    ensures forall j ::
      (0 <= j < |blocks| && ReportOf(parse, blocks[j], "CAMERA_EVENT").Some?
       && ReportOf(parse, blocks[j], "CAMERA_EVENT").value.0 == key) ==>
      ReportOf(parse, blocks[j], "CAMERA_EVENT").value.1 <= at
  {
    hide ReportOf, AnnouncedUrl, LastAnnouncement, NeverAnnounced;
    if key in m {
      var i: nat :| TellsOf(parse, blocks, i, key, m[key]);
    }
  }

  /** After a scan, a camera's state is its last accepted report, and its stream address the one of its
      last accepted announcement: it is kept through reports without one, and absent only if no
      accepted report ever carried one. */
  lemma {:induction false} ScanCameraIsCarriedForward(parse: Parse, blocks: seq<Block>, cap: nat, key: Key)
    ensures CameraMeaning(parse, Scan(parse, blocks, cap).camera, blocks, key)
  {
    hide ReportOf, AnnouncedUrl, SeenStep, LatestStep, HistoryStep, CameraMeaning;
    if blocks == [] {
      assert CameraMeaning(parse, map[], [], key) by { NothingMeansNothing(parse, key); }
    } else {
      var front, b := blocks[..|blocks| - 1], Last(blocks);
      ScanCameraIsCarriedForward(parse, front, cap, key);
      var before := Scan(parse, front, cap).camera;
      var rep := ReportOf(parse, b, "CAMERA_EVENT");
      if rep.Some? && rep.value.0 == key && Accepts(CameraAt(before, key), rep.value.1) {
        CameraTouched(parse, before, blocks, key);
      } else {
        CameraUntouched(parse, before, blocks, key);
        SameMeaning(parse, before, CameraStep(parse, before, b), blocks, key);
      }
    }
  }

  lemma NothingMeansNothing(parse: Parse, key: Key)
    ensures CameraMeaning(parse, map[], [], key)
  {
  }

  lemma SameMeaning(parse: Parse, m: map<Key, CameraState>, m': map<Key, CameraState>, blocks: seq<Block>, key: Key)
    requires CameraMeaning(parse, m, blocks, key) && (key in m <==> key in m') && (key in m ==> m[key] == m'[key])
    ensures CameraMeaning(parse, m', blocks, key)
  {
  }

  /** A ledger that was replaced by a shorter one: the next poll is refused and keeps the cache, and the one
      after it reads the new ledger from its first block. */
  lemma ResetIsRescanned(parse: Parse, p: Poller, cap: nat)
    requires 0 < |p.chain| < U64 && p.nextIndex > |p.chain|
    ensures var q := Happen(parse, p, Poll, cap);
      && q == Poller(p.chain, p.cache, 0)
      && Happen(parse, q, Poll, cap) == Poller(p.chain, Consume(parse, p.cache, p.chain, cap), |p.chain|)
  {
    hide ServeRange, Consume, Decimal, IsIndex, Positional;
    var from := Decimal(p.nextIndex - 1);
    DecimalSays(p.nextIndex - 1);
    RangeIsServed(p.chain, Some(from), None);
    RefreshIsNeverRefused(p.chain, 0);
    assert p.chain[0..] == p.chain;
  }

  /** The ledger grows under the poller's feet, a failure changes nothing, and a poll does what the object
      does with the answer. */
  lemma PollIsReceived(parse: Parse, p: Poller, more: seq<Block>, cap: nat)
    requires 0 < |p.chain| < U64
    ensures Happen(parse, p, Grow(more), cap) == Poller(p.chain + more, p.cache, p.nextIndex)
    ensures Happen(parse, p, PollFails, cap) == p
    ensures var r := ServeRange(p.chain, Some(Decimal(RequestFrom(p.nextIndex))), None);
      && Happen(parse, p, Poll, cap).cache == (if r.Blocks? then Consume(parse, p.cache, r.blocks, cap) else p.cache)
      && Happen(parse, p, Poll, cap).nextIndex == match r
           case Blocks(_, Some(n)) => n
           case BadRequest => 0
           case _ => p.nextIndex
  {
    hide Consume, Decimal, ParseIndex;
  }
}
