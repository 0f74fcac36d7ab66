/** Cameras under overlapping refreshes: which state a camera is left in, and exactly when that is the one
    a single scan leaves. */
module ActivityCameras {
  import opened Records
  import opened Blocks
  import opened Activity
  import opened ActivityRefresh
  import opened ActivityConcurrent

  ghost predicate CameraReport(parse: Parse, b: Block, key: Key, at: int) {
    ReportOf(parse, b, "CAMERA_EVENT") == Some((key, at))
  }

  /** Sensor, event and instant of the state are those of this block's report. */
  ghost predicate Shows(parse: Parse, b: Block, key: Key, state: CameraState) {
    CameraReport(parse, b, key, state.at) && state.event == EventField(b) && state.sensor == key.sensor
  }

  /** Every camera that was reported is there, as one of its newest reports shows it. */
  ghost predicate HoldsNewestCamera(parse: Parse, m: map<Key, CameraState>, blocks: seq<Block>) {
    && (forall key :: key in m ==> exists i :: 0 <= i < |blocks| && Shows(parse, blocks[i], key, m[key]))
    && (forall i, key, at ::
          0 <= i < |blocks| && CameraReport(parse, blocks[i], key, at) ==> key in m && at <= m[key].at)
  }

  ghost predicate SameCamera(m: map<Key, CameraState>, m': map<Key, CameraState>, key: Key) {
    (key in m <==> key in m') && (key in m ==> m[key] == m'[key])
  }

  ghost predicate IsNewestCamera(parse: Parse, blocks: seq<Block>, i: nat, key: Key, at: int) {
    && i < |blocks| && CameraReport(parse, blocks[i], key, at)
    && forall j, t :: 0 <= j < |blocks| && CameraReport(parse, blocks[j], key, t) ==> t <= at
  }

  // ----- when interleaving is harmless ----------------------------------------------------------------

  /** All reports that tie for the newest instant say the same happened. */
  ghost predicate OneEvent(parse: Parse, blocks: seq<Block>, key: Key) {
    forall i: nat, j: nat, at ::
      (i < |blocks| && j < |blocks|
       && IsNewestCamera(parse, blocks, i, key, at) && IsNewestCamera(parse, blocks, j, key, at)) ==>
        EventField(blocks[i]) == EventField(blocks[j])
  }

  /** The accepted reports that tie with report j and announce an address announce the same one. */
  ghost predicate OneUrl(parse: Parse, blocks: seq<Block>, j: nat, key: Key, at: int) {
    && j < |blocks|
    && forall i :: 0 <= i < |blocks| && CameraAccepted(parse, blocks, i, key, at) && AnnouncedUrl(blocks[i]).Some? ==>
         AnnouncedUrl(blocks[i]) == AnnouncedUrl(blocks[j])
  }

  /** The block right behind report j is a newer report of the camera, so that whoever reads that block
      for the first time has just read j. */
  ghost predicate Sealed(parse: Parse, blocks: seq<Block>, j: nat, key: Key, at: int) {
    && j + 1 < |blocks|
    && var next := ReportOf(parse, blocks[j + 1], "CAMERA_EVENT");
       next.Some? && next.value.0 == key && next.value.1 > at
  }

  /** Position j, at this instant, holds the last announcement among the accepted reports. */
  ghost predicate Announces(parse: Parse, blocks: seq<Block>, j: nat, key: Key, at: int) {
    && CameraAccepted(parse, blocks, j, key, at) && AnnouncedUrl(blocks[j]).Some?
    && forall k, t :: j < k < |blocks| && CameraAccepted(parse, blocks, k, key, t) ==> AnnouncedUrl(blocks[k]).None?
  }

  /** The last announcement is sealed, or nothing that ties with it announces anything else. */
  ghost predicate UrlIsSafe(parse: Parse, blocks: seq<Block>, key: Key) {
    forall j: nat, at :: Announces(parse, blocks, j, key, at) ==>
      Sealed(parse, blocks, j, key, at) || OneUrl(parse, blocks, j, key, at)
  }

  ghost predicate CameraIsSafe(parse: Parse, blocks: seq<Block>, key: Key) {
    OneEvent(parse, blocks, key) && UrlIsSafe(parse, blocks, key)
  }

  // ----- the newest report ------------------------------------------------------------------------------

  lemma NewestCameraGrows(parse: Parse, m: map<Key, CameraState>, blocks: seq<Block>, n: nat)
    requires n < |blocks| && HoldsNewestCamera(parse, m, blocks[..n])
    ensures HoldsNewestCamera(parse, CameraStep(parse, m, blocks[n]), blocks[..n + 1])
  {
    hide ReportOf, AnnouncedUrl;
    var m', more := CameraStep(parse, m, blocks[n]), blocks[..n + 1];
    forall key | key in m' ensures exists i :: 0 <= i < |more| && Shows(parse, more[i], key, m'[key]) {
      if key in m && m'[key] == m[key] {
        var i :| 0 <= i < n && Shows(parse, blocks[..n][i], key, m[key]);
        assert Shows(parse, more[i], key, m'[key]);
      } else {
        assert Shows(parse, more[n], key, m'[key]);
      }
    }
    forall i, key, at | 0 <= i < |more| && CameraReport(parse, more[i], key, at) ensures key in m' && at <= m'[key].at {
      assert i < n ==> more[i] == blocks[..n][i];
    }
  }

  lemma NewestCameraSurvivesRepeats(parse: Parse, m: map<Key, CameraState>, blocks: seq<Block>, n: nat)
    requires n < |blocks| && HoldsNewestCamera(parse, m, blocks)
    ensures HoldsNewestCamera(parse, CameraStep(parse, m, blocks[n]), blocks)
  {
    hide ReportOf, AnnouncedUrl;
    var m' := CameraStep(parse, m, blocks[n]);
    forall key | key in m' ensures exists i :: 0 <= i < |blocks| && Shows(parse, blocks[i], key, m'[key]) {
      if key in m && m'[key] == m[key] {
        var i :| 0 <= i < |blocks| && Shows(parse, blocks[i], key, m[key]);
      } else {
        assert Shows(parse, blocks[n], key, m'[key]);
      }
    }
    forall key | key in m' ensures key in m && m'[key].at == m[key].at {
      if CameraReport(parse, blocks[n], key, m'[key].at) { }
    }
  }

  /** Reading position p, for the first time if it is the next one or again if it is an earlier one. */
  lemma ReadKeepsNewestCamera(parse: Parse, m: map<Key, CameraState>, blocks: seq<Block>, n: nat, p: nat)
    requires p <= n <= |blocks| && p < |blocks| && HoldsNewestCamera(parse, m, blocks[..n])
    ensures HoldsNewestCamera(parse, CameraStep(parse, m, blocks[p]), blocks[..Max(n, p + 1)])
  {
    hide HoldsNewestCamera, CameraStep;
    if p < n {
      assert blocks[..n][p] == blocks[p];
      NewestCameraSurvivesRepeats(parse, m, blocks[..n], p);
    } else {
      NewestCameraGrows(parse, m, blocks, n);
    }
  }

  /** Whatever is let in, by a first reading or a repeated one, a scan would have let in too; and a
      repeated one ties with what is held. */
  lemma LetInIsAccepted(parse: Parse, m: map<Key, CameraState>, blocks: seq<Block>, n: nat, p: nat, key: Key, at: int)
    requires p <= n <= |blocks| && p < |blocks| && HoldsNewestCamera(parse, m, blocks[..n])
    requires CameraReport(parse, blocks[p], key, at) && Accepts(CameraAt(m, key), at)
    ensures CameraAccepted(parse, blocks, p, key, at)
    ensures p < n ==> key in m && m[key].at == at
    ensures key in m ==> m[key].at <= at
  {
    hide ReportOf, AnnouncedUrl;
    forall j | 0 <= j < p && ReportOf(parse, blocks[j], "CAMERA_EVENT").Some?
                 && ReportOf(parse, blocks[j], "CAMERA_EVENT").value.0 == key
      ensures ReportOf(parse, blocks[j], "CAMERA_EVENT").value.1 <= at
    {
      assert CameraReport(parse, blocks[..n][j], key, ReportOf(parse, blocks[j], "CAMERA_EVENT").value.1);
    }
    if p < n { assert blocks[..n][p] == blocks[p]; }
  }

  /** What a read block does to one camera. */
  lemma StepOnCamera(parse: Parse, m: map<Key, CameraState>, b: Block, key: Key)
    ensures var m' := CameraStep(parse, m, b);
      if exists at :: CameraReport(parse, b, key, at) && Accepts(CameraAt(m, key), at)
      then key in m' && CameraReport(parse, b, key, m'[key].at) && Accepts(CameraAt(m, key), m'[key].at)
        && m'[key].url == if AnnouncedUrl(b).Some? then AnnouncedUrl(b) else if key in m then m[key].url else None
      else (key in m' <==> key in m) && (key in m ==> m'[key] == m[key])
  {
    hide AnnouncedUrl;
    match ReportOf(parse, b, "CAMERA_EVENT")
    case None =>
    case Some((k, at)) => assert k == key ==> CameraReport(parse, b, key, at);
  }

  // ----- the carried address ---------------------------------------------------------------------------

  /** How many blocks must have been read for the address of announcement j to be settled. */
  ghost function SettledFrom(parse: Parse, blocks: seq<Block>, j: nat, key: Key, at: int): nat {
    if OneUrl(parse, blocks, j, key, at) then j + 1 else j + 2
  }

  /** The camera carries the address announced at j. */
  ghost predicate HasUrlOf(m: map<Key, CameraState>, blocks: seq<Block>, j: nat, key: Key) {
    j < |blocks| && key in m && m[key].url == AnnouncedUrl(blocks[j])
  }

  ghost predicate SafeAnnouncement(parse: Parse, blocks: seq<Block>, j: nat, key: Key, at: int) {
    && Announces(parse, blocks, j, key, at)
    && (Sealed(parse, blocks, j, key, at) || OneUrl(parse, blocks, j, key, at))
  }

  /** After reading j itself, before anything newer, the camera carries its address. */
  lemma ReadingItCarriesIt(parse: Parse, m: map<Key, CameraState>, blocks: seq<Block>, n: nat, j: nat, key: Key,
                            at: int)
    requires Announces(parse, blocks, j, key, at) && j <= n <= j + 1 && n <= |blocks|
    requires HoldsNewestCamera(parse, m, blocks[..n])
    ensures HasUrlOf(CameraStep(parse, m, blocks[j]), blocks, j, key)
  {
    hide AnnouncedUrl, ReportOf;
    assert CameraReport(parse, blocks[j], key, at);
    if key in m {
      var i :| 0 <= i < n && Shows(parse, blocks[..n][i], key, m[key]);
      assert blocks[..n][i] == blocks[i] && CameraReport(parse, blocks[i], key, m[key].at);
      assert m[key].at <= at;
    }
    StepOnCamera(parse, m, blocks[j], key);
  }

  /** Once settled the address stays, whatever is read next; and it is settled when the time comes. */
  lemma ReadKeepsUrl(parse: Parse, m: map<Key, CameraState>, blocks: seq<Block>, n: nat, p: nat, j: nat, key: Key,
                     at: int)
    requires SafeAnnouncement(parse, blocks, j, key, at)
    requires p <= n <= |blocks| && p < |blocks| && HoldsNewestCamera(parse, m, blocks[..n])
    requires n >= SettledFrom(parse, blocks, j, key, at) ==> HasUrlOf(m, blocks, j, key)
    requires p == n == j + 1 ==> HasUrlOf(m, blocks, j, key)
    ensures Max(n, p + 1) >= SettledFrom(parse, blocks, j, key, at) ==>
      HasUrlOf(CameraStep(parse, m, blocks[p]), blocks, j, key)
  {
    hide AnnouncedUrl, ReportOf;
    var m' := CameraStep(parse, m, blocks[p]);
    if Max(n, p + 1) >= SettledFrom(parse, blocks, j, key, at) {
      if p == n == j {
        ReadingItCarriesIt(parse, m, blocks, n, j, key, at);
      } else {
        assert HasUrlOf(m, blocks, j, key);
        StepOnCamera(parse, m, blocks[p], key);
        if t :| CameraReport(parse, blocks[p], key, t) && Accepts(CameraAt(m, key), t) {
          LetInIsAccepted(parse, m, blocks, n, p, key, t);
          AnnouncedLetIn(parse, m, blocks, n, p, j, key, at, t);
        }
      }
    }
  }

  lemma SealedIsPast(parse: Parse, m: map<Key, CameraState>, blocks: seq<Block>, n: nat, j: nat, key: Key, at: int)
    requires Sealed(parse, blocks, j, key, at) && j + 1 < n <= |blocks| && HoldsNewestCamera(parse, m, blocks[..n])
    ensures key in m && m[key].at > at
  {
    hide ReportOf;
    assert CameraReport(parse, blocks[..n][j + 1], key, ReportOf(parse, blocks[j + 1], "CAMERA_EVENT").value.1);
  }

  /** A report that is let in once the address is settled does not announce another one. */
  lemma AnnouncedLetIn(parse: Parse, m: map<Key, CameraState>, blocks: seq<Block>, n: nat, p: nat, j: nat,
                       key: Key, at: int, t: int)
    requires SafeAnnouncement(parse, blocks, j, key, at) && j < n
    requires p <= n <= |blocks| && p < |blocks| && HoldsNewestCamera(parse, m, blocks[..n])
    requires CameraReport(parse, blocks[p], key, t) && CameraAccepted(parse, blocks, p, key, t)
    requires p < n ==> key in m && m[key].at == t
    requires Max(n, p + 1) >= SettledFrom(parse, blocks, j, key, at)
    ensures AnnouncedUrl(blocks[p]).Some? ==> AnnouncedUrl(blocks[p]) == AnnouncedUrl(blocks[j])
  {
    hide AnnouncedUrl, ReportOf;
    if AnnouncedUrl(blocks[p]).Some? {
      assert p <= j;
      assert CameraReport(parse, blocks[j], key, at) && blocks[..n][j] == blocks[j];
      assert at <= t && p < n;
      assert t <= at by { if p < j { assert CameraReport(parse, blocks[p], key, t); } }
      if !OneUrl(parse, blocks, j, key, at) {
        SealedIsPast(parse, m, blocks, n, j, key, at);
      }
    }
  }

  // ----- along a run -------------------------------------------------------------------------------------

  /** The cameras of a cache that has read the first n of these blocks in some interleaved way. */
  ghost predicate CamerasOk(parse: Parse, m: map<Key, CameraState>, blocks: seq<Block>, n: nat) {
    && n <= |blocks| && HoldsNewestCamera(parse, m, blocks[..n])
    && forall key :: UrlOk(parse, m, blocks, n, key)
  }

  ghost predicate UrlOk(parse: Parse, m: map<Key, CameraState>, blocks: seq<Block>, n: nat, key: Key) {
    && (forall j: nat, at ::
          SafeAnnouncement(parse, blocks, j, key, at) && n >= SettledFrom(parse, blocks, j, key, at) ==>
          HasUrlOf(m, blocks, j, key))
    && (NeverAnnounced(parse, blocks, key) && key in m ==> m[key].url.None?)
  }

  /** If the block read last is the one before the next, its announcement is what the camera carries. */
  ghost predicate Fresh(parse: Parse, m: map<Key, CameraState>, blocks: seq<Block>, n: nat) {
    forall j: nat, key, at :: n == j + 1 && SafeAnnouncement(parse, blocks, j, key, at) ==> HasUrlOf(m, blocks, j, key)
  }

  lemma ReadKeepsCameras(parse: Parse, m: map<Key, CameraState>, blocks: seq<Block>, n: nat, p: nat)
    requires CamerasOk(parse, m, blocks, n) && p <= n && p < |blocks| && (p == n ==> Fresh(parse, m, blocks, n))
    ensures CamerasOk(parse, CameraStep(parse, m, blocks[p]), blocks, Max(n, p + 1))
    ensures Max(n, p + 1) == p + 1 ==> Fresh(parse, CameraStep(parse, m, blocks[p]), blocks, p + 1)
  {
    hide HoldsNewestCamera, CameraStep, SafeAnnouncement, HasUrlOf, NeverAnnounced, SettledFrom;
    var m', n' := CameraStep(parse, m, blocks[p]), Max(n, p + 1);
    ReadKeepsNewestCamera(parse, m, blocks, n, p);
    forall key ensures UrlOk(parse, m', blocks, n', key) {
      assert UrlOk(parse, m, blocks, n, key);
      forall j: nat, at | SafeAnnouncement(parse, blocks, j, key, at) && n' >= SettledFrom(parse, blocks, j, key, at)
        ensures HasUrlOf(m', blocks, j, key)
      {
        ReadKeepsUrl(parse, m, blocks, n, p, j, key, at);
      }
      if NeverAnnounced(parse, blocks, key) { ReadKeepsNoUrl(parse, m, blocks, n, p, key); }
    }
    if n' == p + 1 {
      forall j: nat, key, at | p + 1 == j + 1 && SafeAnnouncement(parse, blocks, j, key, at)
        ensures HasUrlOf(m', blocks, j, key)
      {
        assert Announces(parse, blocks, j, key, at) by { SafeAnnounces(parse, blocks, j, key, at); }
        ReadingItCarriesIt(parse, m, blocks, n, j, key, at);
      }
    }
  }

  lemma SafeAnnounces(parse: Parse, blocks: seq<Block>, j: nat, key: Key, at: int)
    requires SafeAnnouncement(parse, blocks, j, key, at)
    ensures Announces(parse, blocks, j, key, at)
  {
  }

  lemma ReadKeepsNoUrl(parse: Parse, m: map<Key, CameraState>, blocks: seq<Block>, n: nat, p: nat, key: Key)
    requires NeverAnnounced(parse, blocks, key) && p <= n <= |blocks| && p < |blocks|
    requires HoldsNewestCamera(parse, m, blocks[..n]) && (key in m ==> m[key].url.None?)
    ensures var m' := CameraStep(parse, m, blocks[p]); key in m' ==> m'[key].url.None?
  {
    hide ReportOf, AnnouncedUrl, SaysUrl, HoldsNewestCamera, CameraStep;
    UrlIsSaid(blocks[p]);
    StepOnCamera(parse, m, blocks[p], key);
    if at :| CameraReport(parse, blocks[p], key, at) && Accepts(CameraAt(m, key), at) {
      LetInIsAccepted(parse, m, blocks, n, p, key, at);
    }
  }

  lemma LastOfStretch(parse: Parse, c: Cache, blocks: seq<Block>, from: nat, end: nat, cap: nat)
    requires from < end <= |blocks|
    ensures Consume(parse, c, blocks[from..end], cap)
         == ConsumeBlock(parse, Consume(parse, c, blocks[from..end - 1], cap), blocks[end - 1], cap)
  {
    hide ConsumeBlock;
    assert blocks[from..end][..end - from - 1] == blocks[from..end - 1] && Last(blocks[from..end]) == blocks[end - 1];
  }

  /** A stretch that begins at the first block or inside what has been read. */
  lemma {:induction false} StretchKeepsCameras(parse: Parse, c: Cache, blocks: seq<Block>, n: nat, from: nat, end: nat,
                                               cap: nat)
    requires CamerasOk(parse, c.camera, blocks, n) && (from == 0 || from < n) && from <= end <= |blocks|
    ensures from <= n ==> CamerasOk(parse, Consume(parse, c, blocks[from..end], cap).camera, blocks, Max(n, end))
    ensures from < end && Max(n, end) == end ==>
      Fresh(parse, Consume(parse, c, blocks[from..end], cap).camera, blocks, end)
    decreases end
  {
    hide CamerasOk, ConsumeBlock, Fresh;
    if from < end {
      StretchKeepsCameras(parse, c, blocks, n, from, end - 1, cap);
      var before := Consume(parse, c, blocks[from..end - 1], cap);
      LastOfStretch(parse, c, blocks, from, end, cap);
      if end - 1 == Max(n, end - 1) && from == end - 1 { NothingIsFresh(parse, before.camera, blocks); }
      ReadOnePosition(parse, before, blocks, Max(n, end - 1), end - 1, cap);
    }
  }

  lemma NothingIsFresh(parse: Parse, m: map<Key, CameraState>, blocks: seq<Block>)
    ensures Fresh(parse, m, blocks, 0)
  {
    hide SafeAnnouncement;
  }

  lemma ReadOnePosition(parse: Parse, c: Cache, blocks: seq<Block>, n: nat, p: nat, cap: nat)
    requires CamerasOk(parse, c.camera, blocks, n) && p <= n && p < |blocks|
    requires p == n ==> Fresh(parse, c.camera, blocks, n)
    ensures CamerasOk(parse, ConsumeBlock(parse, c, blocks[p], cap).camera, blocks, Max(n, p + 1))
    ensures Max(n, p + 1) == p + 1 ==> Fresh(parse, ConsumeBlock(parse, c, blocks[p], cap).camera, blocks, p + 1)
  {
    hide CamerasOk, Fresh, SeenStep, LatestStep, HistoryStep, CameraStep;
    ReadKeepsCameras(parse, c.camera, blocks, n, p);
  }

  lemma {:induction false} RunKeepsCameras(parse: Parse, ws: seq<World>, ls: seq<ActivityConcurrent.Label>, cap: nat,
                                           blocks: seq<Block>)
    requires ActivityConcurrent.IsRun(parse, ws, ls, cap) && ActivityConcurrent.Initial(ws[0])
    requires Last(ws).seen <= |Last(ws).chain| && Last(ws).chain[..Last(ws).seen] <= blocks
    ensures ws != [] && CamerasOk(parse, Last(ws).cache.camera, blocks, Last(ws).seen)
    decreases |ls|
  {
    hide CamerasOk, WorldOk, ActivityConcurrent.Apply, ActivityConcurrent.Enabled;
    if ls == [] {
      NoCameras(parse, blocks);
    } else {
      var n := |ls| - 1;
      RunOk(parse, ws[..n + 1], ls[..n], cap);
      ReadPrefixGrows(parse, ws[n], ls[n], cap);
      RunKeepsCameras(parse, ws[..n + 1], ls[..n], cap, blocks);
      StepKeepsCameras(parse, ws[n], ls[n], cap, blocks);
    }
  }

  lemma NoCameras(parse: Parse, blocks: seq<Block>)
    ensures CamerasOk(parse, map[], blocks, 0)
  {
  }

  lemma ReadPrefixGrows(parse: Parse, w: World, l: ActivityConcurrent.Label, cap: nat)
    requires WorldOk(parse, w) && ActivityConcurrent.Enabled(w, l)
    ensures var w' := ActivityConcurrent.Apply(parse, w, l, cap);
      w.seen <= w'.seen && w.seen <= |w.chain| && w.chain <= w'.chain
  {
    hide Newest, Consume, ServeRange, Decimal, Indices;
  }

  lemma StepKeepsCameras(parse: Parse, w: World, l: ActivityConcurrent.Label, cap: nat, blocks: seq<Block>)
    requires WorldOk(parse, w) && ActivityConcurrent.Enabled(w, l)
    requires CamerasOk(parse, w.cache.camera, blocks, w.seen)
    requires var w' := ActivityConcurrent.Apply(parse, w, l, cap);
      w'.seen <= |w'.chain| && w'.chain[..w'.seen] <= blocks
    ensures var w' := ActivityConcurrent.Apply(parse, w, l, cap); CamerasOk(parse, w'.cache.camera, blocks, w'.seen)
  {
    hide CamerasOk, Newest, Consume, ServeRange, Decimal, Indices;
    if l.Deliver? {
      var f := w.flights[l.r];
      assert FlightOk(w, f);
      var n :| f.from < n <= |w.chain| && ActivityConcurrent.Carries(w.chain, f, n);
      assert |w.chain[f.from..n]| == n - f.from;
      assert w.chain[f.from..n] == blocks[f.from..n] by {
        forall i | f.from <= i < n ensures w.chain[i] == blocks[i] {
          assert w.chain[..Max(w.seen, n)][i] == blocks[i];
        }
      }
      StretchKeepsCameras(parse, w.cache, blocks, w.seen, f.from, n, cap);
    }
  }

  // ----- a safe camera ------------------------------------------------------------------------------------

  lemma {:induction false} ScanCameras(parse: Parse, blocks: seq<Block>, cap: nat)
    ensures HoldsNewestCamera(parse, Scan(parse, blocks, cap).camera, blocks)
  {
    hide HoldsNewestCamera, SeenStep, LatestStep, HistoryStep, CameraStep;
    if blocks == [] {
      NoCameras(parse, []);
      assert [][..0] == blocks;
    } else {
      var n := |blocks| - 1;
      ScanCameras(parse, blocks[..n], cap);
      NewestCameraGrows(parse, Scan(parse, blocks[..n], cap).camera, blocks, n);
      assert blocks[..n + 1] == blocks;
    }
  }

  lemma OneEventIsOneState(parse: Parse, m: map<Key, CameraState>, m': map<Key, CameraState>, blocks: seq<Block>,
                           key: Key)
    requires HoldsNewestCamera(parse, m, blocks) && HoldsNewestCamera(parse, m', blocks) && OneEvent(parse, blocks, key)
    ensures key in m <==> key in m'
    ensures key in m ==> m[key].(url := None) == m'[key].(url := None)
  {
    hide ReportOf;
    if key in m {
      var i :| 0 <= i < |blocks| && Shows(parse, blocks[i], key, m[key]);
      var i' :| 0 <= i' < |blocks| && Shows(parse, blocks[i'], key, m'[key]);
      assert IsNewestCamera(parse, blocks, i, key, m[key].at) && IsNewestCamera(parse, blocks, i', key, m'[key].at);
    }
    if key in m' {
      var i' :| 0 <= i' < |blocks| && Shows(parse, blocks[i'], key, m'[key]);
    }
  }

  /** A cache that has read all of these blocks in some interleaved way agrees with a scan of them. */
  lemma SafeCameraAgrees(parse: Parse, m: map<Key, CameraState>, blocks: seq<Block>, key: Key, cap: nat)
    requires CamerasOk(parse, m, blocks, |blocks|) && CameraIsSafe(parse, blocks, key)
    ensures SameCamera(m, Scan(parse, blocks, cap).camera, key)
  {
    hide HoldsNewestCamera, OneEvent, Scan, ReportOf, AnnouncedUrl, SaysUrl, CameraAccepted;
    UrlsAreSaid(blocks);
    var scan := Scan(parse, blocks, cap).camera;
    assert blocks[..|blocks|] == blocks && UrlOk(parse, m, blocks, |blocks|, key);
    ScanCameras(parse, blocks, cap);
    OneEventIsOneState(parse, m, scan, blocks, key);
    if key in scan {
      ScanCameraIsCarriedForward(parse, blocks, cap, key);
      match scan[key].url
      case None =>
      case Some(url) =>
        var j: nat :| LastAnnouncement(parse, blocks, j, key, url);
        var at :| CameraAccepted(parse, blocks, j, key, at);
        assert Announces(parse, blocks, j, key, at);
        assert SafeAnnouncement(parse, blocks, j, key, at);
    }
  }

  /** Under any interleaving every camera shows one of its newest reports over the prefix read; and one
      that is safe there is left exactly as a scan leaves it, stream address included. */
  lemma InterleavedCameras(parse: Parse, ws: seq<World>, ls: seq<ActivityConcurrent.Label>, cap: nat)
    requires ActivityConcurrent.IsRun(parse, ws, ls, cap) && ActivityConcurrent.Initial(ws[0])
    ensures ws != [] && Last(ws).seen <= |Last(ws).chain|
    ensures var w, read := Last(ws), Last(ws).chain[..Last(ws).seen];
      && HoldsNewestCamera(parse, w.cache.camera, read)
      && forall key :: CameraIsSafe(parse, read, key) ==> SameCamera(w.cache.camera, Scan(parse, read, cap).camera, key)
  {
    hide HoldsNewestCamera, CameraIsSafe, SameCamera, UrlOk, Newest, Scan;
    hide ActivityConcurrent.IsRun, ActivityConcurrent.Initial;
    RunOk(parse, ws, ls, cap);
    var w, read := Last(ws), Last(ws).chain[..Last(ws).seen];
    RunKeepsCameras(parse, ws, ls, cap, read);
    assert read[..|read|] == read;
    forall key | CameraIsSafe(parse, read, key) ensures SameCamera(w.cache.camera, Scan(parse, read, cap).camera, key) {
      SafeCameraAgrees(parse, w.cache.camera, read, key, cap);
    }
  }

  // ----- an unsafe one -------------------------------------------------------------------------------------

  lemma {:induction false} ReplayKeepsNewest(parse: Parse, c: Cache, blocks: seq<Block>, n: nat, cap: nat)
    requires n <= |blocks| && HoldsNewestCamera(parse, c.camera, blocks)
    ensures HoldsNewestCamera(parse, Consume(parse, c, blocks[..n], cap).camera, blocks)
  {
    hide HoldsNewestCamera, SeenStep, LatestStep, HistoryStep, CameraStep;
    if n > 0 {
      assert blocks[..n][..n - 1] == blocks[..n - 1] && Last(blocks[..n]) == blocks[n - 1];
      ReplayKeepsNewest(parse, c, blocks, n - 1, cap);
      NewestCameraSurvivesRepeats(parse, Consume(parse, c, blocks[..n - 1], cap).camera, blocks, n - 1);
    }
  }

  /** Reading everything up to one of the newest reports once more leaves the camera as it says. */
  lemma ReplayedReportWins(parse: Parse, c: Cache, blocks: seq<Block>, i: nat, key: Key, at: int, cap: nat)
    requires IsNewestCamera(parse, blocks, i, key, at) && HoldsNewestCamera(parse, c.camera, blocks)
    ensures var m := Consume(parse, c, blocks[..i + 1], cap).camera;
      && HoldsNewestCamera(parse, m, blocks)
      && key in m && m[key].at == at && m[key].event == EventField(blocks[i])
      && (AnnouncedUrl(blocks[i]).Some? ==> m[key].url == AnnouncedUrl(blocks[i]))
  {
    hide ReportOf, AnnouncedUrl, SeenStep, LatestStep, HistoryStep, HoldsNewestCamera, CameraStep;
    assert blocks[..i + 1][..i] == blocks[..i] && Last(blocks[..i + 1]) == blocks[i];
    ReplayKeepsNewest(parse, c, blocks, i, cap);
    ReplayKeepsNewest(parse, c, blocks, i + 1, cap);
    NewestIsLetIn(parse, Consume(parse, c, blocks[..i], cap).camera, blocks, i, key, at);
  }

  lemma NewestIsLetIn(parse: Parse, m: map<Key, CameraState>, blocks: seq<Block>, i: nat, key: Key, at: int)
    requires IsNewestCamera(parse, blocks, i, key, at) && HoldsNewestCamera(parse, m, blocks)
    ensures var m' := CameraStep(parse, m, blocks[i]);
      && key in m' && m'[key].at == at && m'[key].event == EventField(blocks[i])
      && (AnnouncedUrl(blocks[i]).Some? ==> m'[key].url == AnnouncedUrl(blocks[i]))
  {
    hide ReportOf, AnnouncedUrl;
    if key in m {
      var j :| 0 <= j < |blocks| && Shows(parse, blocks[j], key, m[key]);
      assert CameraReport(parse, blocks[j], key, m[key].at);
    }
  }

  /** Of several reports that tie for the newest instant, some interleaving leaves the cache with any
      given one: its event, and its address if it announces one. */
  lemma TiedReportCanWin(parse: Parse, blocks: seq<Block>, i: nat, key: Key, at: int, cap: nat)
    returns (ws: seq<World>, ls: seq<ActivityConcurrent.Label>)
    requires i < |blocks| < U64 && IsNewestCamera(parse, blocks, i, key, at)
    ensures EndsWith(parse, ws, ls, blocks, cap)
    ensures var m := Last(ws).cache.camera;
      && key in m && m[key].at == at && m[key].event == EventField(blocks[i])
      && (AnnouncedUrl(blocks[i]).Some? ==> m[key].url == AnnouncedUrl(blocks[i]))
  {
    hide Consume, CameraReport, HoldsNewestCamera, AnnouncedUrl, IsNewestCamera, ActivityConcurrent.Initial,
      ActivityConcurrent.IsRun;
    ws, ls := TwoRefreshesCross(parse, blocks, i, cap);
    ScanCameras(parse, blocks, cap);
    ReplayedReportWins(parse, Scan(parse, blocks, cap), blocks, i, key, at, cap);
  }

  /** The first position from n on that reports the camera newer than at, or the end. */
  lemma {:induction false} FirstNewer(parse: Parse, blocks: seq<Block>, n: nat, key: Key, at: int) returns (f: nat)
    requires n <= |blocks|
    ensures n <= f <= |blocks|
    ensures forall j, t :: n <= j < f && CameraReport(parse, blocks[j], key, t) ==> t <= at
    ensures f < |blocks| ==> exists t :: CameraReport(parse, blocks[f], key, t) && at < t
    decreases |blocks| - n
  {
    hide ReportOf;
    f := n;
    if n < |blocks| {
      if t :| CameraReport(parse, blocks[n], key, t) && at < t {
      } else {
        f := FirstNewer(parse, blocks, n + 1, key, at);
      }
    }
  }

  /** Reading on from a prefix carries the address along, as long as nothing that is accepted announces. */
  lemma {:induction false} AddressIsCarried(parse: Parse, c: Cache, blocks: seq<Block>, n: nat, end: nat, key: Key,
                                            cap: nat)
    requires n <= end <= |blocks| && HoldsNewestCamera(parse, c.camera, blocks[..n]) && key in c.camera
    requires forall k, t :: n <= k < |blocks| && CameraAccepted(parse, blocks, k, key, t) ==>
      AnnouncedUrl(blocks[k]).None?
    ensures var m := Consume(parse, c, blocks[n..end], cap).camera;
      HoldsNewestCamera(parse, m, blocks[..end]) && key in m && m[key].url == c.camera[key].url
    decreases end
  {
    hide ReportOf, AnnouncedUrl, HoldsNewestCamera, CameraAccepted, SeenStep, LatestStep, HistoryStep, CameraStep;
    if n < end {
      var p := end - 1;
      assert blocks[n..end][..end - n - 1] == blocks[n..p] && Last(blocks[n..end]) == blocks[p];
      AddressIsCarried(parse, c, blocks, n, p, key, cap);
      var m := Consume(parse, c, blocks[n..p], cap).camera;
      ReadKeepsNewestCamera(parse, m, blocks, p, p);
      StepOnCamera(parse, m, blocks[p], key);
      if t :| CameraReport(parse, blocks[p], key, t) && Accepts(CameraAt(m, key), t) {
        LetInIsAccepted(parse, m, blocks, p, p, key, t);
      }
    }
  }

  /** Of several accepted reports that tie with the last announcement, none sealed, any that announces an
      address can end up as the camera's. */
  lemma TiedAddressCanWin(parse: Parse, blocks: seq<Block>, i: nat, j: nat, key: Key, at: int, cap: nat)
    returns (ws: seq<World>, ls: seq<ActivityConcurrent.Label>)
    requires i < |blocks| < U64 && Announces(parse, blocks, j, key, at) && !Sealed(parse, blocks, j, key, at)
    requires CameraAccepted(parse, blocks, i, key, at) && AnnouncedUrl(blocks[i]).Some?
    ensures EndsWith(parse, ws, ls, blocks, cap)
    ensures key in Last(ws).cache.camera && Last(ws).cache.camera[key].url == AnnouncedUrl(blocks[i])
  {
    hide ReportOf, Consume, HoldsNewestCamera, AnnouncedUrl, ActivityConcurrent.Initial, ActivityConcurrent.IsRun;
    assert i <= j;
    var f := FirstNewer(parse, blocks, j + 1, key, at);
    NewestBefore(parse, blocks, i, j, f, key, at);
    if f == |blocks| {
      assert blocks[..f] == blocks;
      ws, ls := TiedReportCanWin(parse, blocks, i, key, at, cap);
    } else {
      assert f > j + 1 by { NotSealed(parse, blocks, j, f, key, at); }
      ws, ls := ThreeRefreshesCross(parse, blocks, i, f, cap);
      var front := blocks[..f];
      ScanCameras(parse, front, cap);
      ReplayedReportWins(parse, Scan(parse, front, cap), front, i, key, at, cap);
      assert front[..i + 1] == blocks[..i + 1];
      var c := Consume(parse, Scan(parse, front, cap), blocks[..i + 1], cap);
      ReadsOn(parse, c, blocks, f, j, key, at, cap);
    }
  }

  lemma NotSealed(parse: Parse, blocks: seq<Block>, j: nat, f: nat, key: Key, at: int)
    requires !Sealed(parse, blocks, j, key, at) && j + 1 <= f < |blocks|
    requires exists t :: CameraReport(parse, blocks[f], key, t) && at < t
    ensures f > j + 1
  {
    hide ReportOf;
  }

  lemma NewestBefore(parse: Parse, blocks: seq<Block>, i: nat, j: nat, f: nat, key: Key, at: int)
    requires i <= j < f <= |blocks|
    requires CameraAccepted(parse, blocks, i, key, at) && CameraAccepted(parse, blocks, j, key, at)
    requires forall k, t :: j + 1 <= k < f && CameraReport(parse, blocks[k], key, t) ==> t <= at
    ensures IsNewestCamera(parse, blocks[..f], i, key, at)
  {
    hide ReportOf;
    forall k, t | 0 <= k < f && CameraReport(parse, blocks[..f][k], key, t) ensures t <= at {
      assert CameraReport(parse, blocks[k], key, t);
    }
  }

  /** The block before the newer report is read again and then everything else for the first time. */
  lemma ReadsOn(parse: Parse, c: Cache, blocks: seq<Block>, f: nat, j: nat, key: Key, at: int, cap: nat)
    requires Announces(parse, blocks, j, key, at) && j + 1 < f < |blocks|
    requires HoldsNewestCamera(parse, c.camera, blocks[..f]) && key in c.camera
    ensures var m := Consume(parse, c, blocks[f - 1..], cap).camera; key in m && m[key].url == c.camera[key].url
  {
    hide ReportOf, AnnouncedUrl, HoldsNewestCamera, CameraAccepted, ConsumeBlock, CameraStep;
    var p := f - 1;
    var once := ConsumeBlock(parse, c, blocks[p], cap);
    assert once.camera == CameraStep(parse, c.camera, blocks[p]) by { CameraOfBlock(parse, c, blocks[p], cap); }
    ReadKeepsNewestCamera(parse, c.camera, blocks, f, p);
    StepOnCamera(parse, c.camera, blocks[p], key);
    if t :| CameraReport(parse, blocks[p], key, t) && Accepts(CameraAt(c.camera, key), t) {
      LetInIsAccepted(parse, c.camera, blocks, f, p, key, t);
    }
    assert blocks[p..] == [blocks[p]] + blocks[f..] && blocks[f..|blocks|] == blocks[f..];
    ConsumeConcat(parse, c, [blocks[p]], blocks[f..], cap);
    ConsumeOne(parse, c, blocks[p], cap);
    AddressIsCarried(parse, once, blocks, f, |blocks|, key, cap);
  }

  lemma CameraOfBlock(parse: Parse, c: Cache, b: Block, cap: nat)
    ensures ConsumeBlock(parse, c, b, cap).camera == CameraStep(parse, c.camera, b)
  {
    hide SeenStep, LatestStep, HistoryStep, CameraStep;
  }

  /** Exactly when interleaving is harmless for a camera: every run that has read a given ledger leaves
      it as a scan does, if and only if its newest reports say one thing and its last announcement is
      sealed or does not tie with a different one. */
  lemma InterleavingHarmlessForCameraIff(parse: Parse, blocks: seq<Block>, key: Key, cap: nat)
    requires 0 < |blocks| < U64
    ensures CameraIsSafe(parse, blocks, key)
      <==> forall ws, ls :: EndsWith(parse, ws, ls, blocks, cap) ==>
             SameCamera(Last(ws).cache.camera, Scan(parse, blocks, cap).camera, key)
  {
    hide ReportOf, AnnouncedUrl, Scan, CameraAccepted, IsNewestCamera, Sealed, HoldsNewestCamera;
    hide ActivityConcurrent.IsRun, ActivityConcurrent.Initial;
    assert blocks[..|blocks|] == blocks;
    var scan := Scan(parse, blocks, cap).camera;
    if CameraIsSafe(parse, blocks, key) {
      forall ws, ls | EndsWith(parse, ws, ls, blocks, cap) ensures SameCamera(Last(ws).cache.camera, scan, key) {
        InterleavedCameras(parse, ws, ls, cap);
      }
    } else if !OneEvent(parse, blocks, key) {
      var i: nat, j: nat, at :| i < |blocks| && j < |blocks|
        && IsNewestCamera(parse, blocks, i, key, at) && IsNewestCamera(parse, blocks, j, key, at)
        && EventField(blocks[i]) != EventField(blocks[j]);
      var ws, ls := TiedReportCanWin(parse, blocks, i, key, at, cap);
      var ws', ls' := TiedReportCanWin(parse, blocks, j, key, at, cap);
      assert !SameCamera(Last(ws).cache.camera, scan, key) || !SameCamera(Last(ws').cache.camera, scan, key);
    } else {
      var j: nat, at :| Announces(parse, blocks, j, key, at)
        && !Sealed(parse, blocks, j, key, at) && !OneUrl(parse, blocks, j, key, at);
      assert j < |blocks| && CameraAccepted(parse, blocks, j, key, at) by {
        AcceptedIsInside(parse, blocks, j, key, at);
      }
      var i :| 0 <= i < |blocks| && CameraAccepted(parse, blocks, i, key, at) && AnnouncedUrl(blocks[i]).Some?
        && AnnouncedUrl(blocks[i]) != AnnouncedUrl(blocks[j]);
      var ws, ls := TiedAddressCanWin(parse, blocks, i, j, key, at, cap);
      var ws', ls' := TiedAddressCanWin(parse, blocks, j, j, key, at, cap);
      assert !SameCamera(Last(ws).cache.camera, scan, key) || !SameCamera(Last(ws').cache.camera, scan, key);
    }
  }

  lemma AcceptedIsInside(parse: Parse, blocks: seq<Block>, i: nat, key: Key, at: int)
    requires CameraAccepted(parse, blocks, i, key, at)
    ensures i < |blocks|
  {
  }
}
