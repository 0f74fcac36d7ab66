/** What refreshes that overlap do to the histories: exactly when every readings() still answers as if
    nothing had been evicted. */
module ActivityHistories {
  import opened Records
  import opened Blocks
  import opened Activity
  import opened ActivityRefresh
  import opened ActivityConcurrent
  import opened Readings

  // ----- the cache is a scan of what was delivered -------------------------------------------------------

  /** The reading at position i is as new as every reading of its sensor before it: a scan accepts it. */
  ghost predicate Leads(parse: Parse, blocks: seq<Block>, i: nat, key: Key, r: Reading) {
    i < |blocks| && Reports(parse, blocks[i], key, r) && NoneNewer(parse, blocks[..i], key, r.at)
  }

  ghost predicate NoneNewer(parse: Parse, blocks: seq<Block>, key: Key, at: int) {
    forall i, r :: 0 <= i < |blocks| && Reports(parse, blocks[i], key, r) ==> r.at <= at
  }

  ghost predicate AllLead(parse: Parse, h: seq<Reading>, blocks: seq<Block>, key: Key) {
    forall r :: r in h ==> exists i :: Leads(parse, blocks, i, key, r)
  }

  lemma LeadsFurther(parse: Parse, blocks: seq<Block>, more: seq<Block>, i: nat, key: Key, r: Reading)
    requires Leads(parse, blocks, i, key, r) && blocks <= more
    ensures Leads(parse, more, i, key, r)
  {
    hide Reports, NoneNewer;
    assert more[..i] == blocks[..i] && more[i] == blocks[i];
  }

  lemma AllLeadFurther(parse: Parse, h: seq<Reading>, blocks: seq<Block>, more: seq<Block>, key: Key)
    requires AllLead(parse, h, blocks, key) && blocks <= more
    ensures AllLead(parse, h, more, key)
  {
    hide Leads;
    forall r | r in h ensures exists i :: Leads(parse, more, i, key, r) {
      var i :| Leads(parse, blocks, i, key, r);
      LeadsFurther(parse, blocks, more, i, key, r);
    }
  }

  ghost predicate Takes(parse: Parse, latest: map<Key, Reading>, b: Block, key: Key) {
    var reading := ReadingOf(parse, b);
    reading.Some? && reading.value.0 == key && Accepts(LatestAt(latest, key), reading.value.1.at)
  }

  lemma AcceptedOneMore(parse: Parse, log: seq<Block>, b: Block, key: Key)
    ensures Accepted(parse, log + [b], key)
         == Accepted(parse, log, key)
          + if Takes(parse, LatestOf(parse, log), b, key) then [ReadingOf(parse, b).value.1] else []
  {
    hide ReadingOf, LatestOf, LatestAt;
    assert (log + [b])[..|log + [b]| - 1] == log;
  }

  /** A block read at a position up to which everything has been read is accepted only if it leads. */
  lemma ReadingLeads(parse: Parse, log: seq<Block>, chain: seq<Block>, seen: nat, n: nat, key: Key)
    requires n <= seen <= |chain| && n < |chain| && HoldsNewest(parse, LatestOf(parse, log), chain[..seen])
    requires AllLead(parse, Accepted(parse, log, key), chain, key)
    ensures AllLead(parse, Accepted(parse, log + [chain[n]], key), chain, key)
  {
    hide ReadingOf, LatestOf, Leads;
    AcceptedOneMore(parse, log, chain[n], key);
    if Takes(parse, LatestOf(parse, log), chain[n], key) {
      var r := ReadingOf(parse, chain[n]).value.1;
      forall i, r' | 0 <= i < n && Reports(parse, chain[..n][i], key, r') ensures r'.at <= r.at {
        assert chain[..seen][i] == chain[i];
      }
      assert Leads(parse, chain, n, key, r) by { LeadsHere(parse, chain, n, key, r); }
    }
  }

  lemma LeadsHere(parse: Parse, chain: seq<Block>, n: nat, key: Key, r: Reading)
    requires n < |chain| && Reports(parse, chain[n], key, r) && NoneNewer(parse, chain[..n], key, r.at)
    ensures Leads(parse, chain, n, key, r)
  {
  }

  lemma {:induction false} StretchLeads(parse: Parse, log: seq<Block>, chain: seq<Block>, seen: nat, from: nat,
                                        end: nat, key: Key, cap: nat)
    requires from <= seen <= |chain| && from <= end <= |chain|
    requires Newest(parse, Scan(parse, log, cap), chain[..seen])
    requires AllLead(parse, Accepted(parse, log, key), chain, key)
    ensures AllLead(parse, Accepted(parse, log + chain[from..end], key), chain, key)
    decreases end
  {
    hide IsMaximum, HoldsNewest, Consume, Accepted, AllLead, LatestOf;
    if from == end {
      assert log + chain[from..end] == log;
    } else {
      var before := log + chain[from..end - 1];
      StretchLeads(parse, log, chain, seen, from, end - 1, key, cap);
      ReadStretch(parse, Scan(parse, log, cap), chain, seen, from, end - 1, cap);
      ConsumeConcat(parse, EMPTY_CACHE, log, chain[from..end - 1], cap);
      LatestIsLatest(parse, before, cap);
      ReadingLeads(parse, before, chain, Max(seen, end - 1), end - 1, key);
      assert before + [chain[end - 1]] == log + chain[from..end];
    }
  }

  ghost predicate LogOk(parse: Parse, w: World, log: seq<Block>, key: Key, cap: nat) {
    w.cache == Scan(parse, log, cap) && AllLead(parse, Accepted(parse, log, key), w.chain, key)
  }

  lemma StepKeepsLog(parse: Parse, w: World, l: Label, log: seq<Block>, key: Key, cap: nat)
    requires WorldOk(parse, w) && Enabled(w, l) && LogOk(parse, w, log, key, cap)
    ensures LogOk(parse, Apply(parse, w, l, cap), log + Delivered(w, l), key, cap)
  {
    hide Newest, Consume, Accepted, AllLead, ServeRange, Decimal;
    var w' := Apply(parse, w, l, cap);
    if l.Deliver? {
      var f := w.flights[l.r];
      assert FlightOk(w, f);
      var n :| f.from < n <= |w.chain| && Carries(w.chain, f, n);
      ConsumeConcat(parse, EMPTY_CACHE, log, w.chain[f.from..n], cap);
      StretchLeads(parse, log, w.chain, w.seen, f.from, n, key, cap);
    } else {
      assert log + Delivered(w, l) == log;
      AllLeadFurther(parse, Accepted(parse, log, key), w.chain, w'.chain, key);
    }
  }

  /** In every run the cache is what one scan of everything delivered gives, and whatever a history has
      accepted is as new as every reading of its sensor before it on the ledger. */
  lemma {:induction false} CacheIsScanOfLog(parse: Parse, ws: seq<World>, ls: seq<Label>, key: Key, cap: nat)
    requires IsRun(parse, ws, ls, cap) && Initial(ws[0])
    ensures LogOk(parse, Last(ws), Log(ws, ls), key, cap)
    decreases |ls|
  {
    hide Apply, Initial, LogOk, WorldOk, Delivered, Scan;
    if ls == [] {
      NothingLogged(parse, ws[0], key, cap);
    } else {
      var n := |ls| - 1;
      CacheIsScanOfLog(parse, ws[..n + 1], ls[..n], key, cap);
      RunOk(parse, ws[..n + 1], ls[..n], cap);
      StepKeepsLog(parse, ws[n], ls[n], Log(ws[..n + 1], ls[..n]), key, cap);
    }
  }

  lemma NothingLogged(parse: Parse, w: World, key: Key, cap: nat)
    requires Initial(w)
    ensures LogOk(parse, w, [], key, cap)
  {
  }

  // ----- the condition -------------------------------------------------------------------------------------

  /** Readings that share an instant, and that a scan accepts, share their sequence number. */
  ghost predicate TiesShareSeq(parse: Parse, q: SeqOf, blocks: seq<Block>, key: Key) {
    forall i, j, r, r' :: Leads(parse, blocks, i, key, r) && Leads(parse, blocks, j, key, r') && r.at == r'.at ==>
      q(r.seqno) == q(r'.seqno)
  }

  lemma SharedSeqIsOrdered(parse: Parse, q: SeqOf, blocks: seq<Block>, log: seq<Block>, key: Key)
    requires TiesShareSeq(parse, q, blocks, key) && AllLead(parse, Accepted(parse, log, key), blocks, key)
    ensures SeqOrdered(q, Accepted(parse, log, key))
  {
    hide Accepted, Leads;
    var h := Accepted(parse, log, key);
    forall i, j | 0 <= i < j < |h| && h[i].at == h[j].at ensures q(h[i].seqno) <= q(h[j].seqno) {
      assert h[i] in h && h[j] in h;
    }
  }

  /** Refreshes may overlap in any way: where every sensor's ties share their sequence number, every
      readings() over any sensors is answered as if nothing had been evicted. */
  lemma OverlappingAnswersForADevice(parse: Parse, q: SeqOf, ws: seq<World>, ls: seq<Label>, keys: seq<Key>,
                                     since: Option<int>, cap: nat, limit: nat)
    requires IsRun(parse, ws, ls, cap) && Initial(ws[0]) && 1 <= limit <= cap
    requires forall i :: 0 <= i < |keys| ==> TiesShareSeq(parse, q, Last(ws).chain, keys[i])
    ensures Query(q, Histories(Last(ws).cache.history, keys), since, limit)
         == Query(q, Uncapped(parse, Log(ws, ls), keys), since, limit)
  {
    hide IsRun, Initial, Query, Scan, Accepted, AllLead, TiesShareSeq, SeqOrdered, Log, Uncapped, Histories;
    var log := Log(ws, ls);
    RunOk(parse, ws, ls, cap);
    forall i | 0 <= i < |keys| ensures SeqOrdered(q, Accepted(parse, log, keys[i])) {
      CacheIsScanOfLog(parse, ws, ls, keys[i], cap);
      SharedSeqIsOrdered(parse, q, Last(ws).chain, log, keys[i]);
    }
    CacheIsScanOfLog(parse, ws, ls, Key("", ""), cap);
    CacheAnswersLikeUnbounded(parse, q, log, keys, since, cap, limit);
  }

  lemma SharedSeqIsSafe(parse: Parse, q: SeqOf, blocks: seq<Block>, log: seq<Block>, key: Key, cap: nat)
    requires TiesShareSeq(parse, q, blocks, key) && cap >= 1
    requires AllLead(parse, Accepted(parse, log, key), blocks, key)
    ensures EvictionSafe(q, Accepted(parse, log, key), cap)
  {
    hide Accepted, Leads, EvictionSafe;
    AcceptedOrder(parse, log, key);
    SharedSeqIsOrdered(parse, q, blocks, log, key);
    OrderedIsSafe(q, Accepted(parse, log, key), cap);
  }

  /** What the cache answers about one sensor at the end of a run, and what it would answer had nothing
      been evicted. */
  ghost predicate AnswersInFull(parse: Parse, q: SeqOf, ws: seq<World>, ls: seq<Label>, key: Key, cap: nat)
    requires ws != []
  {
    SameAnswers(q, [HistoryAt(Last(ws).cache.history, key)], [Accepted(parse, Log(ws, ls), key)], cap)
  }

  lemma AnswersInFullIffSafe(parse: Parse, q: SeqOf, ws: seq<World>, ls: seq<Label>, key: Key, cap: nat)
    requires IsRun(parse, ws, ls, cap) && Initial(ws[0]) && cap >= 1
    ensures AnswersInFull(parse, q, ws, ls, key, cap) <==> EvictionSafe(q, Accepted(parse, Log(ws, ls), key), cap)
  {
    hide IsRun, Initial, SameAnswers, EvictionSafe, Accepted, Scan, Log, AllLead, TimeOrdered;
    var log := Log(ws, ls);
    CacheIsScanOfLog(parse, ws, ls, key, cap);
    HistoryIsTail(parse, log, cap, key);
    AcceptedOrder(parse, log, key);
    BoundedAnswersExactlyWhenSafe(q, Accepted(parse, log, key), cap);
  }

  // ----- a run that shows a difference ---------------------------------------------------------------------

  /** Reading as far as nothing is newer accepts a reading. */
  lemma AcceptedNext(parse: Parse, log: seq<Block>, read: seq<Block>, b: Block, key: Key, r: Reading)
    requires HoldsNewest(parse, LatestOf(parse, log), read) && Reports(parse, b, key, r)
    requires NoneNewer(parse, read, key, r.at)
    ensures Accepted(parse, log + [b], key) == Accepted(parse, log, key) + [r]
  {
    hide ReadingOf, LatestOf, Accepted;
    AcceptedOneMore(parse, log, b, key);
    var latest := LatestOf(parse, log);
    if key in latest {
      var i :| 0 <= i < |read| && Reports(parse, read[i], key, latest[key]);
    }
  }

  lemma {:induction false} AcceptedGrows(parse: Parse, log: seq<Block>, more: seq<Block>, key: Key)
    ensures Accepted(parse, log, key) <= Accepted(parse, log + more, key)
    decreases |more|
  {
    hide ReadingOf, LatestOf, LatestAt;
    if more == [] {
      assert log + more == log;
    } else {
      var n := |more| - 1;
      AcceptedGrows(parse, log, more[..n], key);
      assert (log + more)[..|log + more| - 1] == log + more[..n];
    }
  }

  /** Two readings of one instant accepted in an order in which their sequence numbers fall: some
      capacity holds the later and has evicted the earlier, which sorts behind it. */
  lemma FallingIsUnsafe(q: SeqOf, h: seq<Reading>, i: nat, j: nat) returns (cap: nat)
    requires i < j < |h| && h[i].at == h[j].at && h[i].sensor == h[j].sensor && q(h[i].seqno) > q(h[j].seqno)
    ensures cap >= 1 && !EvictionSafe(q, h, cap)
  {
    cap := |h| - j;
    JsonText.BeforeTotal(h[i].sensor, h[j].sensor);
    assert !AtMost(q, h[i], h[j]);
  }

  /** b is accepted after first, and later after second, in whatever is read from there on. */
  lemma FallingLog(parse: Parse, q: SeqOf, first: seq<Block>, b: Block, second: seq<Block>, b': Block, rest: seq<Block>,
                   read: seq<Block>, read': seq<Block>, key: Key, r: Reading, r': Reading)
    returns (cap: nat)
    requires first + [b] <= second && r.at == r'.at && q(r.seqno) > q(r'.seqno)
    requires HoldsNewest(parse, LatestOf(parse, first), read) && NoneNewer(parse, read, key, r.at)
    requires HoldsNewest(parse, LatestOf(parse, second), read') && NoneNewer(parse, read', key, r.at)
    requires Reports(parse, b, key, r) && Reports(parse, b', key, r')
    ensures cap >= 1 && !EvictionSafe(q, Accepted(parse, second + [b'] + rest, key), cap)
  {
    hide HoldsNewest, NoneNewer, Reports, Accepted, EvictionSafe, LatestOf;
    AcceptedNext(parse, first, read, b, key, r);
    AcceptedNext(parse, second, read', b', key, r');
    assert second == first + [b] + second[|first| + 1..];
    AcceptedGrows(parse, first + [b], second[|first| + 1..], key);
    AcceptedGrows(parse, second + [b'], rest, key);
    var h := Accepted(parse, second + [b'] + rest, key);
    AcceptedOrder(parse, second + [b'] + rest, key);
    var i, j := |Accepted(parse, first, key)|, |Accepted(parse, second, key)|;
    assert h[i] == r && h[j] == r';
    cap := FallingIsUnsafe(q, h, i, j);
  }

  lemma ScanHolds(parse: Parse, blocks: seq<Block>)
    ensures HoldsNewest(parse, LatestOf(parse, blocks), blocks)
  {
    hide IsMaximum, HoldsNewest, Consume, LatestOf;
    ScanIsNewest(parse, blocks, 1);
    LatestIsLatest(parse, blocks, 1);
  }

  lemma ReplayHolds(parse: Parse, blocks: seq<Block>, i: nat)
    requires i <= |blocks|
    ensures HoldsNewest(parse, LatestOf(parse, blocks + blocks[..i]), blocks)
  {
    hide IsMaximum, HoldsNewest, Consume, LatestOf;
    ScanIsNewest(parse, blocks, 1);
    assert blocks[0..i] == blocks[..i] && blocks[..|blocks|] == blocks;
    ReadStretch(parse, Scan(parse, blocks, 1), blocks, |blocks|, 0, i, 1);
    ConsumeConcat(parse, EMPTY_CACHE, blocks, blocks[..i], 1);
    LatestIsLatest(parse, blocks + blocks[..i], 1);
  }

  /** The ledger itself has the falling pair: one refresh reads it. */
  lemma FallsInScan(parse: Parse, q: SeqOf, blocks: seq<Block>, i: nat, j: nat, key: Key, r: Reading, r': Reading)
    returns (ws: seq<World>, ls: seq<Label>, cap: nat)
    requires i < j && |blocks| < U64 && Leads(parse, blocks, i, key, r) && Leads(parse, blocks, j, key, r')
    requires r.at == r'.at && q(r.seqno) > q(r'.seqno)
    ensures cap >= 1 && EndsWith(parse, ws, ls, blocks, cap)
    ensures !EvictionSafe(q, Accepted(parse, Log(ws, ls), key), cap)
  {
    hide Reports, HoldsNewest, NoneNewer, LatestOf, Accepted, EvictionSafe, Consume, IsRun, Initial, Log;
    var rest := blocks[j + 1..] + blocks[..1];
    ScanHolds(parse, blocks[..i]);
    ScanHolds(parse, blocks[..j]);
    cap := FallingLog(parse, q, blocks[..i], blocks[i], blocks[..j], blocks[j], rest, blocks[..i], blocks[..j],
        key, r, r');
    assert blocks[..j] + [blocks[j]] + rest == blocks + blocks[..1];
    ws, ls := TwoRefreshesCross(parse, blocks, 0, cap);
  }

  /** The pair rises on the ledger, and reading its first half again makes it fall. */
  lemma FallsInReplay(parse: Parse, q: SeqOf, blocks: seq<Block>, i: nat, j: nat, key: Key, r: Reading, r': Reading)
    returns (ws: seq<World>, ls: seq<Label>, cap: nat)
    requires i < j && |blocks| < U64 && Leads(parse, blocks, i, key, r) && Leads(parse, blocks, j, key, r')
    requires r.at == r'.at && q(r.seqno) < q(r'.seqno)
    ensures cap >= 1 && EndsWith(parse, ws, ls, blocks, cap)
    ensures !EvictionSafe(q, Accepted(parse, Log(ws, ls), key), cap)
  {
    hide HoldsNewest, LatestOf, Accepted, EvictionSafe, Consume, IsRun, Initial, Log, ReadingOf;
    var f := j + 1;
    var read := blocks[..f];
    var rest := if f < |blocks| then blocks[f - 1..] else [];
    ScanHolds(parse, blocks[..j]);
    ReplayHolds(parse, read, i);
    assert NoneNewer(parse, read, key, r'.at) by { NoneNewerThere(parse, blocks, j, key, r'); }
    assert read[..i] == blocks[..i] && blocks[..j] + [blocks[j]] == read;
    cap := FallingLog(parse, q, blocks[..j], blocks[j], read + read[..i], blocks[i], rest, blocks[..j], read,
        key, r', r);
    assert read + read[..i] + [blocks[i]] == read + blocks[..i + 1];
    if f < |blocks| {
      ws, ls := ThreeRefreshesCross(parse, blocks, i, f, cap);
    } else {
      ws, ls := TwoRefreshesCross(parse, blocks, i, cap);
      assert read == blocks && read + blocks[..i + 1] + rest == blocks + blocks[..i + 1];
    }
  }

  lemma NoneNewerThere(parse: Parse, blocks: seq<Block>, j: nat, key: Key, r: Reading)
    requires Leads(parse, blocks, j, key, r)
    ensures NoneNewer(parse, blocks[..j + 1], key, r.at)
  {
    hide ReadingOf;
    var read := blocks[..j + 1];
    forall i, r' | 0 <= i < |read| && Reports(parse, read[i], key, r') ensures r'.at <= r.at {
      if i < j { assert blocks[..j][i] == blocks[i]; }
    }
  }

  /** Refreshes may overlap in any way: every run that has read a given ledger answers every readings()
      about a sensor, for every capacity, as if nothing had been evicted, if and only if the sensor's
      readings that a scan accepts and that share an instant share their sequence number. */
  lemma OverlappingAnswersInFullIff(parse: Parse, q: SeqOf, blocks: seq<Block>, key: Key)
    requires |blocks| < U64
    ensures TiesShareSeq(parse, q, blocks, key)
      <==> forall ws, ls, cap ::
             cap >= 1 && EndsWith(parse, ws, ls, blocks, cap) ==> AnswersInFull(parse, q, ws, ls, key, cap)
  {
    hide IsRun, Initial, Accepted, AnswersInFull, EvictionSafe, Leads, Scan, Log, AllLead;
    if TiesShareSeq(parse, q, blocks, key) {
      forall ws, ls, cap | cap >= 1 && EndsWith(parse, ws, ls, blocks, cap)
        ensures AnswersInFull(parse, q, ws, ls, key, cap)
      {
        CacheIsScanOfLog(parse, ws, ls, key, cap);
        SharedSeqIsSafe(parse, q, blocks, Log(ws, ls), key, cap);
        AnswersInFullIffSafe(parse, q, ws, ls, key, cap);
      }
    } else {
      var i, j, r, r' :| Leads(parse, blocks, i, key, r) && Leads(parse, blocks, j, key, r') && r.at == r'.at
        && q(r.seqno) != q(r'.seqno);
      var ws, ls, cap := Falls(parse, q, blocks, i, j, key, r, r');
      AnswersInFullIffSafe(parse, q, ws, ls, key, cap);
    }
  }

  lemma Falls(parse: Parse, q: SeqOf, blocks: seq<Block>, i: nat, j: nat, key: Key, r: Reading, r': Reading)
    returns (ws: seq<World>, ls: seq<Label>, cap: nat)
    requires |blocks| < U64 && Leads(parse, blocks, i, key, r) && Leads(parse, blocks, j, key, r')
    requires r.at == r'.at && q(r.seqno) != q(r'.seqno)
    ensures cap >= 1 && EndsWith(parse, ws, ls, blocks, cap)
    ensures !EvictionSafe(q, Accepted(parse, Log(ws, ls), key), cap)
    decreases j < i
  {
    hide EndsWith, EvictionSafe, NoneNewer;
    if j < i {
      ws, ls, cap := Falls(parse, q, blocks, j, i, key, r', r);
    } else if i < j {
      if q(r.seqno) > q(r'.seqno) {
        ws, ls, cap := FallsInScan(parse, q, blocks, i, j, key, r, r');
      } else {
        ws, ls, cap := FallsInReplay(parse, q, blocks, i, j, key, r, r');
      }
    }
  }
}
