/** Over any number of sensors: exactly when the bounded histories answer like unbounded ones. */
module ReadingsExact {
  import opened Records
  import opened Blocks
  import opened Activity
  import opened Readings

  // ----- what has to stay ---------------------------------------------------------------------------

  /** The histories of different sensors. */
  ghost predicate DifferentSensors(histories: seq<seq<Reading>>) {
    forall i, j, k, l ::
      0 <= i < j < |histories| && 0 <= k < |histories[i]| && 0 <= l < |histories[j]| ==>
      histories[i][k].sensor != histories[j][l].sensor
  }

  /** However many sensors there are, at least cap of the readings still held sort after each reading
      that was evicted. */
  ghost predicate EnoughSortAfter(q: SeqOf, histories: seq<seq<Reading>>, cap: nat) {
    forall i, k :: 0 <= i < |histories| && 0 <= k < |histories[i]| - cap ==>
      CountAfter(q, histories[i][k], Kept(histories, cap)) >= cap
  }

  lemma {:induction false} BehindIsAfter(q: SeqOf, x: Reading, s: seq<Reading>)
    requires forall y :: y in s ==> y.sensor != x.sensor
    ensures CountBehind(q, x, s) == CountAfter(q, x, s)
  {
    hide JsonText.Before;
    if s != [] {
      BehindIsAfter(q, x, s[1..]);
      JsonText.BeforeTotal(s[0].sensor, x.sensor);
    }
  }

  lemma {:induction false} KeptComesFrom(histories: seq<seq<Reading>>, cap: nat, y: Reading)
    requires y in Kept(histories, cap)
    ensures exists i :: 0 <= i < |histories| && y in histories[i]
  {
    if histories != [] {
      assert Cut(histories, cap)[1..] == Cut(histories[1..], cap);
      if y in Tail(histories[0], cap) {
        assert y in histories[0];
      } else {
        KeptComesFrom(histories[1..], cap, y);
        var i :| 0 <= i < |histories[1..]| && y in histories[1..][i];
        assert y in histories[i + 1];
      }
    }
  }

  lemma KeptOfOthers(histories: seq<seq<Reading>>, cap: nat, i: nat, k: nat, y: Reading)
    requires DifferentSensors(histories) && i < |histories| && k < |histories[i]| && y in Kept(histories[..i], cap)
    ensures y.sensor != histories[i][k].sensor
  {
    hide Kept;
    KeptComesFrom(histories[..i], cap, y);
    var j :| 0 <= j < i && y in histories[..i][j];
    var l :| 0 <= l < |histories[j]| && histories[j][l] == y;
    assert histories[j][l].sensor != histories[i][k].sensor;
  }

  lemma EnoughIsOutnumbered(q: SeqOf, histories: seq<seq<Reading>>, cap: nat)
    requires EnoughSortAfter(q, histories, cap) && DifferentSensors(histories)
    ensures AllOutnumbered(q, histories, cap)
  {
    hide AtMost, CountAfter, CountBehind, Kept, Tail, DifferentSensors;
    forall i, k | 0 <= i < |histories| && 0 <= k < |histories[i]| - cap
      ensures CountBehind(q, histories[i][k], Kept(histories[..i], cap))
            + CountAfter(q, histories[i][k], Tail(histories[i], cap) + Kept(histories[i + 1..], cap)) >= cap
    {
      var x, before, after := histories[i][k], Kept(histories[..i], cap), Kept(histories[i + 1..], cap);
      forall y | y in before ensures y.sensor != x.sensor {
        KeptOfOthers(histories, cap, i, k, y);
      }
      BehindIsAfter(q, x, before);
      KeptSplits(histories, i, cap);
      assert before + Tail(histories[i], cap) + after == before + (Tail(histories[i], cap) + after);
      CountConcat(q, x, before, Tail(histories[i], cap) + after);
    }
  }

  lemma {:induction false} SinceKeepsLater(q: SeqOf, x: Reading, s: seq<Reading>, since: Option<int>)
    requires since.Some? ==> x.at > since.value
    ensures CountAfter(q, x, Since(s, since)) == CountAfter(q, x, s)
  {
    if s != [] { SinceKeepsLater(q, x, s[1..], since); }
  }

  /** A filter keeps whatever sorts after a reading that it keeps. */
  lemma EnoughAfterSince(q: SeqOf, histories: seq<seq<Reading>>, since: Option<int>, cap: nat)
    requires EnoughSortAfter(q, histories, cap) && AllTimeOrdered(histories)
    ensures EnoughSortAfter(q, Filtered(histories, since), cap)
  {
    hide AtMost, CountAfter, TimeOrdered, Since, All, AllTimeOrdered;
    var filtered := Filtered(histories, since);
    FilterOfCut(histories, since, cap);
    SinceOfAll(Cut(histories, cap), since);
    forall i, k | 0 <= i < |filtered| && 0 <= k < |filtered[i]| - cap
      ensures CountAfter(q, filtered[i][k], Kept(filtered, cap)) >= cap
    {
      var m := FilteredAt(histories, since, i);
      var x := filtered[i][k];
      assert x == histories[i][m + k];
      SinceKeepsOnlyLater(histories[i], since, x);
      SinceKeepsLater(q, x, Kept(histories, cap), since);
    }
  }

  lemma FilteredAt(histories: seq<seq<Reading>>, since: Option<int>, i: nat) returns (m: nat)
    requires AllTimeOrdered(histories) && i < |histories|
    ensures m <= |histories[i]| && Filtered(histories, since)[i] == histories[i][m..]
  {
    m := SinceIsTail(histories[i], since);
  }

  lemma {:induction false} SinceKeepsOnlyLater(s: seq<Reading>, since: Option<int>, x: Reading)
    requires x in Since(s, since)
    ensures x in s && (since.Some? ==> x.at > since.value)
  {
    if s != [] && x in Since(s[1..], since) { SinceKeepsOnlyLater(s[1..], since, x); }
  }

  lemma DifferentAfterSince(histories: seq<seq<Reading>>, since: Option<int>)
    requires DifferentSensors(histories) && AllTimeOrdered(histories)
    ensures DifferentSensors(Filtered(histories, since))
  {
    hide TimeOrdered, AllTimeOrdered, Since;
    var filtered: seq<seq<Reading>> := Filtered(histories, since);
    forall i: nat, j: nat, k: nat, l: nat | i < j < |filtered| && k < |filtered[i]| && l < |filtered[j]|
      ensures filtered[i][k].sensor != filtered[j][l].sensor
    {
      var m := FilteredAt(histories, since, i);
      var n := FilteredAt(histories, since, j);
      assert histories[i][m + k].sensor != histories[j][n + l].sensor;
    }
  }

  lemma NoneInFront(s: seq<Reading>, m: nat, x: Reading)
    requires m <= |s| && forall i :: 0 <= i < m ==> s[i] != x
    ensures multiset(s[m..])[x] == multiset(s)[x]
  {
    assert s == s[..m] + s[m..] && x !in s[..m];
  }

  /** Whatever does not sort before a member of the tail is in the tail with all its copies. */
  lemma NotHidden(q: SeqOf, s: seq<Reading>, cap: nat, x: Reading, y: Reading)
    requires Sorted(q, s) && y in Tail(s, cap) && !AtMost(q, x, y)
    ensures multiset(Tail(s, cap))[x] == multiset(s)[x]
  {
    hide AtMost;
    var t := Tail(s, cap);
    var m := |s| - |t|;
    assert t == s[m..];
    var j :| 0 <= j < |t| && t[j] == y;
    forall i | 0 <= i < m ensures s[i] != x {
      assert AtMost(q, s[i], s[m + j]);
    }
    NoneInFront(s, m, x);
  }

  lemma {:induction false} SomeDoNotSortAfter(q: SeqOf, x: Reading, s: seq<Reading>) returns (y: Reading)
    requires CountAfter(q, x, s) < |s|
    ensures y in s && !AtMost(q, x, y)
  {
    hide AtMost;
    if AtMost(q, x, s[0]) { y := SomeDoNotSortAfter(q, x, s[1..]); } else { y := s[0]; }
  }

  /** What is kept has lost one of an evicted reading. */
  lemma EvictedIsMissing(histories: seq<seq<Reading>>, cap: nat, i: nat, k: nat)
    requires i < |histories| && k < |histories[i]| - cap
    ensures multiset(Kept(histories, cap))[histories[i][k]] < multiset(All(histories))[histories[i][k]]
  {
    hide Kept, All;
    var h, x := histories[i], histories[i][k];
    KeptSplits(histories, i, cap);
    AllSplits(histories, i);
    KeptIsSubset(histories[..i], cap);
    KeptIsSubset(histories[i + 1..], cap);
    EvictionLosesOne(h, cap, k);
    ThreeParts(x, Kept(histories[..i], cap), Tail(h, cap), Kept(histories[i + 1..], cap));
    ThreeParts(x, All(histories[..i]), h, All(histories[i + 1..]));
  }

  lemma EvictionLosesOne(h: seq<Reading>, cap: nat, k: nat)
    requires k < |h| - cap
    ensures multiset(Tail(h, cap))[h[k]] < multiset(h)[h[k]]
  {
    var m := |h| - cap;
    assert h == h[..m] + Tail(h, cap) && h[k] == h[..m][k];
  }

  lemma ThreeParts(x: Reading, a: seq<Reading>, b: seq<Reading>, c: seq<Reading>)
    ensures multiset(a + b + c)[x] == multiset(a)[x] + multiset(b)[x] + multiset(c)[x]
  {
  }

  lemma NothingKept(cap: nat)
    ensures Kept([], cap) == []
  {
  }

  lemma TailIsSubset(h: seq<Reading>, cap: nat)
    ensures multiset(Tail(h, cap)) <= multiset(h)
  {
    assert h == h[..|h| - |Tail(h, cap)|] + Tail(h, cap);
  }

  lemma OneAndTheRest(histories: seq<seq<Reading>>, cap: nat)
    requires histories != []
    ensures Kept(histories, cap) == Tail(histories[0], cap) + Kept(histories[1..], cap)
    ensures All(histories) == histories[0] + All(histories[1..])
  {
    hide Tail;
    assert Cut(histories, cap)[1..] == Cut(histories[1..], cap);
    assert Cut(histories, cap)[0] == Tail(histories[0], cap);
  }

  lemma BothAreSubsets(a: seq<Reading>, b: seq<Reading>, a': seq<Reading>, b': seq<Reading>)
    requires multiset(a) <= multiset(a') && multiset(b) <= multiset(b')
    ensures multiset(a + b) <= multiset(a' + b')
  {
  }

  lemma {:induction false} KeptIsSubset(histories: seq<seq<Reading>>, cap: nat)
    ensures multiset(Kept(histories, cap)) <= multiset(All(histories))
  {
    hide Kept, All, Tail;
    if histories == [] {
      NothingKept(cap);
    } else {
      KeptIsSubset(histories[1..], cap);
      TailIsSubset(histories[0], cap);
      OneAndTheRest(histories, cap);
      BothAreSubsets(Tail(histories[0], cap), Kept(histories[1..], cap), histories[0], All(histories[1..]));
    }
  }

  lemma AgreementIsEnough(q: SeqOf, histories: seq<seq<Reading>>, cap: nat, i: nat, k: nat)
    requires i < |histories| && k < |histories[i]| - cap
    requires Tail(Sort(q, Kept(histories, cap)), cap) == Tail(Sort(q, All(histories)), cap)
    ensures CountAfter(q, histories[i][k], Kept(histories, cap)) >= cap
  {
    hide AtMost, Sort, CountAfter, Kept, All;
    var x, kept, all := histories[i][k], Kept(histories, cap), All(histories);
    var s := Sort(q, kept);
    var t := Tail(s, cap);
    if CountAfter(q, x, kept) < cap {
      SortSorts(q, kept);
      SortSorts(q, all);
      KeptSplits(histories, i, cap);
      assert |kept| >= cap && |t| == cap;
      CountAfterSort(q, x, kept);
      var m := |s| - cap;
      assert s == s[..m] + t;
      CountConcat(q, x, s[..m], t);
      var y := SomeDoNotSortAfter(q, x, t);
      NotHidden(q, Sort(q, all), cap, x, y);
      assert multiset(s) == multiset(s[..m]) + multiset(t);
      EvictedIsMissing(histories, cap, i, k);
      assert false;
    }
  }

  /** For any number of different sensors: the bounded histories answer every query like the unbounded
      ones precisely if at least cap of the readings still held sort after each reading evicted. */
  lemma SeveralSensorsExactlyWhen(q: SeqOf, histories: seq<seq<Reading>>, cap: nat)
    requires AllTimeOrdered(histories) && DifferentSensors(histories) && cap >= 1
    ensures EnoughSortAfter(q, histories, cap) <==>
      SameAnswers(q, Cut(histories, cap), histories, cap)
  {
    hide AtMost, CountAfter, AllTimeOrdered, DifferentSensors, Query, Kept, AllOutnumbered;
    if EnoughSortAfter(q, histories, cap) {
      forall since, limit | 1 <= limit <= cap
        ensures Query(q, Cut(histories, cap), since, limit) == Query(q, histories, since, limit)
      {
        EnoughAfterSince(q, histories, since, cap);
        DifferentAfterSince(histories, since);
        EnoughIsOutnumbered(q, Filtered(histories, since), cap);
        CutDoesNotShow(q, histories, since, cap, limit);
      }
    } else if Query(q, Cut(histories, cap), None, cap) == Query(q, histories, None, cap) {
      WholeQuery(q, histories, cap);
      WholeQuery(q, Cut(histories, cap), cap);
      assert Kept(histories, cap) == All(Cut(histories, cap)) by { KeptIsAllCut(histories, cap); }
      forall i, k | 0 <= i < |histories| && 0 <= k < |histories[i]| - cap
        ensures CountAfter(q, histories[i][k], Kept(histories, cap)) >= cap
      {
        AgreementIsEnough(q, histories, cap, i, k);
      }
      assert false;
    }
  }

  lemma KeptIsAllCut(histories: seq<seq<Reading>>, cap: nat)
    ensures Kept(histories, cap) == All(Cut(histories, cap))
  {
  }

  lemma WholeQuery(q: SeqOf, histories: seq<seq<Reading>>, cap: nat)
    requires cap >= 1
    ensures Query(q, histories, None, cap) == Tail(Sort(q, All(histories)), cap)
  {
    hide Sort, Since;
    FilterFirst(histories, None);
    forall i | 0 <= i < |histories| ensures Filtered(histories, None)[i] == histories[i] {
      SinceKeepsAll(histories[i], None);
    }
    assert Filtered(histories, None) == histories;
  }

  /** So for whatever a cache has consumed, in whatever order, and for any sensors of a device: it answers
      every readings() like an unbounded one under exactly that condition on what it has accepted. */
  lemma CacheAnswersExactlyWhen(parse: Parse, q: SeqOf, blocks: seq<Block>, keys: seq<Key>, cap: nat)
    requires cap >= 1 && forall i, j :: 0 <= i < j < |keys| ==> keys[i].sensor != keys[j].sensor
    ensures EnoughSortAfter(q, Uncapped(parse, blocks, keys), cap) <==>
      SameAnswers(q, Histories(Scan(parse, blocks, cap).history, keys), Uncapped(parse, blocks, keys), cap)
  {
    hide Query, Scan, Accepted, TimeOrdered, HistoryAt, EnoughSortAfter;
    var all := Uncapped(parse, blocks, keys);
    forall i | 0 <= i < |keys|
      ensures TimeOrdered(all[i]) && forall k :: 0 <= k < |all[i]| ==> all[i][k].sensor == keys[i].sensor
    {
      AcceptedOrder(parse, blocks, keys[i]);
    }
    forall i | 0 <= i < |keys| ensures Histories(Scan(parse, blocks, cap).history, keys)[i] == Cut(all, cap)[i] {
      HistoryIsTail(parse, blocks, cap, keys[i]);
    }
    assert Histories(Scan(parse, blocks, cap).history, keys) == Cut(all, cap);
    SeveralSensorsExactlyWhen(q, all, cap);
  }
}
