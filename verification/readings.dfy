/** readings(): filter, sort across sensors, keep the newest tail; and why the bounded history answers
    like an unbounded one. */
module Readings {
  import opened Records
  import opened Blocks
  import opened Activity
  import opened ActivityRefresh

  /** The number a reading's seq stands for in the sort key; absent counts as zero. */
  type SeqOf = Json -> int

  // ----- the query ----------------------------------------------------------------------------------

  /** (at, sensor_id, seq or 0), compared left to right. */
  predicate AtMost(q: SeqOf, a: Reading, b: Reading) {
    a.at < b.at ||
    (a.at == b.at && (JsonText.Before(a.sensor, b.sensor) || (a.sensor == b.sensor && q(a.seqno) <= q(b.seqno))))
  }

  /** Python's sort is stable; inserting each element in front of its equals gives that order. */
  function Insert(q: SeqOf, x: Reading, s: seq<Reading>): seq<Reading> {
    if s == [] || AtMost(q, x, s[0]) then [x] + s else [s[0]] + Insert(q, x, s[1..])
  }

  function Sort(q: SeqOf, s: seq<Reading>): seq<Reading> {
    if s == [] then [] else Insert(q, s[0], Sort(q, s[1..]))
  }

  function Since(s: seq<Reading>, since: Option<int>): seq<Reading> {
    if s == [] then []
    else if since.Some? && s[0].at <= since.value then Since(s[1..], since)
    else [s[0]] + Since(s[1..], since)
  }

  /** The histories of a device's sensors, one after the other, each filtered. */
  function Collect(histories: seq<seq<Reading>>, since: Option<int>): seq<Reading> {
    if histories == [] then [] else Since(histories[0], since) + Collect(histories[1..], since)
  }

  function Query(q: SeqOf, histories: seq<seq<Reading>>, since: Option<int>, limit: nat): seq<Reading> {
    if limit > 0 then Tail(Sort(q, Collect(histories, since)), limit) else []
  }

  ghost function Histories(m: map<Key, seq<Reading>>, keys: seq<Key>): seq<seq<Reading>> {
    seq(|keys|, i requires 0 <= i < |keys| => HistoryAt(m, keys[i]))
  }

  function OfDevice(order: seq<Key>, device: string): seq<Key> {
    if order == [] then []
    else (if order[0].device == device then [order[0]] else []) + OfDevice(order[1..], device)
  }

  /** One sensor, or every sensor of the device, in the order in which the history lists its keys. */
  function Asked(order: seq<Key>, device: string, sensor: Option<string>): seq<Key> {
    match sensor
    case Some(id) => [Key(device, id)]
    case None => OfDevice(order, device)
  }

  method ReadingsOf(q: SeqOf, history: map<Key, seq<Reading>>, order: seq<Key>, device: string,
                    sensor: Option<string>, since: Option<int>, limit: nat)
    returns (series: seq<Reading>)
    ensures series == Query(q, Histories(history, Asked(order, device, sensor)), since, limit)
  {
    hide AtMost, Sort, Tail, Since, Asked, Collect, Histories;
    var keys := Asked(order, device, sensor);
    var collected: seq<Reading> := [];
    CollectNone(history, keys, since);
    for i := 0 to |keys|
      invariant Collect(Histories(history, keys), since) == collected + Collect(Histories(history, keys[i..]), since)
    {
      CollectNext(history, keys[i..], since);
      assert keys[i..][0] == keys[i] && keys[i..][1..] == keys[i + 1..];
      collected := CollectOne(collected, if keys[i] in history then history[keys[i]] else [], since);
    }
    assert keys[|keys|..] == [] && collected + [] == collected;
    series := if limit > 0 then Tail(Sort(q, collected), limit) else [];
  }

  lemma CollectNone(history: map<Key, seq<Reading>>, keys: seq<Key>, since: Option<int>)
    ensures Collect(Histories(history, []), since) == [] && keys[0..] == keys
  {
  }

  lemma CollectNext(history: map<Key, seq<Reading>>, keys: seq<Key>, since: Option<int>)
    requires keys != []
    ensures Collect(Histories(history, keys), since)
         == Since(HistoryAt(history, keys[0]), since) + Collect(Histories(history, keys[1..]), since)
  {
    hide Since;
    assert Histories(history, keys)[1..] == Histories(history, keys[1..]);
  }

  method CollectOne(before: seq<Reading>, h: seq<Reading>, since: Option<int>) returns (collected: seq<Reading>)
    ensures collected == before + Since(h, since)
  {
    collected := before;
    for j := 0 to |h|
      invariant before + Since(h, since) == collected + Since(h[j..], since)
    {
      assert h[j..][0] == h[j] && h[j..][1..] == h[j + 1..];
      if !(since.Some? && h[j].at <= since.value) {
        collected := collected + [h[j]];
      }
    }
    assert h[|h|..] == [];
  }

  // ----- the order ------------------------------------------------------------------------------------

  lemma Total(q: SeqOf, a: Reading, b: Reading)
    ensures AtMost(q, a, b) || AtMost(q, b, a)
  {
    JsonText.BeforeTotal(a.sensor, b.sensor);
  }

  lemma Transitive(q: SeqOf, a: Reading, b: Reading, c: Reading)
    requires AtMost(q, a, b) && AtMost(q, b, c)
    ensures AtMost(q, a, c)
  {
    hide JsonText.Before;
    if JsonText.Before(a.sensor, b.sensor) && JsonText.Before(b.sensor, c.sensor) {
      JsonText.BeforeTransitive(a.sensor, b.sensor, c.sensor);
    }
  }

  ghost predicate Sorted(q: SeqOf, s: seq<Reading>) {
    forall i, j :: 0 <= i < j < |s| ==> AtMost(q, s[i], s[j])
  }

  lemma {:induction false} InsertKeepsElements(q: SeqOf, x: Reading, s: seq<Reading>)
    ensures multiset(Insert(q, x, s)) == multiset([x] + s) && |Insert(q, x, s)| == |s| + 1
  {
    hide AtMost;
    if s != [] && !AtMost(q, x, s[0]) {
      InsertKeepsElements(q, x, s[1..]);
      assert s == [s[0]] + s[1..];
    }
  }

  lemma SortedPrepend(q: SeqOf, x: Reading, s: seq<Reading>)
    requires Sorted(q, s) && forall y :: y in s ==> AtMost(q, x, y)
    ensures Sorted(q, [x] + s)
  {
    hide AtMost;
  }

  lemma {:induction false} InsertSorted(q: SeqOf, x: Reading, s: seq<Reading>)
    requires Sorted(q, s)
    ensures Sorted(q, Insert(q, x, s)) && multiset(Insert(q, x, s)) == multiset([x] + s)
    ensures |Insert(q, x, s)| == |s| + 1
  {
    hide AtMost, Sorted;
    InsertKeepsElements(q, x, s);
    if s == [] || AtMost(q, x, s[0]) {
      forall y | y in s ensures AtMost(q, x, y) {
        HeadIsLeast(q, s, y);
        Transitive(q, x, s[0], y);
      }
      SortedPrepend(q, x, s);
    } else {
      TailIsSorted(q, s);
      InsertSorted(q, x, s[1..]);
      Total(q, x, s[0]);
      var t := Insert(q, x, s[1..]);
      forall y | y in t ensures AtMost(q, s[0], y) {
        assert y in multiset([x] + s[1..]);
        if y != x { HeadIsLeast(q, s, y); }
      }
      SortedPrepend(q, s[0], t);
    }
  }

  lemma HeadIsLeast(q: SeqOf, s: seq<Reading>, y: Reading)
    requires Sorted(q, s) && y in s
    ensures AtMost(q, s[0], y)
  {
    var i :| 0 <= i < |s| && s[i] == y;
    if i == 0 { Total(q, y, y); }
  }

  lemma TailIsSorted(q: SeqOf, s: seq<Reading>)
    requires Sorted(q, s) && s != []
    ensures Sorted(q, s[1..])
  {
    hide AtMost;
  }

  lemma {:induction false} SortSorts(q: SeqOf, s: seq<Reading>)
    ensures Sorted(q, Sort(q, s)) && multiset(Sort(q, s)) == multiset(s) && |Sort(q, s)| == |s|
  {
    hide AtMost;
    if s != [] {
      SortSorts(q, s[1..]);
      InsertSorted(q, s[0], Sort(q, s[1..]));
      assert s == [s[0]] + s[1..];
    }
  }

  /** Neither sorts before the other. */
  predicate Level(q: SeqOf, a: Reading, b: Reading) {
    AtMost(q, a, b) && AtMost(q, b, a)
  }

  ghost function LevelWith(q: SeqOf, x: Reading, s: seq<Reading>): seq<Reading> {
    if s == [] then [] else (if Level(q, x, s[0]) then [s[0]] else []) + LevelWith(q, x, s[1..])
  }

  lemma {:induction false} InsertIsStable(q: SeqOf, x: Reading, y: Reading, s: seq<Reading>)
    ensures LevelWith(q, x, Insert(q, y, s)) == (if Level(q, x, y) then [y] else []) + LevelWith(q, x, s)
  {
    hide AtMost;
    if s == [] || AtMost(q, y, s[0]) {
      assert ([y] + s)[1..] == s;
    } else {
      InsertIsStable(q, x, y, s[1..]);
      var rest := Insert(q, y, s[1..]);
      assert ([s[0]] + rest)[1..] == rest;
      if Level(q, x, y) && Level(q, x, s[0]) {
        Transitive(q, y, x, s[0]);
      }
    }
  }

  /** Readings that tie keep the order they were collected in. */
  lemma {:induction false} SortIsStable(q: SeqOf, x: Reading, s: seq<Reading>)
    ensures LevelWith(q, x, Sort(q, s)) == LevelWith(q, x, s)
  {
    hide AtMost;
    if s != [] {
      SortIsStable(q, x, s[1..]);
      InsertIsStable(q, x, s[0], Sort(q, s[1..]));
    }
  }

  // ----- dropping an early element -----------------------------------------------------------------------

  /** Two sorted lists that differ only by one extra element x of the first: front is what precedes
      it, back what follows it. */
  ghost predicate OneExtra(q: SeqOf, with: seq<Reading>, without: seq<Reading>, front: seq<Reading>, x: Reading,
                           back: seq<Reading>) {
    with == front + [x] + back && without == front + back && Sorted(q, with)
  }

  lemma {:induction false} InsertInto(q: SeqOf, a: Reading, front: seq<Reading>, rest: seq<Reading>)
    requires forall i :: 0 <= i < |front| ==> !AtMost(q, a, front[i])
    ensures Insert(q, a, front + rest) == front + Insert(q, a, rest)
  {
    hide AtMost;
    if front == [] {
      assert front + rest == rest;
    } else {
      assert (front + rest)[1..] == front[1..] + rest;
      InsertInto(q, a, front[1..], rest);
    }
  }

  /** An element that goes into the front goes there whatever follows. */
  lemma {:induction false} InsertIntoFront(q: SeqOf, a: Reading, front: seq<Reading>, rest: seq<Reading>)
    requires exists i :: 0 <= i < |front| && AtMost(q, a, front[i])
    ensures Insert(q, a, front + rest) == Insert(q, a, front) + rest
  {
    hide AtMost;
    assert (front + rest)[0] == front[0];
    if AtMost(q, a, front[0]) {
      assert [a] + (front + rest) == [a] + front + rest;
    } else {
      assert (front + rest)[1..] == front[1..] + rest;
      var i :| 0 <= i < |front| && AtMost(q, a, front[i]);
      assert AtMost(q, a, front[1..][i - 1]);
      InsertIntoFront(q, a, front[1..], rest);
      assert [front[0]] + (Insert(q, a, front[1..]) + rest) == [front[0]] + Insert(q, a, front[1..]) + rest;
    }
  }

  lemma InsertedInFront(q: SeqOf, a: Reading, with: seq<Reading>, front: seq<Reading>, x: Reading, back: seq<Reading>,
                        i: nat)
    requires with == front + [x] + back && Sorted(q, with) && i < |front| && AtMost(q, a, front[i])
    ensures AtMost(q, a, x)
  {
    hide AtMost;
    assert with[i] == front[i] && with[|front|] == x;
    Transitive(q, a, front[i], x);
  }

  /** Inserting one more element keeps the difference at one, and adds to what follows it if the new
      element sorts behind. */
  lemma InsertKeepsOneExtra(q: SeqOf, a: Reading, with: seq<Reading>, without: seq<Reading>, front: seq<Reading>,
                            x: Reading, back: seq<Reading>)
    returns (front': seq<Reading>, back': seq<Reading>)
    requires OneExtra(q, with, without, front, x, back)
    ensures OneExtra(q, Insert(q, a, with), Insert(q, a, without), front', x, back')
    ensures |back'| == |back| + if AtMost(q, a, x) then 0 else 1
  {
    hide AtMost, Insert;
    InsertSorted(q, a, with);
    assert with == front + ([x] + back);
    if exists i :: 0 <= i < |front| && AtMost(q, a, front[i]) {
      InsertIntoFront(q, a, front, [x] + back);
      InsertIntoFront(q, a, front, back);
      front', back' := Insert(q, a, front), back;
      var i :| 0 <= i < |front| && AtMost(q, a, front[i]);
      InsertedInFront(q, a, with, front, x, back, i);
      assert front' + ([x] + back) == front' + [x] + back;
    } else {
      InsertInto(q, a, front, [x] + back);
      InsertInto(q, a, front, back);
      if AtMost(q, a, x) {
        InsertBeforeBack(q, a, with, front, x, back);
        front', back' := front + [a], back;
        assert front + ([a] + ([x] + back)) == front' + [x] + back && front + ([a] + back) == front' + back;
      } else {
        InsertBehind(q, a, x, back);
        front', back' := front, Insert(q, a, back);
        assert front + ([x] + back') == front + [x] + back';
        InsertLength(q, a, back);
      }
    }
  }

  lemma InsertBehind(q: SeqOf, a: Reading, x: Reading, back: seq<Reading>)
    requires !AtMost(q, a, x)
    ensures Insert(q, a, [x] + back) == [x] + Insert(q, a, back)
  {
    hide AtMost;
    assert ([x] + back)[1..] == back;
  }

  lemma {:induction false} InsertLength(q: SeqOf, a: Reading, s: seq<Reading>)
    ensures |Insert(q, a, s)| == |s| + 1
  {
    hide AtMost;
    if s != [] && !AtMost(q, a, s[0]) { InsertLength(q, a, s[1..]); }
  }

  lemma InsertBeforeBack(q: SeqOf, a: Reading, with: seq<Reading>, front: seq<Reading>, x: Reading, back: seq<Reading>)
    requires with == front + [x] + back && Sorted(q, with) && AtMost(q, a, x)
    ensures Insert(q, a, back) == [a] + back && Insert(q, a, [x] + back) == [a] + ([x] + back)
  {
    hide AtMost;
    if back != [] {
      assert with[|front|] == x && with[|front| + 1] == back[0];
      Transitive(q, a, x, back[0]);
    }
  }

  /** How many of these sort after x. */
  ghost function CountAfter(q: SeqOf, x: Reading, s: seq<Reading>): nat {
    if s == [] then 0 else (if AtMost(q, x, s[0]) then 1 else 0) + CountAfter(q, x, s[1..])
  }

  /** How many of these sort strictly after x. */
  ghost function CountBehind(q: SeqOf, x: Reading, s: seq<Reading>): nat {
    if s == [] then 0 else (if AtMost(q, s[0], x) then 0 else 1) + CountBehind(q, x, s[1..])
  }

  lemma {:induction false} CountAfterInsert(q: SeqOf, x: Reading, y: Reading, s: seq<Reading>)
    ensures CountAfter(q, x, Insert(q, y, s)) == CountAfter(q, x, [y] + s)
  {
    hide AtMost;
    assert ([y] + s)[1..] == s;
    if s != [] && !AtMost(q, y, s[0]) {
      CountAfterInsert(q, x, y, s[1..]);
      assert ([y] + s[1..])[1..] == s[1..];
    }
  }

  lemma {:induction false} CountAfterSort(q: SeqOf, x: Reading, s: seq<Reading>)
    ensures CountAfter(q, x, Sort(q, s)) == CountAfter(q, x, s)
  {
    hide AtMost;
    if s != [] {
      CountAfterSort(q, x, s[1..]);
      CountAfterInsert(q, x, s[0], Sort(q, s[1..]));
      assert ([s[0]] + Sort(q, s[1..]))[1..] == Sort(q, s[1..]);
    }
  }

  lemma {:induction false} CountAtMostLength(q: SeqOf, x: Reading, s: seq<Reading>)
    ensures CountAfter(q, x, s) <= |s|
  {
    hide AtMost;
    if s != [] { CountAtMostLength(q, x, s[1..]); }
  }

  lemma PrependKeepsOneExtra(q: SeqOf, y: Reading, with: seq<Reading>, without: seq<Reading>, front: seq<Reading>,
                             x: Reading, back: seq<Reading>)
    requires OneExtra(q, with, without, front, x, back) && Sorted(q, [y] + with)
    ensures OneExtra(q, [y] + with, [y] + without, [y] + front, x, back)
  {
    hide Sorted;
    assert [y] + with == [y] + front + [x] + back;
    assert [y] + without == [y] + front + back;
  }

  /** Inserting x into a sorted list splits it: everything that sorts after x stays behind it. */
  lemma {:induction false} InsertSplits(q: SeqOf, x: Reading, s: seq<Reading>)
    returns (front: seq<Reading>, back: seq<Reading>)
    requires Sorted(q, s)
    ensures OneExtra(q, Insert(q, x, s), s, front, x, back) && |back| >= CountAfter(q, x, s)
  {
    hide AtMost;
    InsertSorted(q, x, s);
    CountAtMostLength(q, x, s);
    if s == [] || AtMost(q, x, s[0]) {
      front, back := [], s;
      assert [x] + s == [] + [x] + s;
    } else {
      var f, b := InsertSplits(q, x, s[1..]);
      assert s == [s[0]] + s[1..];
      PrependKeepsOneExtra(q, s[0], Insert(q, x, s[1..]), s[1..], f, x, b);
      front, back := [s[0]] + f, b;
    }
  }

  /** Sorting leaves behind an element everything that is listed after it and sorts after it, and what is
      listed before it and sorts strictly after it. */
  lemma {:induction false} EarlyElementIsHidden(q: SeqOf, before: seq<Reading>, x: Reading, after: seq<Reading>)
    returns (front: seq<Reading>, back: seq<Reading>)
    ensures OneExtra(q, Sort(q, before + [x] + after), Sort(q, before + after), front, x, back)
    ensures |back| >= CountBehind(q, x, before) + CountAfter(q, x, after)
    decreases |before|
  {
    hide AtMost;
    if before == [] {
      SortSorts(q, after);
      CountAfterSort(q, x, after);
      assert [] + [x] + after == [x] + after && ([x] + after)[1..] == after && [] + after == after;
      front, back := InsertSplits(q, x, Sort(q, after));
    } else {
      var f, b := EarlyElementIsHidden(q, before[1..], x, after);
      assert (before + [x] + after)[1..] == before[1..] + [x] + after;
      assert (before + after)[1..] == before[1..] + after;
      front, back := InsertKeepsOneExtra(q, before[0], Sort(q, before[1..] + [x] + after),
          Sort(q, before[1..] + after), f, x, b);
    }
  }

  lemma HiddenFromTail(front: seq<Reading>, x: Reading, back: seq<Reading>, n: nat)
    requires n <= |back|
    ensures Tail(front + [x] + back, n) == Tail(front + back, n)
  {
    var s, t := front + [x] + back, front + back;
    assert s[|s| - n..] == back[|back| - n..] && t[|t| - n..] == back[|back| - n..];
  }

  // ----- the bounded history -----------------------------------------------------------------------------

  /** Nothing that a deque of this capacity has evicted sorts after anything it still holds. */
  ghost predicate EvictionSafe(q: SeqOf, h: seq<Reading>, cap: nat) {
    forall i, j :: 0 <= i < |h| - cap <= j < |h| ==> AtMost(q, h[i], h[j])
  }

  ghost predicate TimeOrdered(h: seq<Reading>) {
    forall i, j :: 0 <= i < j < |h| ==> h[i].at <= h[j].at
  }

  /** A sensor's sequence numbers do not fall while its clock stands still. */
  ghost predicate SeqOrdered(q: SeqOf, h: seq<Reading>) {
    forall i, j :: 0 <= i < j < |h| && h[i].at == h[j].at ==> q(h[i].seqno) <= q(h[j].seqno)
  }

  ghost predicate OneSensor(h: seq<Reading>) {
    forall i, j :: 0 <= i < |h| && 0 <= j < |h| ==> h[i].sensor == h[j].sensor
  }

  /** Histories whose sequence numbers behave are safe to cut. */
  lemma OrderedIsSafe(q: SeqOf, h: seq<Reading>, cap: nat)
    requires TimeOrdered(h) && SeqOrdered(q, h) && OneSensor(h) && cap >= 1
    ensures EvictionSafe(q, h, cap)
  {
    hide JsonText.Before;
    forall i, j | 0 <= i < |h| - cap <= j < |h| ensures AtMost(q, h[i], h[j]) {
      assert h[i].at <= h[j].at && h[i].sensor == h[j].sensor;
      if h[i].at == h[j].at { assert q(h[i].seqno) <= q(h[j].seqno); }
    }
  }

  lemma {:induction false} SinceKeepsAll(h: seq<Reading>, since: Option<int>)
    requires since.None? || forall i :: 0 <= i < |h| ==> h[i].at > since.value
    ensures Since(h, since) == h
  {
    if h != [] { SinceKeepsAll(h[1..], since); }
  }

  /** On a time-ordered history the filter keeps a tail. */
  lemma {:induction false} SinceIsTail(h: seq<Reading>, since: Option<int>) returns (k: nat)
    requires TimeOrdered(h)
    ensures k <= |h| && Since(h, since) == h[k..]
  {
    if h == [] {
      k := 0;
    } else if since.Some? && h[0].at <= since.value {
      var k' := SinceIsTail(h[1..], since);
      k := k' + 1;
    } else {
      k := 0;
      SinceKeepsAll(h, since);
    }
  }

  /** Cutting and filtering commute. */
  lemma {:induction false} SinceOfTail(h: seq<Reading>, since: Option<int>, cap: nat)
    requires TimeOrdered(h)
    ensures Since(Tail(h, cap), since) == Tail(Since(h, since), cap)
  {
    SinceShorter(h, since);
    if |h| > cap {
      if since.Some? && h[0].at <= since.value {
        assert Tail(h[1..], cap) == Tail(h, cap);
        SinceOfTail(h[1..], since, cap);
      } else {
        SinceKeepsAll(h, since);
        SinceKeepsAll(Tail(h, cap), since);
      }
    }
  }

  lemma {:induction false} SinceShorter(h: seq<Reading>, since: Option<int>)
    ensures |Since(h, since)| <= |h|
  {
    if h != [] { SinceShorter(h[1..], since); }
  }

  lemma {:induction false} CountAll(q: SeqOf, x: Reading, s: seq<Reading>)
    requires forall i :: 0 <= i < |s| ==> AtMost(q, x, s[i])
    ensures CountAfter(q, x, s) == |s|
  {
    hide AtMost;
    if s != [] { CountAll(q, x, s[1..]); }
  }

  lemma {:induction false} CountConcat(q: SeqOf, x: Reading, a: seq<Reading>, b: seq<Reading>)
    ensures CountAfter(q, x, a + b) == CountAfter(q, x, a) + CountAfter(q, x, b)
  {
    hide AtMost;
    if a == [] {
      assert a + b == b;
    } else {
      assert (a + b)[1..] == a[1..] + b;
      CountConcat(q, x, a[1..], b);
    }
  }

  /** Enough stays in the answer to push each evicted reading of one history out of it. */
  ghost predicate Outnumbered(q: SeqOf, before: seq<Reading>, h: seq<Reading>, after: seq<Reading>, cap: nat) {
    forall k :: 0 <= k < |h| - cap ==>
      CountBehind(q, h[k], before) + CountAfter(q, h[k], Tail(h, cap) + after) >= cap
  }

  /** Cutting one list in the middle of a collection down to cap does not show in the last limit. */
  lemma {:induction false} CutOne(q: SeqOf, before: seq<Reading>, h: seq<Reading>, after: seq<Reading>, cap: nat,
                                  limit: nat)
    requires limit <= cap && Outnumbered(q, before, h, after, cap)
    ensures Tail(Sort(q, before + h + after), limit) == Tail(Sort(q, before + Tail(h, cap) + after), limit)
    decreases |h|
  {
    hide AtMost, Sort, CountAfter, CountBehind;
    if |h| > cap {
      var x, rest := h[0], h[1..];
      var kept, middle := Tail(h, cap), h[1..|h| - cap];
      assert rest == middle + kept && rest + after == middle + (kept + after);
      CountConcat(q, x, middle, kept + after);
      assert before + h + after == before + [x] + (rest + after);
      assert before + rest + after == before + (rest + after);
      var front, back := EarlyElementIsHidden(q, before, x, rest + after);
      HiddenFromTail(front, x, back, limit);
      assert Tail(rest, cap) == kept;
      RestIsOutnumbered(q, before, h, after, cap);
      CutOne(q, before, rest, after, cap, limit);
    }
  }

  lemma RestIsOutnumbered(q: SeqOf, before: seq<Reading>, h: seq<Reading>, after: seq<Reading>, cap: nat)
    requires Outnumbered(q, before, h, after, cap) && |h| > cap
    ensures Outnumbered(q, before, h[1..], after, cap)
  {
    hide AtMost, CountAfter, CountBehind;
    assert Tail(h[1..], cap) == Tail(h, cap);
    assert forall k :: 0 <= k < |h[1..]| - cap ==> h[1..][k] == h[k + 1];
  }

  ghost function Cut(histories: seq<seq<Reading>>, cap: nat): seq<seq<Reading>> {
    seq(|histories|, i requires 0 <= i < |histories| => Tail(histories[i], cap))
  }

  ghost function Filtered(histories: seq<seq<Reading>>, since: Option<int>): seq<seq<Reading>> {
    seq(|histories|, i requires 0 <= i < |histories| => Since(histories[i], since))
  }

  /** One after the other, nothing filtered. */
  ghost function All(histories: seq<seq<Reading>>): seq<Reading> {
    if histories == [] then [] else histories[0] + All(histories[1..])
  }

  ghost function Kept(histories: seq<seq<Reading>>, cap: nat): seq<Reading> { All(Cut(histories, cap)) }

  lemma {:induction false} FilterFirst(histories: seq<seq<Reading>>, since: Option<int>)
    ensures Collect(histories, since) == All(Filtered(histories, since))
  {
    if histories != [] {
      FilterFirst(histories[1..], since);
      assert Filtered(histories, since)[1..] == Filtered(histories[1..], since);
    }
  }

  lemma {:induction false} SinceOfAll(histories: seq<seq<Reading>>, since: Option<int>)
    ensures All(Filtered(histories, since)) == Since(All(histories), since)
  {
    hide Since;
    if histories == [] {
      SinceKeepsAll([], since);
    } else {
      SinceOfAll(histories[1..], since);
      SinceOfConcat(histories[0], All(histories[1..]), since);
      assert Filtered(histories, since)[1..] == Filtered(histories[1..], since);
    }
  }

  lemma {:induction false} SinceOfConcat(a: seq<Reading>, b: seq<Reading>, since: Option<int>)
    ensures Since(a + b, since) == Since(a, since) + Since(b, since)
  {
    if a == [] {
      assert a + b == b;
    } else {
      assert (a + b)[1..] == a[1..] + b;
      SinceOfConcat(a[1..], b, since);
    }
  }

  lemma FilterOfCut(histories: seq<seq<Reading>>, since: Option<int>, cap: nat)
    requires AllTimeOrdered(histories)
    ensures Filtered(Cut(histories, cap), since) == Cut(Filtered(histories, since), cap)
  {
    hide Since, TimeOrdered;
    forall i | 0 <= i < |histories|
      ensures Filtered(Cut(histories, cap), since)[i] == Cut(Filtered(histories, since), cap)[i]
    {
      SinceOfTail(histories[i], since, cap);
    }
  }

  ghost predicate AllTimeOrdered(histories: seq<seq<Reading>>) {
    forall i :: 0 <= i < |histories| ==> TimeOrdered(histories[i])
  }

  lemma {:induction false} AllSplits(histories: seq<seq<Reading>>, i: nat)
    requires i < |histories|
    ensures All(histories) == All(histories[..i]) + histories[i] + All(histories[i + 1..])
    ensures All(histories[i..]) == histories[i] + All(histories[i + 1..])
    ensures All(histories[..i + 1]) == All(histories[..i]) + histories[i]
  {
    assert histories[i..][1..] == histories[i + 1..];
    AllConcat(histories[..i], histories[i..]);
    assert histories[..i] + histories[i..] == histories;
    AllConcat(histories[..i], [histories[i]]);
    assert histories[..i] + [histories[i]] == histories[..i + 1];
    assert All([histories[i]]) == histories[i] + All([]) == histories[i];
  }

  lemma KeptSplits(histories: seq<seq<Reading>>, i: nat, cap: nat)
    requires i < |histories|
    ensures Kept(histories, cap)
         == Kept(histories[..i], cap) + Tail(histories[i], cap) + Kept(histories[i + 1..], cap)
  {
    AllSplits(Cut(histories, cap), i);
    assert Cut(histories, cap)[..i] == Cut(histories[..i], cap);
    assert Cut(histories, cap)[i + 1..] == Cut(histories[i + 1..], cap);
  }

  lemma KeptGrows(histories: seq<seq<Reading>>, i: nat, cap: nat)
    requires i < |histories|
    ensures Kept(histories[..i + 1], cap) == Kept(histories[..i], cap) + Tail(histories[i], cap)
  {
    AllSplits(Cut(histories, cap), i);
    assert Cut(histories, cap)[..i] == Cut(histories[..i], cap);
    assert Cut(histories, cap)[..i + 1] == Cut(histories[..i + 1], cap);
  }

  lemma NothingLeft(s: seq<Reading>)
    ensures s + All([]) == s
  {
  }

  lemma {:induction false} AllConcat(a: seq<seq<Reading>>, b: seq<seq<Reading>>)
    ensures All(a + b) == All(a) + All(b)
  {
    if a == [] {
      assert a + b == b;
    } else {
      assert (a + b)[1..] == a[1..] + b;
      AllConcat(a[1..], b);
    }
  }

  /** In every history each evicted reading is outnumbered by what is kept of all of them: by what sorts
      behind it or, if listed after it, level with it. */
  ghost predicate AllOutnumbered(q: SeqOf, histories: seq<seq<Reading>>, cap: nat) {
    forall i :: 0 <= i < |histories| ==>
      Outnumbered(q, Kept(histories[..i], cap), histories[i], Kept(histories[i + 1..], cap), cap)
  }

  lemma {:induction false} KeptIsPartOf(q: SeqOf, x: Reading, histories: seq<seq<Reading>>, cap: nat)
    ensures CountAfter(q, x, Kept(histories, cap)) <= CountAfter(q, x, All(histories))
  {
    hide AtMost, CountAfter;
    if histories != [] {
      var h, rest := histories[0], histories[1..];
      KeptIsPartOf(q, x, rest, cap);
      assert Cut(histories, cap)[1..] == Cut(rest, cap);
      CountConcat(q, x, h, All(rest));
      CountConcat(q, x, Tail(h, cap), Kept(rest, cap));
      CountConcat(q, x, h[..|h| - |Tail(h, cap)|], Tail(h, cap));
      assert h[..|h| - |Tail(h, cap)|] + Tail(h, cap) == h;
    }
  }

  lemma MoreAfterOutnumbers(q: SeqOf, before: seq<Reading>, h: seq<Reading>, later: seq<seq<Reading>>, cap: nat)
    requires Outnumbered(q, before, h, Kept(later, cap), cap)
    ensures Outnumbered(q, before, h, All(later), cap)
  {
    hide AtMost, CountAfter, CountBehind, Kept;
    forall k | 0 <= k < |h| - cap
      ensures CountBehind(q, h[k], before) + CountAfter(q, h[k], Tail(h, cap) + All(later)) >= cap
    {
      KeptIsPartOf(q, h[k], later, cap);
      CountConcat(q, h[k], Tail(h, cap), All(later));
      CountConcat(q, h[k], Tail(h, cap), Kept(later, cap));
    }
  }

  /** The first i histories cut and the others whole: cutting the rest as well does not show. */
  lemma {:induction false} CutAll(q: SeqOf, histories: seq<seq<Reading>>, i: nat, cap: nat, limit: nat)
    requires limit <= cap && AllOutnumbered(q, histories, cap) && i <= |histories|
    ensures Tail(Sort(q, Kept(histories[..i], cap) + All(histories[i..])), limit)
         == Tail(Sort(q, Kept(histories, cap)), limit)
    decreases |histories| - i
  {
    hide Sort, Outnumbered, Kept, All, Tail;
    if i == |histories| {
      assert histories[..i] == histories && histories[i..] == [];
      NothingLeft(Kept(histories, cap));
    } else {
      var h, before, later := histories[i], Kept(histories[..i], cap), histories[i + 1..];
      AllSplits(histories, i);
      KeptGrows(histories, i, cap);
      MoreAfterOutnumbers(q, before, h, later, cap);
      CutOne(q, before, h, All(later), cap, limit);
      assert before + (h + All(later)) == before + h + All(later);
      CutAll(q, histories, i + 1, cap, limit);
    }
  }

  lemma CutDoesNotShow(q: SeqOf, histories: seq<seq<Reading>>, since: Option<int>, cap: nat, limit: nat)
    requires limit <= cap && AllTimeOrdered(histories) && AllOutnumbered(q, Filtered(histories, since), cap)
    ensures Query(q, Cut(histories, cap), since, limit) == Query(q, histories, since, limit)
  {
    hide Sort, Collect, AllOutnumbered, TimeOrdered, AllTimeOrdered;
    var filtered := Filtered(histories, since);
    FilterFirst(histories, since);
    FilterFirst(Cut(histories, cap), since);
    FilterOfCut(histories, since, cap);
    CutAll(q, filtered, 0, cap, limit);
    assert filtered[..0] == [] && Kept([], cap) == [] && filtered[0..] == filtered;
    assert Kept(filtered[..0], cap) + All(filtered[0..]) == All(filtered);
  }

  ghost predicate AllSafe(q: SeqOf, histories: seq<seq<Reading>>, cap: nat) {
    forall i :: 0 <= i < |histories| ==> TimeOrdered(histories[i]) && EvictionSafe(q, histories[i], cap)
  }

  lemma SafeAfterSince(q: SeqOf, h: seq<Reading>, since: Option<int>, cap: nat)
    requires TimeOrdered(h) && EvictionSafe(q, h, cap)
    ensures EvictionSafe(q, Since(h, since), cap)
  {
    hide AtMost;
    var k := SinceIsTail(h, since);
    forall i, j | 0 <= i < |h| - k - cap <= j < |h| - k ensures AtMost(q, h[k..][i], h[k..][j]) {
      assert AtMost(q, h[k + i], h[k + j]);
    }
  }

  lemma SafeIsOutnumbered(q: SeqOf, before: seq<Reading>, h: seq<Reading>, after: seq<Reading>, cap: nat)
    requires EvictionSafe(q, h, cap)
    ensures Outnumbered(q, before, h, after, cap)
  {
    hide AtMost, CountAfter, CountBehind;
    var kept := Tail(h, cap);
    forall k | 0 <= k < |h| - cap ensures CountBehind(q, h[k], before) + CountAfter(q, h[k], kept + after) >= cap {
      assert forall j :: 0 <= j < |kept| ==> kept[j] == h[|h| - cap + j];
      CountAll(q, h[k], kept);
      CountConcat(q, h[k], kept, after);
    }
  }

  /** The bounded cache answers like an unbounded one: over any number of sensors of a device, for
      every `since` and every limit up to the capacity. */
  lemma BoundedAnswersLikeUnbounded(q: SeqOf, histories: seq<seq<Reading>>, since: Option<int>, cap: nat, limit: nat)
    requires 1 <= limit <= cap && AllSafe(q, histories, cap)
    ensures Query(q, Cut(histories, cap), since, limit) == Query(q, histories, since, limit)
  {
    hide Query, EvictionSafe, TimeOrdered, Outnumbered, Kept;
    var filtered := Filtered(histories, since);
    forall i | 0 <= i < |filtered|
      ensures Outnumbered(q, Kept(filtered[..i], cap), filtered[i], Kept(filtered[i + 1..], cap), cap)
    {
      SafeAfterSince(q, histories[i], since, cap);
      SafeIsOutnumbered(q, Kept(filtered[..i], cap), filtered[i], Kept(filtered[i + 1..], cap), cap);
    }
    CutDoesNotShow(q, histories, since, cap, limit);
  }

  /** The same answer to every query that a capacity admits. */
  ghost predicate SameAnswers(q: SeqOf, held: seq<seq<Reading>>, all: seq<seq<Reading>>, cap: nat) {
    forall since, limit :: 1 <= limit <= cap ==> Query(q, held, since, limit) == Query(q, all, since, limit)
  }

  /** For one sensor the condition is exact: the bounded history answers every query like the unbounded
      one precisely if nothing it has evicted sorts after anything it still holds. */
  lemma BoundedAnswersExactlyWhenSafe(q: SeqOf, h: seq<Reading>, cap: nat)
    requires TimeOrdered(h) && cap >= 1
    ensures EvictionSafe(q, h, cap) <==> SameAnswers(q, [Tail(h, cap)], [h], cap)
  {
    hide AtMost, Sort;
    if EvictionSafe(q, h, cap) {
      forall since, limit | 1 <= limit <= cap
        ensures Query(q, [Tail(h, cap)], since, limit) == Query(q, [h], since, limit)
      {
        BoundedAnswersLikeUnbounded(q, [h], since, cap, limit);
        assert Cut([h], cap) == [Tail(h, cap)];
      }
    } else if Query(q, [Tail(h, cap)], None, cap) == Query(q, [h], None, cap) {
      QueryOfOne(q, h, cap);
      QueryOfOne(q, Tail(h, cap), cap);
      SortSorts(q, Tail(h, cap));
      AgreementIsSafe(q, h, cap);
      assert false;
    }
  }

  lemma QueryOfOne(q: SeqOf, h: seq<Reading>, cap: nat)
    requires cap >= 1
    ensures Query(q, [h], None, cap) == Tail(Sort(q, h), cap)
  {
    hide Sort;
    SinceKeepsAll(h, None);
    assert [h][1..] == [] && Collect([], None) == [];
    assert Collect([h], None) == h + [] == h;
  }

  lemma SameFronts<T>(s: seq<T>, h: seq<T>, m: nat)
    requires m <= |s| && m <= |h| && multiset(s) == multiset(h) && multiset(s[m..]) == multiset(h[m..])
    ensures multiset(s[..m]) == multiset(h[..m])
  {
    assert s == s[..m] + s[m..] && h == h[..m] + h[m..];
    assert multiset(s[..m]) == multiset(s) - multiset(s[m..]);
    assert multiset(h[..m]) == multiset(h) - multiset(h[m..]);
  }

  lemma AgreementIsSafe(q: SeqOf, h: seq<Reading>, cap: nat)
    requires Tail(Sort(q, h), cap) == Sort(q, Tail(h, cap))
    ensures EvictionSafe(q, h, cap)
  {
    hide AtMost, Sort;
    SortSorts(q, h);
    SortSorts(q, Tail(h, cap));
    if |h| > cap {
      var m, s := |h| - cap, Sort(q, h);
      assert s[m..] == Tail(s, cap) && h[m..] == Tail(h, cap);
      SameFronts(s, h, m);
      forall i, j | 0 <= i < m <= j < |h| ensures AtMost(q, h[i], h[j]) {
        assert h[..m][i] in multiset(s[..m]) && h[m..][j - m] in multiset(s[m..]);
      }
    }
  }

  // ----- the histories a cache actually holds --------------------------------------------------------

  ghost function LatestOf(parse: Parse, blocks: seq<Block>): map<Key, Reading> {
    if blocks == [] then map[] else LatestStep(parse, LatestOf(parse, blocks[..|blocks| - 1]), Last(blocks))
  }

  /** Everything ever accepted for a sensor, nothing evicted: the uncapped history. */
  ghost function Accepted(parse: Parse, blocks: seq<Block>, key: Key): seq<Reading> {
    if blocks == [] then []
    else
      var front, reading := blocks[..|blocks| - 1], ReadingOf(parse, Last(blocks));
      if reading.Some? && reading.value.0 == key && Accepts(LatestAt(LatestOf(parse, front), key), reading.value.1.at)
      then Accepted(parse, front, key) + [reading.value.1]
      else Accepted(parse, front, key)
  }

  lemma {:induction false} LatestIsLatest(parse: Parse, blocks: seq<Block>, cap: nat)
    ensures Scan(parse, blocks, cap).latest == LatestOf(parse, blocks)
  {
    hide LatestStep, SeenStep, HistoryStep, CameraStep;
    if blocks != [] { LatestIsLatest(parse, blocks[..|blocks| - 1], cap); }
  }

  /** Whatever is consumed, re-reads and all, each bounded history is the newest part of what was
      accepted for its sensor. */
  lemma {:induction false} HistoryIsTail(parse: Parse, blocks: seq<Block>, cap: nat, key: Key)
    ensures HistoryAt(Scan(parse, blocks, cap).history, key) == Tail(Accepted(parse, blocks, key), cap)
  {
    hide ReadingOf, LatestStep, SeenStep, CameraStep;
    if blocks != [] {
      var front := blocks[..|blocks| - 1];
      HistoryIsTail(parse, front, cap, key);
      LatestIsLatest(parse, front, cap);
      var h := Accepted(parse, front, key);
      match ReadingOf(parse, Last(blocks))
      case Some((k, r)) => if k == key { assert Tail(Tail(h, cap) + [r], cap) == Tail(h + [r], cap); }
      case None =>
    }
  }

  lemma {:induction false} AcceptedOrder(parse: Parse, blocks: seq<Block>, key: Key)
    ensures
      var h := Accepted(parse, blocks, key);
      && TimeOrdered(h)
      && (forall i :: 0 <= i < |h| ==> h[i].sensor == key.sensor)
      && (if h == [] then key !in LatestOf(parse, blocks)
          else key in LatestOf(parse, blocks) && LatestOf(parse, blocks)[key] == Last(h))
  {
    hide ReportOf;
    if blocks != [] { AcceptedOrder(parse, blocks[..|blocks| - 1], key); }
  }

  ghost function Uncapped(parse: Parse, blocks: seq<Block>, keys: seq<Key>): seq<seq<Reading>> {
    seq(|keys|, i requires 0 <= i < |keys| => Accepted(parse, blocks, keys[i]))
  }

  /** readings() on a cache that has consumed these blocks, over any sensors in any order, answers what
      it would answer had nothing ever been evicted. */
  lemma CacheAnswersLikeUnbounded(parse: Parse, q: SeqOf, blocks: seq<Block>, keys: seq<Key>, since: Option<int>,
                                  cap: nat, limit: nat)
    requires 1 <= limit <= cap
    requires forall i :: 0 <= i < |keys| ==> SeqOrdered(q, Accepted(parse, blocks, keys[i]))
    ensures Query(q, Histories(Scan(parse, blocks, cap).history, keys), since, limit)
         == Query(q, Uncapped(parse, blocks, keys), since, limit)
  {
    hide Query, Scan, Accepted, SeqOrdered, EvictionSafe, TimeOrdered, HistoryAt;
    var all := Uncapped(parse, blocks, keys);
    forall i | 0 <= i < |all| ensures TimeOrdered(all[i]) && EvictionSafe(q, all[i], cap) {
      AcceptedOrder(parse, blocks, keys[i]);
      OrderedIsSafe(q, all[i], cap);
    }
    forall i | 0 <= i < |keys| ensures Histories(Scan(parse, blocks, cap).history, keys)[i] == Cut(all, cap)[i] {
      HistoryIsTail(parse, blocks, cap, keys[i]);
    }
    assert Histories(Scan(parse, blocks, cap).history, keys) == Cut(all, cap);
    BoundedAnswersLikeUnbounded(q, all, since, cap, limit);
  }

  // ----- when a chain's sequence numbers suffice ------------------------------------------------------

  /** Along the chain, one sensor's sequence numbers do not fall while its clock stands still. */
  ghost predicate ChainSeqOrdered(parse: Parse, q: SeqOf, chain: seq<Block>) {
    forall i, j :: 0 <= i < j < |chain| ==> InStep(q, ReadingOf(parse, chain[i]), ReadingOf(parse, chain[j]))
  }

  ghost predicate InStep(q: SeqOf, a: Option<(Key, Reading)>, b: Option<(Key, Reading)>) {
    a.Some? && b.Some? && a.value.0 == b.value.0 && a.value.1.at == b.value.1.at ==>
        q(a.value.1.seqno) <= q(b.value.1.seqno)
  }

  /** Refreshes that follow one another read the chain forwards, at most repeating a block. */
  ghost predicate ReadsForward(chain: seq<Block>, at: seq<nat>, blocks: seq<Block>) {
    && |at| == |blocks|
    && (forall i :: 0 <= i < |at| ==> at[i] < |chain| && blocks[i] == chain[at[i]])
    && (forall i, j :: 0 <= i < j < |at| ==> at[i] <= at[j])
  }

  ghost predicate ComesFrom(parse: Parse, blocks: seq<Block>, key: Key, r: Reading) {
    exists j :: 0 <= j < |blocks| && ReadingOf(parse, blocks[j]) == Some((key, r))
  }

  lemma {:induction false} AcceptedComesFrom(parse: Parse, blocks: seq<Block>, key: Key)
    ensures forall r :: r in Accepted(parse, blocks, key) ==> ComesFrom(parse, blocks, key, r)
  {
    hide ReadingOf, LatestOf, LatestAt;
    if blocks != [] {
      var n := |blocks| - 1;
      var front := blocks[..n];
      AcceptedComesFrom(parse, front, key);
      forall r | r in Accepted(parse, blocks, key) ensures ComesFrom(parse, blocks, key, r) {
        if r in Accepted(parse, front, key) {
          var j :| 0 <= j < |front| && ReadingOf(parse, front[j]) == Some((key, r));
          assert ReadingOf(parse, blocks[j]) == Some((key, r));
        } else {
          assert ReadingOf(parse, blocks[n]) == Some((key, r));
        }
      }
    }
  }

  /** Reading an orderly chain forwards, re-reads included, leaves orderly histories. */
  lemma {:induction false} ForwardReadsAreOrdered(parse: Parse, q: SeqOf, chain: seq<Block>, at: seq<nat>,
                                                  blocks: seq<Block>, key: Key)
    requires ChainSeqOrdered(parse, q, chain) && ReadsForward(chain, at, blocks)
    ensures SeqOrdered(q, Accepted(parse, blocks, key))
    decreases |blocks|
  {
    hide ReadingOf, LatestOf, LatestAt;
    if blocks != [] {
      var n := |blocks| - 1;
      var front, b := blocks[..n], blocks[n];
      ForwardReadsAreOrdered(parse, q, chain, at[..n], front, key);
      var h := Accepted(parse, front, key);
      AcceptedComesFrom(parse, front, key);
      if ReadingOf(parse, b).Some? && ReadingOf(parse, b).value.0 == key {
        var r := ReadingOf(parse, b).value.1;
        forall i | 0 <= i < |h| && h[i].at == r.at ensures q(h[i].seqno) <= q(r.seqno) {
          assert ComesFrom(parse, front, key, h[i]);
          LaterReadIsInStep(parse, q, chain, at, blocks, key, h[i], r);
        }
      }
    }
  }

  lemma LaterReadIsInStep(parse: Parse, q: SeqOf, chain: seq<Block>, at: seq<nat>, blocks: seq<Block>, key: Key,
                          r: Reading, r': Reading)
    requires ChainSeqOrdered(parse, q, chain) && ReadsForward(chain, at, blocks) && blocks != [] && r.at == r'.at
    requires ReadingOf(parse, Last(blocks)) == Some((key, r'))
    requires ComesFrom(parse, blocks[..|blocks| - 1], key, r)
    ensures q(r.seqno) <= q(r'.seqno)
  {
    hide ReadingOf;
    var n := |blocks| - 1;
    var j :| 0 <= j < n && ReadingOf(parse, blocks[..n][j]) == Some((key, r));
    if at[j] < at[n] {
      assert InStep(q, ReadingOf(parse, chain[at[j]]), ReadingOf(parse, chain[at[n]]));
    }
  }

  /** The order in which a poller has read its chain: it never goes back past its cursor. */
  ghost predicate Diary(parse: Parse, p: Poller, cap: nat, at: seq<nat>, blocks: seq<Block>) {
    && ReadsForward(p.chain, at, blocks) && p.cache == Scan(parse, blocks, cap)
    && forall i :: 0 <= i < |at| ==> at[i] < p.nextIndex
  }

  lemma EventExtendsDiary(parse: Parse, p: Poller, e: Occurrence, cap: nat, at: seq<nat>, blocks: seq<Block>)
    returns (at': seq<nat>, blocks': seq<Block>)
    requires Diary(parse, p, cap, at, blocks) && CanHappen(p, e) && 0 < |p.chain| < U64 && p.nextIndex <= |p.chain|
    ensures Diary(parse, Happen(parse, p, e, cap), cap, at', blocks')
    ensures Happen(parse, p, e, cap).nextIndex <= |Happen(parse, p, e, cap).chain|
  {
    hide ServeRange, Decimal, Consume;
    at', blocks' := at, blocks;
    if e.Poll? {
      var from := RequestFrom(p.nextIndex);
      RefreshIsNeverRefused(p.chain, p.nextIndex);
      var more := p.chain[from..];
      at', blocks' := at + seq(|more|, i requires 0 <= i => from + i), blocks + more;
      ConsumeConcat(parse, EMPTY_CACHE, blocks, more, cap);
    }
  }

  lemma {:induction false} SequentialDiary(parse: Parse, ps: seq<Poller>, es: seq<Occurrence>, cap: nat)
    returns (at: seq<nat>, blocks: seq<Block>)
    requires PollerRun(parse, ps, es, cap)
    requires 0 < |ps[0].chain| < U64 && ps[0].cache == EMPTY_CACHE && ps[0].nextIndex == 0
    ensures Diary(parse, Last(ps), cap, at, blocks)
    ensures 0 < |Last(ps).chain| < U64 && Last(ps).nextIndex <= |Last(ps).chain|
    decreases |es|
  {
    hide Happen, Scan, Diary;
    if es == [] {
      at, blocks := [], [];
      assert Diary(parse, ps[0], cap, [], []) by { EmptyDiary(parse, ps[0], cap); }
    } else {
      var n := |es| - 1;
      at, blocks := SequentialDiary(parse, ps[..n + 1], es[..n], cap);
      at, blocks := EventExtendsDiary(parse, ps[n], es[n], cap, at, blocks);
      ChainSizeAfter(parse, ps[n], es[n], cap);
    }
  }

  lemma EmptyDiary(parse: Parse, p: Poller, cap: nat)
    requires p.cache == EMPTY_CACHE
    ensures Diary(parse, p, cap, [], [])
  {
  }

  lemma ChainSizeAfter(parse: Parse, p: Poller, e: Occurrence, cap: nat)
    requires CanHappen(p, e) && 0 < |p.chain| < U64
    ensures 0 < |Happen(parse, p, e, cap).chain| < U64
  {
    hide ServeRange, Consume;
  }

  /** Refreshed one at a time, with growth and failures in between and every last block re-read, over a
      chain whose sequence numbers behave, the bounded cache answers every readings() like an unbounded
      one. */
  lemma RefreshedCacheAnswersLikeUnbounded(parse: Parse, q: SeqOf, ps: seq<Poller>, es: seq<Occurrence>,
                                           keys: seq<Key>, since: Option<int>, cap: nat, limit: nat)
    returns (at: seq<nat>, blocks: seq<Block>)
    requires PollerRun(parse, ps, es, cap) && 1 <= limit <= cap
    requires 0 < |ps[0].chain| < U64 && ps[0].cache == EMPTY_CACHE && ps[0].nextIndex == 0
    requires ChainSeqOrdered(parse, q, Last(ps).chain)
    ensures Diary(parse, Last(ps), cap, at, blocks)
    ensures Query(q, Histories(Last(ps).cache.history, keys), since, limit)
         == Query(q, Uncapped(parse, blocks, keys), since, limit)
  {
    hide ChainSeqOrdered, SeqOrdered, Query, Scan, ReadsForward, Uncapped, Histories;
    at, blocks := SequentialDiary(parse, ps, es, cap);
    forall i | 0 <= i < |keys| ensures SeqOrdered(q, Accepted(parse, blocks, keys[i])) {
      ForwardReadsAreOrdered(parse, q, Last(ps).chain, at, blocks, keys[i]);
    }
    CacheAnswersLikeUnbounded(parse, q, blocks, keys, since, cap, limit);
  }
}
