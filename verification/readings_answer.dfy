/** What readings() answers, told from the readings that are held. */
module ReadingsAnswer {
  import opened Records
  import opened Activity
  import opened Blocks
  import opened Readings

  ghost predicate IsLater(since: Option<int>, r: Reading) {
    since.None? || r.at > since.value
  }

  /** By instant, then by sensor in byte order, then by seq. */
  ghost predicate NotBehind(q: SeqOf, a: Reading, b: Reading) {
    && a.at <= b.at
    && (a.at == b.at ==> a.sensor == b.sensor || JsonText.Before(a.sensor, b.sensor))
    && (a.at == b.at && a.sensor == b.sensor ==> q(a.seqno) <= q(b.seqno))
  }

  ghost predicate Ascending(q: SeqOf, s: seq<Reading>) {
    forall i, j :: 0 <= i < j < |s| ==> NotBehind(q, s[i], s[j])
  }

  /** Together these are exactly the held readings later than since, each as often as it is held. */
  ghost predicate AllLater(histories: seq<seq<Reading>>, since: Option<int>, answer: seq<Reading>,
                           rest: seq<Reading>) {
    forall r :: multiset(answer)[r] + multiset(rest)[r] == if IsLater(since, r) then multiset(All(histories))[r] else 0
  }

  lemma AtMostIsNotBehind(q: SeqOf, a: Reading, b: Reading)
    ensures AtMost(q, a, b) <==> NotBehind(q, a, b)
  {
    JsonText.BeforeTotal(a.sensor, b.sensor);
  }

  lemma {:induction false} SinceCounts(s: seq<Reading>, since: Option<int>, r: Reading)
    ensures multiset(Since(s, since))[r] == if IsLater(since, r) then multiset(s)[r] else 0
  {
    if s != [] {
      SinceCounts(s[1..], since, r);
      assert s == [s[0]] + s[1..];
    }
  }

  /** The answer to every query: the newest of the held readings later than since, oldest first; at most
      limit of them, and all of them if there are no more. Nothing left out belongs behind anything
      returned. */
  lemma AnswerIsTheNewestOfTheLater(q: SeqOf, histories: seq<seq<Reading>>, since: Option<int>, limit: nat)
    returns (rest: seq<Reading>)
    ensures limit == 0 ==> Query(q, histories, since, limit) == []
    ensures limit > 0 ==>
      var answer := Query(q, histories, since, limit);
      && Ascending(q, answer) && AllLater(histories, since, answer, rest)
      && |answer| == (if |answer| + |rest| < limit then |answer| + |rest| else limit)
      && forall x, y :: x in answer && y in rest ==> NotBehind(q, y, x)
  {
    hide AtMost, NotBehind, Sort, Collect, All, Since, Sorted, Ascending;
    var s := Sort(q, Collect(histories, since));
    SortSorts(q, Collect(histories, since));
    CollectIsSince(histories, since);
    var n := if |s| <= limit then 0 else |s| - limit;
    rest := s[..n];
    CutSorted(q, s, n);
    forall r ensures multiset(s)[r] == if IsLater(since, r) then multiset(All(histories))[r] else 0 {
      SinceCounts(All(histories), since, r);
    }
  }

  lemma CutSorted(q: SeqOf, s: seq<Reading>, n: nat)
    requires Sorted(q, s) && n <= |s|
    ensures Ascending(q, s[n..]) && multiset(s) == multiset(s[..n]) + multiset(s[n..])
    ensures forall x, y :: x in s[n..] && y in s[..n] ==> NotBehind(q, y, x)
  {
    hide AtMost, NotBehind;
    assert s == s[..n] + s[n..];
    forall i, j | 0 <= i < j < |s| ensures NotBehind(q, s[i], s[j]) { AtMostIsNotBehind(q, s[i], s[j]); }
  }

  lemma CollectIsSince(histories: seq<seq<Reading>>, since: Option<int>)
    ensures Collect(histories, since) == Since(All(histories), since)
  {
    FilterFirst(histories, since);
    SinceOfAll(histories, since);
  }

  // ----- one device ------------------------------------------------------------------------------------

  /** Each history holds readings of its own sensor only. */
  ghost predicate OwnReadings(history: map<Key, seq<Reading>>) {
    forall key, r :: key in history && r in history[key] ==> r.sensor == key.sensor
  }

  /** Lists every key of the history once. */
  ghost predicate Lists(order: seq<Key>, history: map<Key, seq<Reading>>) {
    && (forall key :: key in order <==> key in history)
    && (forall i, j :: 0 <= i < j < |order| ==> order[i] != order[j])
  }

  ghost predicate SameDevice(keys: seq<Key>, device: string) {
    && (forall i :: 0 <= i < |keys| ==> keys[i].device == device)
    && (forall i, j :: 0 <= i < j < |keys| ==> keys[i] != keys[j])
  }

  lemma {:induction false} OfDeviceMembers(order: seq<Key>, device: string)
    requires forall i, j :: 0 <= i < j < |order| ==> order[i] != order[j]
    ensures forall key :: key in OfDevice(order, device) <==> key in order && key.device == device
    ensures SameDevice(OfDevice(order, device), device)
  {
    if order != [] {
      OfDeviceMembers(order[1..], device);
      assert order == [order[0]] + order[1..];
      assert order[0] !in order[1..];
    }
  }

  /** A reading is counted where its own sensor's history is, and nowhere else. */
  lemma {:induction false} CountedOnce(history: map<Key, seq<Reading>>, keys: seq<Key>, device: string, r: Reading)
    requires OwnReadings(history) && SameDevice(keys, device)
    ensures multiset(All(Histories(history, keys)))[r]
         == if Key(device, r.sensor) in keys then multiset(HistoryAt(history, Key(device, r.sensor)))[r] else 0
  {
    if keys != [] {
      var histories := Histories(history, keys);
      CountedOnce(history, keys[1..], device, r);
      assert histories[1..] == Histories(history, keys[1..]);
      assert keys == [keys[0]] + keys[1..] && keys[0] !in keys[1..];
      if r in HistoryAt(history, keys[0]) { assert keys[0] == Key(device, r.sensor); }
    }
  }

  /** What readings() answers about a device, whatever order the history lists its sensors in: the newest
      of the readings held for it, of the one sensor asked about or of all, that are later than since. */
  lemma DeviceAnswer(q: SeqOf, history: map<Key, seq<Reading>>, order: seq<Key>, device: string,
                     sensor: Option<string>, since: Option<int>, limit: nat)
    returns (rest: seq<Reading>)
    requires OwnReadings(history) && Lists(order, history) && limit > 0
    ensures var answer := Query(q, Histories(history, Asked(order, device, sensor)), since, limit);
      && Ascending(q, answer) && (forall x, y :: x in answer && y in rest ==> NotBehind(q, y, x))
      && |answer| == (if |answer| + |rest| < limit then |answer| + |rest| else limit)
      && forall r :: multiset(answer)[r] + multiset(rest)[r]
           == if IsLater(since, r) && (sensor.None? || sensor.value == r.sensor)
              then multiset(HistoryAt(history, Key(device, r.sensor)))[r] else 0
  {
    hide Query, Ascending, NotBehind, All, OfDevice;
    var keys := Asked(order, device, sensor);
    rest := AnswerIsTheNewestOfTheLater(q, Histories(history, keys), since, limit);
    OfDeviceMembers(order, device);
    forall r ensures multiset(All(Histories(history, keys)))[r]
      == if sensor.None? || sensor.value == r.sensor then multiset(HistoryAt(history, Key(device, r.sensor)))[r] else 0
    {
      CountedOnce(history, keys, device, r);
    }
  }

  /** The histories of a cache are like that. */
  lemma CacheHoldsOwnReadings(parse: Parse, blocks: seq<Block>, cap: nat)
    ensures OwnReadings(Scan(parse, blocks, cap).history)
  {
    hide Accepted, Scan;
    var history := Scan(parse, blocks, cap).history;
    forall key: Key, r: Reading | key in history && r in history[key] ensures r.sensor == key.sensor {
      HistoryIsTail(parse, blocks, cap, key);
      AcceptedOrder(parse, blocks, key);
    }
  }
}
