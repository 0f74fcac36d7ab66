/** Event texts are suffix-free: none is a proper suffix of another. Together with their being
    prefix-free this makes the hash preimage injective without any condition on timestamps, although
    its parts are concatenated without separators. */
module EventTexts {
  import opened Records
  import opened JsonText
  import opened Blocks

  /** How every event's text begins: an opening brace and the first letter of its first key. */
  predicate StartsEvent(s: string) {
    |s| >= 3 && s[0] == '{' && s[1] == '\"' && s[2] == 'a'
  }

  /** What may follow a value inside a larger text, as far as this argument is concerned. */
  predicate Follows(rest: string) {
    rest != "" ==> rest[0] != 'a'
  }

  lemma EscapeHasNoBrace(c: char, i: nat)
    requires i < |EscapeChar(c)|
    ensures EscapeChar(c)[i] == '{' ==> EscapeChar(c) == "{"
    ensures EscapeChar(c)[0] != '\"'
  {
  }

  /** Inside a quoted string a brace is never followed by a quote, except at its very end. */
  lemma {:induction false} NoEventInsideString(s: string, rest: string, p: nat)
    requires p <= |Escape(s)| && Follows(rest)
    ensures !StartsEvent((Escape(s) + "\"" + rest)[p..])
  {
    hide EscapeChar, StartsEvent, Follows;
    if s == "" {
      OnlyQuote(rest, p);
    } else {
      var e, tail := EscapeChar(s[0]), Escape(s[1..]) + "\"" + rest;
      assert Escape(s) + "\"" + rest == e + tail;
      if p >= |e| {
        NoEventInsideString(s[1..], rest, p - |e|);
        Behind(e, tail, p);
      } else {
        NoEventInsideChar(s, rest, p);
      }
    }
  }

  lemma Behind(e: string, tail: string, p: nat)
    requires |e| <= p <= |e| + |tail|
    ensures (e + tail)[p..] == tail[p - |e|..]
  {
  }

  lemma NoEventInsideChar(s: string, rest: string, p: nat)
    requires s != "" && p < |EscapeChar(s[0])| && Follows(rest)
    ensures !StartsEvent((EscapeChar(s[0]) + (Escape(s[1..]) + "\"" + rest))[p..])
  {
    hide EscapeChar, StartsEvent, Follows, Escape;
    var e, tail := EscapeChar(s[0]), Escape(s[1..]) + "\"" + rest;
    EscapeHasNoBrace(s[0], p);
    if e[p] == '{' {
      assert (e + tail)[p..] == "{" + tail;
      AfterBrace(s[1..], rest);
    } else {
      NoBraceNoEvent(e, tail, p);
    }
  }

  lemma OnlyQuote(rest: string, p: nat)
    requires p == 0
    ensures !StartsEvent(("" + "\"" + rest)[p..])
  {
    assert ("" + "\"" + rest)[0] == '\"';
  }

  lemma NoBraceNoEvent(e: string, tail: string, p: nat)
    requires p < |e| && e[p] != '{'
    ensures !StartsEvent((e + tail)[p..])
  {
    assert (e + tail)[p..][0] == e[p];
  }

  lemma AfterBrace(s: string, rest: string)
    requires Follows(rest)
    ensures !StartsEvent("{" + (Escape(s) + "\"" + rest))
  {
    hide EscapeChar;
    var tail := Escape(s) + "\"" + rest;
    if s == "" {
      assert tail == "\"" + rest;
      assert ("{" + tail)[2..] == rest;
    } else {
      EscapeCharRoundTrip(s[0], "");
      assert ("{" + tail)[1] == EscapeChar(s[0])[0];
    }
  }

  lemma NoEventInsideQuote(s: string, rest: string, p: nat)
    requires p < |Quote(s)| && Follows(rest)
    ensures !StartsEvent((Quote(s) + rest)[p..])
  {
    hide StartsEvent, Follows, Escape;
    var inner := Escape(s) + "\"" + rest;
    assert Quote(s) + rest == "\"" + inner;
    if p > 0 {
      NoEventInsideString(s, rest, p - 1);
      Behind("\"", inner, p);
    } else {
      NoBraceNoEvent("\"", inner, 0);
    }
  }

  lemma NoEventInsideNumber(t: string, rest: string, p: nat)
    requires NumberText(t) && p < |t|
    ensures !StartsEvent((t + rest)[p..])
  {
    NumberIsNumChars(t);
    assert (t + rest)[p..][0] == t[p];
  }

  /** Wherever an event text seems to begin inside a value's text, an object of that value really
      begins; and unless it is the value itself, it ends before the value does. */
  lemma {:induction false} EventStartIsObject(v: Json, rest: string, p: nat) returns (w: Json)
    requires WellFormed(v) && Follows(rest) && p < |Dump(v)| && StartsEvent((Dump(v) + rest)[p..])
    ensures w.Obj? && WellFormed(w) && Dump(w) <= (Dump(v) + rest)[p..]
    ensures p + |Dump(w)| <= |Dump(v)| && (p > 0 ==> p + |Dump(w)| < |Dump(v)|)
    decreases v, 2
  {
    match v
    case Null =>
    case Bool(_) =>
    case Num(t) => NoEventInsideNumber(t, rest, p);
    case Str(t) => NoEventInsideQuote(t, rest, p);
    case Arr(items) => w := EventStartInArray(items, rest, p);
    case Obj(ms) => if p == 0 { w := v; } else { w := EventStartInObject(ms, rest, p); }
  }

  lemma {:induction false} EventStartInArray(items: seq<Json>, rest: string, p: nat) returns (w: Json)
    requires (forall i :: 0 <= i < |items| ==> WellFormed(items[i])) && Follows(rest)
    requires p < |DumpItems(items)| + 2 && StartsEvent(("[" + DumpItems(items) + "]" + rest)[p..])
    ensures w.Obj? && WellFormed(w) && Dump(w) <= ("[" + DumpItems(items) + "]" + rest)[p..]
    ensures p + |Dump(w)| < |DumpItems(items)| + 2
    decreases items, 2
  {
    hide WellFormed, Dump, DumpItems;
    var text, inner, tail := "[" + DumpItems(items) + "]" + rest, DumpItems(items), "]" + rest;
    assert text == "[" + (inner + tail);
    if 0 < p <= |inner| {
      assert text[p..] == (inner + tail)[p - 1..];
      w := EventStartInItems(items, tail, p - 1);
    }
  }

  lemma {:induction false} EventStartInObject(ms: seq<Member>, rest: string, p: nat) returns (w: Json)
    requires (forall i :: 0 <= i < |ms| ==> WellFormed(ms[i].value)) && Follows(rest)
    requires 0 < p < |DumpMembers(ms)| + 2 && StartsEvent(("{" + DumpMembers(ms) + "}" + rest)[p..])
    ensures w.Obj? && WellFormed(w) && Dump(w) <= ("{" + DumpMembers(ms) + "}" + rest)[p..]
    ensures p + |Dump(w)| < |DumpMembers(ms)| + 2
    decreases ms, 2
  {
    hide WellFormed, Dump, DumpMembers;
    var text, inner, tail := "{" + DumpMembers(ms) + "}" + rest, DumpMembers(ms), "}" + rest;
    assert text == "{" + (inner + tail);
    if p <= |inner| {
      assert text[p..] == (inner + tail)[p - 1..];
      w := EventStartInMembers(ms, tail, p - 1);
    }
  }

  lemma {:induction false} EventStartInItems(items: seq<Json>, tail: string, p: nat) returns (w: Json)
    requires (forall i :: 0 <= i < |items| ==> WellFormed(items[i])) && Follows(tail)
    requires p < |DumpItems(items)| && StartsEvent((DumpItems(items) + tail)[p..])
    ensures w.Obj? && WellFormed(w) && Dump(w) <= (DumpItems(items) + tail)[p..]
    ensures p + |Dump(w)| <= |DumpItems(items)|
    decreases items, 1
  {
    hide WellFormed, Dump;
    var first := Dump(items[0]);
    var more := if |items| == 1 then "" else "," + DumpItems(items[1..]);
    var text := DumpItems(items) + tail;
    assert text == first + (more + tail);
    if p < |first| {
      w := EventStartIsObject(items[0], more + tail, p);
    } else if p > |first| {
      var k := p - |first| - 1;
      assert text[p..] == (DumpItems(items[1..]) + tail)[k..];
      w := EventStartInItems(items[1..], tail, k);
    }
  }

  lemma {:induction false} EventStartInMembers(ms: seq<Member>, tail: string, p: nat) returns (w: Json)
    requires (forall i :: 0 <= i < |ms| ==> WellFormed(ms[i].value)) && Follows(tail)
    requires p < |DumpMembers(ms)| && StartsEvent((DumpMembers(ms) + tail)[p..])
    ensures w.Obj? && WellFormed(w) && Dump(w) <= (DumpMembers(ms) + tail)[p..]
    ensures p + |Dump(w)| <= |DumpMembers(ms)|
    decreases ms, 1
  {
    hide WellFormed, Dump, DumpMember;
    var first := DumpMember(ms[0]);
    var more := if |ms| == 1 then "" else "," + DumpMembers(ms[1..]);
    var text := DumpMembers(ms) + tail;
    assert text == first + (more + tail);
    if p < |first| {
      w := EventStartInMember(ms[0], more + tail, p);
    } else if p > |first| {
      var k := p - |first| - 1;
      assert text[p..] == (DumpMembers(ms[1..]) + tail)[k..];
      w := EventStartInMembers(ms[1..], tail, k);
    }
  }

  lemma {:induction false} EventStartInMember(m: Member, tail: string, p: nat) returns (w: Json)
    requires WellFormed(m.value) && Follows(tail)
    requires p < |DumpMember(m)| && StartsEvent((DumpMember(m) + tail)[p..])
    ensures w.Obj? && WellFormed(w) && Dump(w) <= (DumpMember(m) + tail)[p..]
    ensures p + |Dump(w)| <= |DumpMember(m)|
    decreases m, 3
  {
    hide WellFormed, Dump, Quote;
    var key, value := Quote(m.key), Dump(m.value);
    var text := DumpMember(m) + tail;
    assert text == key + (":" + value + tail);
    if p < |key| {
      NoEventInsideQuote(m.key, ":" + value + tail, p);
    } else if p > |key| {
      var k := p - |key| - 1;
      assert text[p..] == (value + tail)[k..];
      w := EventStartIsObject(m.value, tail, k);
    }
  }

  lemma EventTextStarts(e: Event)
    ensures StartsEvent(EventText(e))
  {
    var ms := EventJson(e).members;
    var q := Quote("actor");
    assert q[0] == '\"' && q[1] == 'a' by {
      PlainLetter();
      assert "actor"[0] == 'a';
      assert Escape("actor") == EscapeChar('a') + Escape("actor"[1..]);
    }
    hide Quote, EscapeChar;
    assert DumpMember(ms[0]) == q + ":" + Dump(ms[0].value);
    assert DumpMembers(ms)[0] == q[0] && DumpMembers(ms)[1] == q[1];
    assert EventText(e) == "{" + DumpMembers(ms) + "}";
  }

  lemma PlainLetter()
    ensures EscapeChar('a') == "a"
  {
  }

  /** No event's text is a proper suffix of another's. */
  lemma EventTextSuffixFree(e: Event, e': Event, n: nat)
    requires WellFormedEvent(e) && WellFormedEvent(e')
    requires n <= |EventText(e)| && EventText(e)[n..] == EventText(e')
    ensures n == 0 && e == e'
  {
    hide EventJson, EventFromJson, Dump, WellFormed;
    EventJsonWellFormed(e);
    EventJsonWellFormed(e');
    EventJsonIsObject(e);
    EventJsonIsObject(e');
    EventTextStarts(e');
    var v, v' := EventJson(e), EventJson(e');
    assert EventText(e) + "" == EventText(e);
    assert EventText(e)[n..] != "";
    if n > 0 {
      var w := EventStartIsObject(v, "", n);
      var rest := EventText(e')[|Dump(w)|..];
      assert EventText(e') == Dump(w) + rest == Dump(v') + "";
      DumpIsUnambiguous(w, rest, v', "");
    } else {
      assert EventText(e)[0..] == EventText(e);
      assert Dump(v) + "" == Dump(v') + "";
      DumpIsUnambiguous(v, "", v', "");
      EventJsonRoundTrip(e);
      EventJsonRoundTrip(e');
    }
  }

  /** Equal preimages have equal parts: any timestamps, any events, any index; only the previous
      hashes have to be of one length. */
  lemma PreimageInjectiveAnyTimestamp(i: u64, t: string, e: Event, p: string, i': u64, t': string, e': Event,
                                      p': string)
    requires WellFormedEvent(e) && WellFormedEvent(e') && |p| == |p'|
    requires Preimage(i, t, e, p) == Preimage(i', t', e', p')
    ensures i == i' && t == t' && e == e' && p == p'
    decreases |t| > |t'|
  {
    hide EventText, LowBytes, WellFormedEvent;
    if |t| > |t'| {
      PreimageInjectiveAnyTimestamp(i', t', e', p', i, t, e, p);
    } else {
      var x, n := Preimage(i, t, e, p), |t'| - |t|;
      assert x == LittleEndian(i) + (t + EventText(e)) + p;
      assert x == LittleEndian(i') + (t' + EventText(e')) + p';
      var middle := x[8..|x| - |p|];
      assert middle == t + EventText(e) && middle == t' + EventText(e');
      assert EventText(e)[n..] == middle[|t'|..] == EventText(e');
      EventTextSuffixFree(e, e', n);
      PreimageInjective(i, t, e, p, i', t', e', p');
    }
  }
}
