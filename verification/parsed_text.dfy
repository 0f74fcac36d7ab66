/** Parsing only yields JSON values: whatever text is accepted, what comes out prints as JSON again. */
module ParsedText {
  import opened Records
  import opened JsonText
  import opened Blocks

  ghost predicate AllWellFormed(vs: seq<Json>) {
    forall i :: 0 <= i < |vs| ==> WellFormed(vs[i])
  }

  ghost predicate MembersWellFormed(ms: seq<Member>) {
    SortedKeys(ms) && forall i :: 0 <= i < |ms| ==> WellFormed(ms[i].value)
  }

  lemma {:induction false} InsertKeepsSorted(m: Member, ms: seq<Member>)
    requires MembersWellFormed(ms) && WellFormed(m.value)
    ensures MembersWellFormed(Insert(m, ms))
    ensures Insert(m, ms) != []
    ensures Insert(m, ms)[0].key == m.key || (ms != [] && Insert(m, ms)[0].key == ms[0].key)
    ensures ms != [] && Before(ms[0].key, m.key) ==> Insert(m, ms)[0].key == ms[0].key
  {
    hide WellFormed, Before;
    if ms != [] && !Before(m.key, ms[0].key) && m.key != ms[0].key {
      BeforeTotal(m.key, ms[0].key);
      TailIsWellFormed(ms);
      InsertKeepsSorted(m, ms[1..]);
      var rest := Insert(m, ms[1..]);
      ConsIsWellFormed(ms[0], rest);
    } else if ms != [] && Before(m.key, ms[0].key) {
      BeforeTotal(m.key, ms[0].key);
      ConsIsWellFormed(m, ms);
    } else if ms == [] {
      ConsIsWellFormed(m, ms);
    } else {
      BeforeIrreflexive(m.key);
    }
  }

  lemma TailIsWellFormed(ms: seq<Member>)
    requires MembersWellFormed(ms) && ms != []
    ensures MembersWellFormed(ms[1..]) && (|ms| > 1 ==> Before(ms[0].key, ms[1].key))
  {
    hide WellFormed, Before;
  }

  lemma ConsIsWellFormed(m: Member, ms: seq<Member>)
    requires MembersWellFormed(ms) && WellFormed(m.value) && (ms != [] ==> Before(m.key, ms[0].key))
    ensures MembersWellFormed([m] + ms)
  {
    hide WellFormed, Before;
    assert ([m] + ms)[1..] == ms;
  }

  /** Whatever text parses, parses to a value that prints as JSON. */
  lemma {:induction false} ParsedIsWellFormed(s: string)
    requires ParseValue(s).Ok?
    ensures WellFormed(ParseValue(s).value)
    decreases |s|, 0
  {
    hide ParseString, ParseItems, ParseMembers, ParseNumber, Expect;
    if s[0] == '[' && !StartsWith(s[1..], ']') {
      ParsedItemsAreWellFormed(s[1..]);
    } else if s[0] == '{' && !StartsWith(s[1..], '}') {
      ParsedMembersAreWellFormed(s[1..]);
    } else if s[0] !in "ntf\"[{" {
      ParsedNumber(s);
    }
  }

  lemma ParsedNumber(s: string)
    requires ParseNumber(s).Ok?
    ensures WellFormed(ParseNumber(s).value)
  {
    hide NumberText;
  }

  lemma {:induction false} ParsedItemsAreWellFormed(s: string)
    requires ParseItems(s).Ok?
    ensures AllWellFormed(ParseItems(s).value)
    decreases |s|, 1
  {
    hide ParseValue, WellFormed;
    ParsedIsWellFormed(SkipBlanks(s));
    var rest := SkipBlanks(ParseValue(SkipBlanks(s)).rest);
    if rest[0] != ']' { ParsedItemsAreWellFormed(rest[1..]); }
  }

  lemma {:induction false} ParsedMembersAreWellFormed(s: string)
    requires ParseMembers(s).Ok?
    ensures MembersWellFormed(ParseMembers(s).value)
    decreases |s|, 1
  {
    hide ParseMember, WellFormed, Insert, SortedKeys;
    ParsedMemberIsWellFormed(SkipBlanks(s));
    var m, rest := ParseMember(SkipBlanks(s)).value, SkipBlanks(ParseMember(SkipBlanks(s)).rest);
    if rest[0] != '}' {
      ParsedMembersAreWellFormed(rest[1..]);
      InsertKeepsSorted(m, ParseMembers(rest[1..]).value);
    } else {
      OneMember(m);
    }
  }

  lemma OneMember(m: Member)
    requires WellFormed(m.value)
    ensures MembersWellFormed([m])
  {
  }

  lemma {:induction false} ParsedMemberIsWellFormed(s: string)
    requires ParseMember(s).Ok?
    ensures WellFormed(ParseMember(s).value.value)
    decreases |s|, 0
  {
    hide ParseValue, ParseString, WellFormed;
    ParsedIsWellFormed(SkipBlanks(SkipBlanks(ParseString(s[1..]).rest)[1..]));
  }

  lemma {:induction false} FoundIsWellFormed(ms: seq<Member>, key: string)
    requires (forall i :: 0 <= i < |ms| ==> WellFormed(ms[i].value)) && Find(ms, key).Some?
    ensures WellFormed(Find(ms, key).value)
  {
    hide WellFormed;
    if ms[0].key != key { FoundIsWellFormed(ms[1..], key); }
  }

  lemma EventIsWellFormed(v: Json)
    requires WellFormed(v) && EventFromJson(v).Some?
    ensures WellFormedEvent(EventFromJson(v).value)
  {
    hide Find, SortedKeys;
    FoundIsWellFormed(v.members, "metadata");
  }

  lemma ReadBlockIsWellFormed(text: string)
    requires ReadBlock(text).Some?
    ensures WellFormedEvent(ReadBlock(text).value.event)
  {
    hide ParseValue, WellFormed, EventFromJson, Find;
    ParsedIsWellFormed(SkipBlanks(text));
    var v := Parse(text).value;
    assert forall i :: 0 <= i < |v.members| ==> WellFormed(v.members[i].value) by { MembersOf(v); }
    FoundIsWellFormed(v.members, "event");
    EventIsWellFormed(Find(v.members, "event").value);
  }

  lemma MembersOf(v: Json)
    requires WellFormed(v) && v.Obj?
    ensures forall i :: 0 <= i < |v.members| ==> WellFormed(v.members[i].value)
  {
  }
}
