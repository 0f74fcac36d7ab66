/** dump() wastes nothing: no JSON text that parses to a value is shorter than the one printed for it. */
module CompactText {
  import opened Records
  import opened JsonText
  import opened ParsedText

  lemma {:induction false} EscapeConcat(s: string, t: string)
    ensures Escape(s + t) == Escape(s) + Escape(t)
  {
    hide EscapeChar;
    if s == "" {
      assert s + t == t;
    } else {
      EscapeConcat(s[1..], t);
      assert (s + t)[0] == s[0] && (s + t)[1..] == s[1..] + t;
      Regroup(EscapeChar(s[0]), Escape(s[1..]), Escape(t));
    }
  }

  lemma Regroup(a: string, b: string, c: string)
    ensures a + (b + c) == (a + b) + c
  {
  }

  lemma {:induction false} BytesEscapeToThemselves(s: string)
    requires forall i :: 0 <= i < |s| ==> s[i] >= 128 as char
    ensures Escape(s) == s
  {
    if s != "" { BytesEscapeToThemselves(s[1..]); }
  }

  lemma EscapeOfOne(c: char)
    ensures Escape([c]) == EscapeChar(c) && |EscapeChar(c)| <= 6
    ensures c >= ' ' && c != '\"' && c != '\\' ==> EscapeChar(c) == [c]
    ensures ShortEscape(c).Some? ==> |EscapeChar(c)| == 2
  {
    assert [c][1..] == "" && EscapeChar(c) + "" == EscapeChar(c);
  }

  lemma CodePointIsShort(n: nat)
    requires n < 0x110000
    ensures |Escape(Utf8(n))| <= if n < 0x80 then 6 else 4
  {
    if n < 0x80 { EscapeOfOne(n as char); } else { BytesEscapeToThemselves(Utf8(n)); }
  }

  lemma ShortUnescapeIsShort(letter: char)
    requires ShortUnescape(letter).Some?
    ensures |EscapeChar(ShortUnescape(letter).value)| <= 2
  {
  }

  /** An escape sequence is never shorter than what is printed for its characters. */
  lemma EscapeIsNoShorter(s: string)
    requires ParseEscape(s).Ok?
    ensures |Escape(ParseEscape(s).value)| + |ParseEscape(s).rest| <= 1 + |s|
  {
    hide Escape, Utf8, Hex4, EscapeChar, ShortUnescape;
    if s[0] == 'u' {
      var n := Hex4(s[1..]).value;
      if 0xD800 <= n < 0xDC00 {
        CodePointIsShort(0x10000 + (n - 0xD800) * 0x400 + (Hex4(s[7..]).value - 0xDC00));
      } else {
        CodePointIsShort(n);
      }
    } else {
      ShortUnescapeIsShort(s[0]);
      EscapeOfOne(ShortUnescape(s[0]).value);
    }
  }

  lemma {:induction false} StringIsNoShorter(s: string)
    requires ParseString(s).Ok?
    ensures |Escape(ParseString(s).value)| + 1 + |ParseString(s).rest| <= |s|
    decreases |s|
  {
    hide Escape, ParseEscape, EscapeChar;
    if s[0] == '\"' {
      assert Escape("") == "" by { EmptyEscape(); }
    } else if s[0] == '\\' {
      EscapeIsNoShorter(s[1..]);
      var first := ParseEscape(s[1..]);
      StringIsNoShorter(first.rest);
      EscapeConcat(first.value, ParseString(first.rest).value);
    } else {
      StringIsNoShorter(s[1..]);
      EscapeOfOne(s[0]);
      EscapeConcat([s[0]], ParseString(s[1..]).value);
    }
  }

  lemma EmptyEscape()
    ensures Escape("") == ""
  {
  }

  /** A value's text, whatever follows, is no shorter than its dump. */
  lemma {:induction false} ValueIsNoShorter(s: string)
    requires ParseValue(s).Ok?
    ensures |Dump(ParseValue(s).value)| + |ParseValue(s).rest| <= |s|
    decreases |s|, 0
  {
    hide ParseString, ParseItems, ParseMembers, Escape, NumberText, DumpItems, DumpMembers;
    if s[0] == '\"' {
      StringIsNoShorter(s[1..]);
    } else if s[0] == '[' {
      if StartsWith(s[1..], ']') { EmptyContainerText(); } else { ItemsAreNoShorter(s[1..]); }
    } else if s[0] == '{' {
      if StartsWith(s[1..], '}') { EmptyContainerText(); } else { MembersAreNoShorter(s[1..]); }
    }
  }

  lemma EmptyContainerText()
    ensures DumpItems([]) == "" && DumpMembers([]) == ""
  {
  }

  lemma {:induction false} ItemsAreNoShorter(s: string)
    requires ParseItems(s).Ok?
    ensures |DumpItems(ParseItems(s).value)| + 1 + |ParseItems(s).rest| <= |s|
    decreases |s|, 1
  {
    hide ParseValue, Dump;
    ValueIsNoShorter(SkipBlanks(s));
    var v, rest := ParseValue(SkipBlanks(s)).value, SkipBlanks(ParseValue(SkipBlanks(s)).rest);
    if rest[0] != ']' {
      ItemsAreNoShorter(rest[1..]);
      var vs := ParseItems(rest[1..]).value;
      assert ([v] + vs)[1..] == vs;
    }
  }

  /** Keeping members sorted, and the last of several with one key, costs at most a comma. */
  lemma {:induction false} InsertIsNoLonger(m: Member, ms: seq<Member>)
    ensures |DumpMembers(Insert(m, ms))| <= |DumpMember(m)| + |DumpMembers(ms)| + if ms == [] then 0 else 1
    ensures Insert(m, ms) != []
  {
    hide DumpMember, Before;
    if ms == [] || Before(m.key, ms[0].key) {
      assert ([m] + ms)[1..] == ms;
    } else if m.key != ms[0].key {
      InsertIsNoLonger(m, ms[1..]);
      var rest := Insert(m, ms[1..]);
      assert ([ms[0]] + rest)[1..] == rest;
    }
  }

  lemma {:induction false} MembersAreNoShorter(s: string)
    requires ParseMembers(s).Ok?
    ensures |DumpMembers(ParseMembers(s).value)| + 1 + |ParseMembers(s).rest| <= |s|
    decreases |s|, 1
  {
    hide ParseMember, DumpMember, DumpMembers, Insert;
    MemberIsNoShorter(SkipBlanks(s));
    var m, rest := ParseMember(SkipBlanks(s)).value, SkipBlanks(ParseMember(SkipBlanks(s)).rest);
    if rest[0] == '}' {
      OneMemberText(m);
    } else {
      MembersAreNoShorter(rest[1..]);
      InsertIsNoLonger(m, ParseMembers(rest[1..]).value);
    }
  }

  lemma OneMemberText(m: Member)
    ensures DumpMembers([m]) == DumpMember(m)
  {
    assert DumpMember(m) + "" == DumpMember(m);
  }

  lemma {:induction false} MemberIsNoShorter(s: string)
    requires ParseMember(s).Ok?
    ensures |DumpMember(ParseMember(s).value)| + |ParseMember(s).rest| <= |s|
    decreases |s|, 0
  {
    hide ParseValue, ParseString, Dump, Escape;
    StringIsNoShorter(s[1..]);
    ValueIsNoShorter(SkipBlanks(SkipBlanks(ParseString(s[1..]).rest)[1..]));
  }

  /** Among all texts that parse to a value, its dump is a shortest one. */
  lemma DumpIsShortest(v: Json, text: string)
    requires Parse(text) == Some(v)
    ensures Parse(Dump(v)) == Some(v) && |Dump(v)| <= |text|
  {
    hide ParseValue, Dump, WellFormed;
    ValueIsNoShorter(SkipBlanks(text));
    ParsedIsWellFormed(SkipBlanks(text));
    ParseRoundTrip(v);
  }
}
