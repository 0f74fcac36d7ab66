/** The JSON texts that devices and scripts send: blanks between tokens, members in any order and more than
    once, characters as themselves or as escapes. All of them are read as what they say. */
module LooseText {
  import opened Records
  import opened JsonText
  import opened ParsedText
  import opened Blocks

  /** A document as its sender has it: strings are code points, members come in the sender's order. */
  datatype Doc =
    | NullDoc
    | BoolDoc(b: bool)
    | NumDoc(lexeme: string)
    | StrDoc(points: seq<nat>)
    | ArrDoc(items: seq<Doc>)
    | ObjDoc(members: seq<DocMember>)

  datatype DocMember = DocMember(key: seq<nat>, value: Doc)

  /** Which characters are written as \u escapes: those that have to be, those outside ASCII too, or all. */
  datatype Escaping = Plain | NonAscii | Everything

  /** How it is written: the blanks inside brackets and around commas and colons, the escapes, upper-case or
      lower-case hexadecimal digits, and slashes with or without a backslash. */
  datatype Layout = Layout(inside: string, beforeComma: string, afterComma: string, beforeColon: string,
      afterColon: string, escaping: Escaping, upper: bool, slash: bool)

  predicate Blanks(w: string) {
    forall i :: 0 <= i < |w| ==> w[i] in " \t\n\r"
  }

  predicate Allowed(l: Layout) {
    Blanks(l.inside) && Blanks(l.beforeComma) && Blanks(l.afterComma) && Blanks(l.beforeColon) && Blanks(l.afterColon)
  }

  /** Unicode scalar values. */
  predicate Scalars(points: seq<nat>) {
    forall i :: 0 <= i < |points| ==> points[i] < 0xD800 || 0xE000 <= points[i] < 0x110000
  }

  predicate Proper(d: Doc)
    decreases d, 0
  {
    match d
    case NumDoc(lexeme) => NumberText(lexeme)
    case StrDoc(points) => Scalars(points)
    case ArrDoc(items) => forall i :: 0 <= i < |items| ==> Proper(items[i])
    case ObjDoc(members) =>
      forall i :: 0 <= i < |members| ==> Scalars(members[i].key) && Proper(members[i].value)
    case _ => true
  }

  // ----- writing ----------------------------------------------------------------------------------------

  function HexDigitOf(n: nat, upper: bool): char
    requires n < 16
  {
    if upper && n >= 10 then "ABCDEF"[n - 10] else "0123456789abcdef"[n]
  }

  function Hex4Text(n: nat, upper: bool): string
    requires n < 0x10000
  {
    [HexDigitOf(n / 4096, upper), HexDigitOf(n / 256 % 16, upper), HexDigitOf(n / 16 % 16, upper),
     HexDigitOf(n % 16, upper)]
  }

  /** One escape, or the pair of them that a character beyond the first plane takes. */
  function EscapedText(p: nat, upper: bool): string
    requires p < 0x110000
  {
    if p < 0x10000 then "\\u" + Hex4Text(p, upper)
    else
      "\\u" + (Hex4Text(0xD800 + (p - 0x10000) / 0x400, upper)
              + ("\\u" + Hex4Text(0xDC00 + (p - 0x10000) % 0x400, upper)))
  }

  function PointText(p: nat, l: Layout): string
    requires p < 0x110000
  {
    if l.escaping.Everything? then EscapedText(p, l.upper)
    else if l.slash && p == '/' as nat then "\\/"
    else if p < 0x7F then EscapeChar(p as char)
    else if l.escaping.Plain? then Utf8(p)
    else EscapedText(p, l.upper)
  }

  /** The rest of a string after its opening quote, in front of some text. */
  function PointsOnto(points: seq<nat>, l: Layout, rest: string): string
    requires Scalars(points)
  {
    if points == [] then "\"" + rest else PointText(points[0], l) + PointsOnto(points[1..], l, rest)
  }

  function DocOnto(d: Doc, l: Layout, rest: string): string
    requires Proper(d)
    decreases d, 0
  {
    match d
    case NullDoc => "null" + rest
    case BoolDoc(b) => if b then "true" + rest else "false" + rest
    case NumDoc(lexeme) => lexeme + rest
    case StrDoc(points) => "\"" + PointsOnto(points, l, rest)
    case ArrDoc(items) =>
      "[" + (l.inside + if items == [] then "]" + rest else ItemsOnto(items, l, l.inside + ("]" + rest)))
    case ObjDoc(members) =>
      "{" + (l.inside + if members == [] then "}" + rest else MembersOnto(members, l, l.inside + ("}" + rest)))
  }

  function ItemsOnto(items: seq<Doc>, l: Layout, rest: string): string
    requires items != [] && forall i :: 0 <= i < |items| ==> Proper(items[i])
    decreases items, 0
  {
    DocOnto(items[0], l,
            if |items| == 1 then rest
            else l.beforeComma + ("," + (l.afterComma + ItemsOnto(items[1..], l, rest))))
  }

  function MemberOnto(m: DocMember, l: Layout, rest: string): string
    requires Scalars(m.key) && Proper(m.value)
    decreases m, 0
  {
    "\"" + PointsOnto(m.key, l, l.beforeColon + (":" + (l.afterColon + DocOnto(m.value, l, rest))))
  }

  function MembersOnto(ms: seq<DocMember>, l: Layout, rest: string): string
    requires ms != [] && forall i :: 0 <= i < |ms| ==> Scalars(ms[i].key) && Proper(ms[i].value)
    decreases ms, 0
  {
    MemberOnto(ms[0], l,
               if |ms| == 1 then rest
               else l.beforeComma + ("," + (l.afterComma + MembersOnto(ms[1..], l, rest))))
  }

  // ----- what it means ----------------------------------------------------------------------------------

  function Utf8All(points: seq<nat>): string
    requires Scalars(points)
  {
    if points == [] then "" else Utf8(points[0]) + Utf8All(points[1..])
  }

  function Held(d: Doc): Json
    requires Proper(d)
    decreases d, 0
  {
    match d
    case NullDoc => Null
    case BoolDoc(b) => Bool(b)
    case NumDoc(lexeme) => Num(lexeme)
    case StrDoc(points) => Str(Utf8All(points))
    case ArrDoc(items) => Arr(HeldItems(items))
    case ObjDoc(members) => Obj(HeldMembers(members))
  }

  function HeldItems(items: seq<Doc>): seq<Json>
    requires forall i :: 0 <= i < |items| ==> Proper(items[i])
    decreases items, 0
  {
    if items == [] then [] else [Held(items[0])] + HeldItems(items[1..])
  }

  function HeldMembers(ms: seq<DocMember>): seq<Member>
    requires forall i :: 0 <= i < |ms| ==> Scalars(ms[i].key) && Proper(ms[i].value)
    decreases ms, 0
  {
    if ms == [] then [] else Insert(Member(Utf8All(ms[0].key), Held(ms[0].value)), HeldMembers(ms[1..]))
  }

  // ----- characters -----------------------------------------------------------------------------------------

  lemma HexDigitRead(n: nat, upper: bool)
    requires n < 16
    ensures HexValue(HexDigitOf(n, upper)) == n
  {
  }

  lemma HexRead(n: nat, upper: bool, rest: string)
    requires n < 0x10000
    ensures var t := Hex4Text(n, upper);
      Hex4(t + rest) == Some(n) && |t| == 4 && (t + rest)[4..] == rest
  {
    hide HexDigitOf, HexValue;
    HexDigitRead(n / 4096, upper);
    HexDigitRead(n / 256 % 16, upper);
    HexDigitRead(n / 16 % 16, upper);
    HexDigitRead(n % 16, upper);
    FourDigits(n);
  }

  lemma FourDigits(n: nat)
    requires n < 0x10000
    ensures n / 4096 * 4096 + n / 256 % 16 * 256 + n / 16 % 16 * 16 + n % 16 == n
  {
    assert n / 16 == n / 16 / 16 * 16 + n / 16 % 16;
    assert n / 16 / 16 == n / 256 && n / 256 / 16 == n / 4096;
  }

  lemma OneEscapeRead(p: nat, upper: bool, rest: string)
    requires p < 0xD800 || 0xE000 <= p < 0x10000
    ensures ParseEscape("u" + (Hex4Text(p, upper) + rest)) == Ok(Utf8(p), rest)
  {
    hide Hex4, Hex4Text, Utf8;
    HexRead(p, upper, rest);
    var s := "u" + (Hex4Text(p, upper) + rest);
    assert s[1..] == Hex4Text(p, upper) + rest && s[5..] == (Hex4Text(p, upper) + rest)[4..];
  }

  lemma PairRead(p: nat, upper: bool, rest: string)
    requires 0x10000 <= p < 0x110000
    ensures
      var high, low := Hex4Text(0xD800 + (p - 0x10000) / 0x400, upper), Hex4Text(0xDC00 + (p - 0x10000) % 0x400, upper);
      ParseEscape("u" + (high + ("\\u" + (low + rest)))) == Ok(Utf8(p), rest)
  {
    hide Hex4, Hex4Text, Utf8;
    var high, low := Hex4Text(0xD800 + (p - 0x10000) / 0x400, upper), Hex4Text(0xDC00 + (p - 0x10000) % 0x400, upper);
    var behind := low + rest;
    HexRead(0xD800 + (p - 0x10000) / 0x400, upper, "\\u" + behind);
    HexRead(0xDC00 + (p - 0x10000) % 0x400, upper, rest);
    var s := "u" + (high + ("\\u" + behind));
    assert s[1..] == high + ("\\u" + behind);
    assert s[5..] == "\\u" + behind;
    assert s[5..7] == s[5..][..2] && s[7..] == s[5..][2..] && s[11..] == s[7..][4..];
    assert s[7..] == behind && s[11..] == rest;
  }

  /** The escape of a low surrogate. */
  predicate LowFollows(s: string) {
    |s| >= 6 && s[..2] == "\\u" && Hex4(s[2..]).Some? && 0xDC00 <= Hex4(s[2..]).value < 0xE000
  }

  /** Half of a pair is no character: a low surrogate on its own, and a high one without a low one right
      behind it, spoil the string. */
  lemma LoneSurrogatesAreRefused(n: nat, upper: bool, rest: string)
    requires 0xDC00 <= n < 0xE000 || (0xD800 <= n < 0xDC00 && !LowFollows(rest))
    ensures ParseString("\\u" + (Hex4Text(n, upper) + rest)) == Fail
  {
    hide Hex4, Hex4Text, Utf8, ParseEscape;
    var s := "u" + (Hex4Text(n, upper) + rest);
    LoneEscapeFails(n, upper, rest);
    assert "\\u" + (Hex4Text(n, upper) + rest) == "\\" + s && ("\\" + s)[1..] == s;
  }

  lemma LoneEscapeFails(n: nat, upper: bool, rest: string)
    requires 0xDC00 <= n < 0xE000 || (0xD800 <= n < 0xDC00 && !LowFollows(rest))
    ensures ParseEscape("u" + (Hex4Text(n, upper) + rest)) == Fail
  {
    hide Hex4, Hex4Text, Utf8;
    HexRead(n, upper, rest);
    var s := "u" + (Hex4Text(n, upper) + rest);
    assert s[1..] == Hex4Text(n, upper) + rest && s[5..] == rest;
    if |s| >= 7 { assert s[5..7] == rest[..2] && s[7..] == rest[2..]; }
  }

  lemma {:induction false} PlainCharsRead(bytes: string, tail: string, value: string, rest: string)
    requires forall i :: 0 <= i < |bytes| ==> bytes[i] >= 0x7F as char
    requires ParseString(tail) == Ok(value, rest)
    ensures ParseString(bytes + tail) == Ok(bytes + value, rest)
  {
    hide ParseEscape;
    if bytes == "" {
      assert bytes + tail == tail && bytes + value == value;
    } else {
      PlainCharsRead(bytes[1..], tail, value, rest);
      assert (bytes + tail)[0] == bytes[0] && (bytes + tail)[1..] == bytes[1..] + tail;
      assert [bytes[0]] + (bytes[1..] + value) == bytes + value;
    }
  }

  lemma EscapeThenString(s: string, bytes: string, tail: string, value: string, rest: string)
    requires ParseEscape(s) == Ok(bytes, tail) && ParseString(tail) == Ok(value, rest)
    ensures ParseString("\\" + s) == Ok(bytes + value, rest)
  {
    hide ParseEscape;
    assert ("\\" + s)[1..] == s;
  }

  lemma EscapedRead(p: nat, upper: bool, tail: string, value: string, rest: string)
    requires (p < 0xD800 || 0xE000 <= p < 0x110000) && ParseString(tail) == Ok(value, rest)
    ensures ParseString(EscapedText(p, upper) + tail) == Ok(Utf8(p) + value, rest)
  {
    hide ParseString, ParseEscape, Hex4Text, Utf8;
    if p < 0x10000 {
      OneEscapeRead(p, upper, tail);
      OneEscapeRegroups(Hex4Text(p, upper), tail);
      EscapeThenString("u" + (Hex4Text(p, upper) + tail), Utf8(p), tail, value, rest);
    } else {
      PairRead(p, upper, tail);
      var high, low := Hex4Text(0xD800 + (p - 0x10000) / 0x400, upper), Hex4Text(0xDC00 + (p - 0x10000) % 0x400, upper);
      PairRegroups(high, low, tail);
      EscapeThenString("u" + (high + ("\\u" + (low + tail))), Utf8(p), tail, value, rest);
    }
  }

  lemma OneEscapeRegroups(digits: string, tail: string)
    ensures "\\u" + digits + tail == "\\" + ("u" + (digits + tail))
  {
  }

  lemma PairRegroups(high: string, low: string, tail: string)
    ensures "\\u" + (high + ("\\u" + low)) + tail == "\\" + ("u" + (high + ("\\u" + (low + tail))))
  {
  }

  lemma SlashRead(tail: string)
    ensures ParseEscape("/" + tail) == Ok("/", tail)
  {
    assert ("/" + tail)[1..] == tail;
  }

  lemma PointRead(p: nat, l: Layout, tail: string, value: string, rest: string)
    requires (p < 0xD800 || 0xE000 <= p < 0x110000) && ParseString(tail) == Ok(value, rest)
    ensures ParseString(PointText(p, l) + tail) == Ok(Utf8(p) + value, rest)
  {
    hide ParseString, ParseEscape, EscapedText, EscapeChar;
    if l.escaping.Everything? || (p >= 0x7F && l.escaping.NonAscii?) {
      EscapedRead(p, l.upper, tail, value, rest);
    } else if l.slash && p == '/' as nat {
      SlashRead(tail);
      EscapeThenString("/" + tail, "/", tail, value, rest);
      assert "\\/" + tail == "\\" + ("/" + tail);
    } else if p < 0x7F {
      OneCharRoundTrip(p as char, tail, value, rest);
    } else {
      PlainCharsRead(Utf8(p), tail, value, rest);
    }
  }

  lemma {:induction false} PointsRead(points: seq<nat>, l: Layout, rest: string)
    requires Scalars(points)
    ensures ParseString(PointsOnto(points, l, rest)) == Ok(Utf8All(points), rest)
  {
    hide ParseString, PointText, Utf8;
    if points == [] {
      ClosingQuote(rest);
      assert "" + "\"" + rest == "\"" + rest;
    } else {
      PointsRead(points[1..], l, rest);
      PointRead(points[0], l, PointsOnto(points[1..], l, rest), Utf8All(points[1..]), rest);
    }
  }

  // ----- values ----------------------------------------------------------------------------------------------

  lemma {:induction false} BlanksSkipped(w: string, s: string)
    requires Blanks(w) && (s == "" || !Blank(s[0]))
    ensures SkipBlanks(w + s) == s
  {
    if w == "" {
      assert w + s == s;
    } else {
      BlanksSkipped(w[1..], s);
      assert (w + s)[0] == w[0] && (w + s)[1..] == w[1..] + s;
    }
  }

  /** What may follow a value: nothing, a blank, or the end of what it stands in. */
  predicate Ends(rest: string) {
    rest == "" || rest[0] in " \t\n\r,]}"
  }

  lemma EndsAfterBlanks(w: string, s: string)
    requires Blanks(w) && Ends(s)
    ensures Ends(w + s)
  {
    if w != "" { assert (w + s)[0] == w[0]; } else { assert w + s == s; }
  }

  lemma DocStarts(d: Doc, l: Layout, rest: string)
    requires Proper(d)
    ensures DocOnto(d, l, rest) != "" && DocOnto(d, l, rest)[0] !in "],}" && !Blank(DocOnto(d, l, rest)[0])
  {
    if d.NumDoc? { NumberIsNumChars(d.lexeme); }
  }

  lemma EmptyRead(w: string, rest: string)
    requires Blanks(w)
    ensures ParseValue("[" + (w + ("]" + rest))) == Ok(Arr([]), rest)
    ensures ParseValue("{" + (w + ("}" + rest))) == Ok(Obj([]), rest)
  {
    hide ParseItems, ParseMembers;
    BlanksSkipped(w, "]" + rest);
    BlanksSkipped(w, "}" + rest);
    assert ("[" + (w + ("]" + rest)))[1..] == w + ("]" + rest) && ("]" + rest)[1..] == rest;
    assert ("{" + (w + ("}" + rest)))[1..] == w + ("}" + rest) && ("}" + rest)[1..] == rest;
  }

  lemma {:induction false} DocRead(d: Doc, l: Layout, rest: string)
    requires Proper(d) && Allowed(l) && Ends(rest)
    ensures ParseValue(DocOnto(d, l, rest)) == Ok(Held(d), rest)
    decreases d, 2
  {
    hide ParseValue, PointsOnto, NumberText, Ends;
    match d
    case NullDoc => Keywords(rest);
    case BoolDoc(_) => Keywords(rest);
    case NumDoc(t) => assert Separates(Num(t), rest) by { EndsSeparates(t, rest); } NumberRoundTrip(t, rest);
    case StrDoc(points) =>
      PointsRead(points, l, rest);
      QuotedRead(PointsOnto(points, l, rest));
    case ArrDoc(items) =>
      if items == [] {
        EmptyRead(l.inside, rest);
      } else {
        ItemsRead(items, l, l.inside, rest);
        ItemsStart(items, l, l.inside + ("]" + rest));
        BracketRead(l.inside, ItemsOnto(items, l, l.inside + ("]" + rest)));
      }
    case ObjDoc(members) =>
      if members == [] {
        EmptyRead(l.inside, rest);
      } else {
        MembersRead(members, l, l.inside, rest);
        BraceRead(l.inside, MembersOnto(members, l, l.inside + ("}" + rest)));
      }
  }

  lemma EndsSeparates(t: string, rest: string)
    requires Ends(rest)
    ensures Separates(Num(t), rest)
  {
  }

  lemma QuotedRead(s: string)
    requires ParseString(s).Ok?
    ensures ParseValue("\"" + s) == Ok(Str(ParseString(s).value), ParseString(s).rest)
  {
    hide ParseString;
    assert ("\"" + s)[1..] == s;
  }

  lemma BracketRead(w: string, s: string)
    requires Blanks(w) && ParseItems(w + s).Ok? && s != "" && !Blank(s[0]) && s[0] != ']'
    ensures ParseValue("[" + (w + s)) == Ok(Arr(ParseItems(w + s).value), ParseItems(w + s).rest)
  {
    hide ParseItems, ParseMembers, ParseString, ParseNumber;
    BlanksSkipped(w, s);
    assert ("[" + (w + s))[1..] == w + s;
  }

  lemma BraceRead(w: string, s: string)
    requires Blanks(w) && ParseMembers(w + s).Ok? && s != "" && s[0] == '\"'
    ensures ParseValue("{" + (w + s)) == Ok(Obj(ParseMembers(w + s).value), ParseMembers(w + s).rest)
  {
    hide ParseItems, ParseMembers, ParseString, ParseNumber;
    BlanksSkipped(w, s);
    assert ("{" + (w + s))[1..] == w + s;
  }

  lemma ItemsStart(items: seq<Doc>, l: Layout, rest: string)
    requires items != [] && forall i :: 0 <= i < |items| ==> Proper(items[i])
    ensures var s := ItemsOnto(items, l, rest); s != "" && s[0] !in "],}" && !Blank(s[0])
  {
    hide DocOnto, Proper;
    DocStarts(items[0], l,
              if |items| == 1 then rest
              else l.beforeComma + ("," + (l.afterComma + ItemsOnto(items[1..], l, rest))));
  }

  /** One value, blanks, and the closing bracket. */
  lemma LastItemRead(w: string, text: string, v: Json, w': string, rest: string)
    requires Blanks(w) && Blanks(w') && text != "" && !Blank(text[0])
    requires ParseValue(text) == Ok(v, w' + ("]" + rest))
    ensures ParseItems(w + text) == Ok([v], rest)
  {
    hide ParseValue;
    BlanksSkipped(w, text);
    BlanksSkipped(w', "]" + rest);
    assert ("]" + rest)[1..] == rest;
  }

  lemma NextItemRead(w: string, text: string, v: Json, w': string, tail: string, vs: seq<Json>, rest: string)
    requires Blanks(w) && Blanks(w') && text != "" && !Blank(text[0])
    requires ParseValue(text) == Ok(v, w' + ("," + tail)) && ParseItems(tail) == Ok(vs, rest)
    ensures ParseItems(w + text) == Ok([v] + vs, rest)
  {
    hide ParseValue;
    BlanksSkipped(w, text);
    BlanksSkipped(w', "," + tail);
    assert ("," + tail)[1..] == tail;
  }

  lemma {:induction false} ItemsRead(items: seq<Doc>, l: Layout, w: string, rest: string)
    requires items != [] && (forall i :: 0 <= i < |items| ==> Proper(items[i])) && Allowed(l) && Blanks(w)
    ensures ParseItems(w + ItemsOnto(items, l, l.inside + ("]" + rest))) == Ok(HeldItems(items), rest)
    decreases items, 1
  {
    hide ParseValue, ParseItems, DocOnto, Held, Proper, Ends, Blanks;
    var close := l.inside + ("]" + rest);
    if |items| == 1 {
      assert Ends(close) by { EndsAfterBlanks(l.inside, "]" + rest); }
      DocRead(items[0], l, close);
      DocStarts(items[0], l, close);
      LastItemRead(w, DocOnto(items[0], l, close), Held(items[0]), l.inside, rest);
      assert items[1..] == [] && [Held(items[0])] + [] == [Held(items[0])];
    } else {
      var tail := l.afterComma + ItemsOnto(items[1..], l, close);
      var follow := l.beforeComma + ("," + tail);
      ItemsRead(items[1..], l, l.afterComma, rest);
      assert Ends(follow) by { EndsAfterBlanks(l.beforeComma, "," + tail); }
      DocRead(items[0], l, follow);
      DocStarts(items[0], l, follow);
      NextItemRead(w, DocOnto(items[0], l, follow), Held(items[0]), l.beforeComma, tail, HeldItems(items[1..]), rest);
    }
  }

  lemma {:induction false} MemberRead(m: DocMember, l: Layout, rest: string)
    requires Scalars(m.key) && Proper(m.value) && Allowed(l) && Ends(rest)
    ensures ParseMember(MemberOnto(m, l, rest)) == Ok(Member(Utf8All(m.key), Held(m.value)), rest)
    decreases m, 2
  {
    hide ParseValue, ParseString, PointsOnto, DocOnto, Held, Proper;
    var text := DocOnto(m.value, l, rest);
    var colon := l.beforeColon + (":" + (l.afterColon + text));
    PointsRead(m.key, l, colon);
    DocRead(m.value, l, rest);
    DocStarts(m.value, l, rest);
    BlanksSkipped(l.beforeColon, ":" + (l.afterColon + text));
    BlanksSkipped(l.afterColon, text);
    assert ("\"" + PointsOnto(m.key, l, colon))[1..] == PointsOnto(m.key, l, colon);
    assert (":" + (l.afterColon + text))[1..] == l.afterColon + text;
  }

  lemma LastMemberRead(w: string, text: string, m: Member, w': string, rest: string)
    requires Blanks(w) && Blanks(w') && text != "" && !Blank(text[0])
    requires ParseMember(text) == Ok(m, w' + ("}" + rest))
    ensures ParseMembers(w + text) == Ok([m], rest)
  {
    hide ParseMember;
    BlanksSkipped(w, text);
    BlanksSkipped(w', "}" + rest);
    assert ("}" + rest)[1..] == rest;
  }

  lemma NextMemberRead(w: string, text: string, m: Member, w': string, tail: string, ms: seq<Member>, rest: string)
    requires Blanks(w) && Blanks(w') && text != "" && !Blank(text[0])
    requires ParseMember(text) == Ok(m, w' + ("," + tail)) && ParseMembers(tail) == Ok(ms, rest)
    ensures ParseMembers(w + text) == Ok(Insert(m, ms), rest)
  {
    hide ParseMember;
    BlanksSkipped(w, text);
    BlanksSkipped(w', "," + tail);
    assert ("," + tail)[1..] == tail;
  }

  lemma {:induction false} MembersRead(ms: seq<DocMember>, l: Layout, w: string, rest: string)
    requires ms != [] && (forall i :: 0 <= i < |ms| ==> Scalars(ms[i].key) && Proper(ms[i].value))
    requires Allowed(l) && Blanks(w)
    ensures ParseMembers(w + MembersOnto(ms, l, l.inside + ("}" + rest))) == Ok(HeldMembers(ms), rest)
    ensures MembersOnto(ms, l, l.inside + ("}" + rest)) != ""
         && MembersOnto(ms, l, l.inside + ("}" + rest))[0] == '\"'
    decreases ms, 1
  {
    hide ParseMember, ParseMembers, Held, Proper, Ends, Blanks, Utf8All, PointsOnto, Insert;
    var close := l.inside + ("}" + rest);
    var m := Member(Utf8All(ms[0].key), Held(ms[0].value));
    if |ms| == 1 {
      assert Ends(close) by { EndsAfterBlanks(l.inside, "}" + rest); }
      MemberRead(ms[0], l, close);
      LastMemberRead(w, MemberOnto(ms[0], l, close), m, l.inside, rest);
      assert Insert(m, []) == [m] by { InsertIntoNone(m); }
    } else {
      var tail := l.afterComma + MembersOnto(ms[1..], l, close);
      var follow := l.beforeComma + ("," + tail);
      MembersRead(ms[1..], l, l.afterComma, rest);
      assert Ends(follow) by { EndsAfterBlanks(l.beforeComma, "," + tail); }
      MemberRead(ms[0], l, follow);
      NextMemberRead(w, MemberOnto(ms[0], l, follow), m, l.beforeComma, tail, HeldMembers(ms[1..]), rest);
    }
  }

  lemma InsertIntoNone(m: Member)
    ensures Insert(m, []) == [m]
  {
  }

  /** However a document is laid out, it is read as what it says: strings as their UTF-8 bytes, objects with
      their members in order of keys. */
  lemma LooseTextIsRead(d: Doc, l: Layout, before: string, behind: string)
    requires Proper(d) && Allowed(l) && Blanks(before) && Blanks(behind)
    ensures Parse(before + DocOnto(d, l, behind)) == Some(Held(d))
  {
    hide ParseValue, DocOnto, Held, Proper;
    assert Ends(behind);
    DocStarts(d, l, behind);
    BlanksSkipped(before, DocOnto(d, l, behind));
    DocRead(d, l, behind);
    BlanksSkipped(behind, "");
    assert behind + "" == behind;
  }

  // ----- what the parts mean --------------------------------------------------------------------------------

  /** The bytes of a code point decode to it (section 3 of RFC 3629). */
  lemma Utf8Decodes(n: nat)
    requires n < 0x110000
    ensures var b := Utf8(n);
      if n < 0x80 then b == [n as char]
      else if n < 0x800 then
        && |b| == 2 && 0xC0 <= b[0] as nat < 0xE0 && IsContinuation(b[1])
        && (b[0] as nat - 0xC0) * 0x40 + Payload(b[1]) == n
      else if n < 0x10000 then
        && |b| == 3 && 0xE0 <= b[0] as nat < 0xF0 && IsContinuation(b[1]) && IsContinuation(b[2])
        && (b[0] as nat - 0xE0) * 0x1000 + Payload(b[1]) * 0x40 + Payload(b[2]) == n
      else
        && |b| == 4 && 0xF0 <= b[0] as nat < 0xF8
        && IsContinuation(b[1]) && IsContinuation(b[2]) && IsContinuation(b[3])
        && (b[0] as nat - 0xF0) * 0x40000 + Payload(b[1]) * 0x1000 + Payload(b[2]) * 0x40 + Payload(b[3]) == n
  {
    Sextets(n);
  }

  predicate IsContinuation(c: char) { 0x80 <= c as nat < 0xC0 }

  function Payload(c: char): int { c as int - 0x80 }

  lemma Sextets(n: nat)
    ensures n == n / 64 * 64 + n % 64 && n / 64 == n / 4096 * 64 + n / 64 % 64
    ensures n / 4096 == n / 262144 * 64 + n / 4096 % 64
  {
    assert n / 64 / 64 == n / 4096 && n / 4096 / 64 == n / 262144;
  }

  /** The last of the members with this name. */
  function LastValue(ms: seq<DocMember>, name: string): Option<Json>
    requires forall i :: 0 <= i < |ms| ==> Scalars(ms[i].key) && Proper(ms[i].value)
  {
    if ms == [] then None
    else if LastValue(ms[1..], name).Some? then LastValue(ms[1..], name)
    else if Utf8All(ms[0].key) == name then Some(Held(ms[0].value))
    else None
  }

  lemma {:induction false} LowerKeyIsMissing(ms: seq<Member>, name: string)
    requires SortedKeys(ms) && ms != [] && Before(name, ms[0].key)
    ensures Find(ms, name).None?
  {
    hide Before;
    BeforeIrreflexive(name);
    if |ms| > 1 {
      BeforeTransitive(name, ms[0].key, ms[1].key);
      LowerKeyIsMissing(ms[1..], name);
    }
  }

  lemma {:induction false} FindInserted(m: Member, ms: seq<Member>, name: string)
    requires SortedKeys(ms)
    ensures Find(Insert(m, ms), name)
         == if Find(ms, name).Some? then Find(ms, name) else if m.key == name then Some(m.value) else None
  {
    hide Before;
    if ms == [] || Before(m.key, ms[0].key) {
      assert ([m] + ms)[1..] == ms;
      if ms != [] { LowerKeyIsMissing(ms, m.key); }
    } else if m.key != ms[0].key {
      FindInserted(m, ms[1..], name);
      var rest := Insert(m, ms[1..]);
      assert ([ms[0]] + rest)[1..] == rest;
    }
  }

  lemma HeldIsSorted(ms: seq<DocMember>)
    requires forall i :: 0 <= i < |ms| ==> Scalars(ms[i].key) && Proper(ms[i].value)
    ensures SortedKeys(HeldMembers(ms))
  {
    hide ParseValue, DocOnto, Held, Proper, HeldMembers, Scalars;
    var d, l := ObjDoc(ms), Layout("", "", "", "", "", Plain, false, false);
    assert Proper(d) && Held(d) == Obj(HeldMembers(ms)) by { ObjectParts(ms); }
    DocRead(d, l, "");
    ParsedIsWellFormed(DocOnto(d, l, ""));
  }

  lemma ObjectParts(ms: seq<DocMember>)
    requires forall i :: 0 <= i < |ms| ==> Scalars(ms[i].key) && Proper(ms[i].value)
    ensures Proper(ObjDoc(ms)) && Held(ObjDoc(ms)) == Obj(HeldMembers(ms))
  {
  }

  /** Of several members with one name the last one counts, whatever the order of the others. */
  lemma {:induction false} LastMemberCounts(ms: seq<DocMember>, name: string)
    requires forall i :: 0 <= i < |ms| ==> Scalars(ms[i].key) && Proper(ms[i].value)
    ensures Find(HeldMembers(ms), name) == LastValue(ms, name)
  {
    hide Held, Proper, Scalars, Utf8All, Insert, SortedKeys;
    if ms != [] {
      HeldIsSorted(ms[1..]);
      LastMemberCounts(ms[1..], name);
      FindInserted(Member(Utf8All(ms[0].key), Held(ms[0].value)), HeldMembers(ms[1..]), name);
    }
  }
}
