/** Compact JSON text as nlohmann::json::dump() writes it (no whitespace, object keys in order, the
    two-character escapes and \u00xx for the other control characters), and a parser that also takes
    blanks between tokens and every \u escape. */
module JsonText {
  import opened Records

  datatype Parsed<+T> = Fail | Ok(value: T, rest: string)

  // ----- well-formed values ---------------------------------------------------------------

  /** Byte-wise order, as std::map<std::string, ...> keeps its keys. */
  predicate Before(a: string, b: string) {
    if b == "" then false
    else if a == "" then true
    else a[0] < b[0] || (a[0] == b[0] && Before(a[1..], b[1..]))
  }

  lemma {:induction false} BeforeIrreflexive(a: string)
    ensures !Before(a, a)
  {
    if a != "" { BeforeIrreflexive(a[1..]); }
  }

  lemma {:induction false} BeforeTotal(a: string, b: string)
    ensures Before(a, b) || a == b || Before(b, a)
    ensures !(Before(a, b) && Before(b, a))
  {
    if a != "" && b != "" {
      BeforeTotal(a[1..], b[1..]);
      assert a == [a[0]] + a[1..] && b == [b[0]] + b[1..];
    }
  }

  lemma {:induction false} BeforeTransitive(a: string, b: string, c: string)
    requires Before(a, b) && Before(b, c)
    ensures Before(a, c)
  {
    if a != "" && a[0] == b[0] && b[0] == c[0] {
      BeforeTransitive(a[1..], b[1..], c[1..]);
    }
  }

  predicate SortedKeys(ms: seq<Member>) {
    |ms| < 2 || (Before(ms[0].key, ms[1].key) && SortedKeys(ms[1..]))
  }

  predicate IsDigit(c: char) { '0' <= c <= '9' }

  predicate NumChar(c: char) { IsDigit(c) || c in "+-.eE" }

  function LeadingDigits(t: string): (n: nat)
    ensures n <= |t| && forall i :: 0 <= i < n ==> IsDigit(t[i])
  {
    if t == "" || !IsDigit(t[0]) then 0 else 1 + LeadingDigits(t[1..])
  }

  /** The exponent part of a number, or nothing. */
  predicate ExponentText(t: string) {
    t == "" ||
    (t[0] in "eE" &&
     var u := if |t| > 1 && t[1] in "+-" then t[2..] else t[1..];
     u != "" && LeadingDigits(u) == |u|)
  }

  /** A JSON number (section 6 of RFC 8259). */
  predicate NumberText(t: string) {
    var u := if t != "" && t[0] == '-' then t[1..] else t;
    var n := LeadingDigits(u);
    && n >= 1 && (u[0] == '0' ==> n == 1)
    && var v := u[n..];
       if v != "" && v[0] == '.' then
         var m := LeadingDigits(v[1..]);
         m >= 1 && ExponentText(v[1 + m..])
       else ExponentText(v)
  }

  /** The values a nlohmann::json can hold: numbers print as numbers and keys are strictly sorted. */
  predicate WellFormed(v: Json)
    decreases v, 0
  {
    match v
    case Num(lexeme) => NumberText(lexeme)
    case Arr(items) => forall i :: 0 <= i < |items| ==> WellFormed(items[i])
    case Obj(members) => SortedKeys(members) && forall i :: 0 <= i < |members| ==> WellFormed(members[i].value)
    case _ => true
  }

  // ----- printing ---------------------------------------------------------------------------

  function HexDigit(n: nat): char
    requires n < 16
  {
    "0123456789abcdef"[n]
  }

  /** The letter of a two-character escape. */
  function ShortEscape(c: char): Option<char> {
    if c == '\"' || c == '\\' then Some(c)
    else if c == 8 as char then Some('b')
    else if c == 12 as char then Some('f')
    else if c == '\n' then Some('n')
    else if c == '\r' then Some('r')
    else if c == '\t' then Some('t')
    else None
  }

  function EscapeChar(c: char): string {
    match ShortEscape(c)
    case Some(letter) => ['\\', letter]
    case None => if c < ' ' then "\\u00" + [HexDigit(c as nat / 16), HexDigit(c as nat % 16)] else [c]
  }

  function Escape(s: string): string {
    if s == "" then "" else EscapeChar(s[0]) + Escape(s[1..])
  }

  function Quote(s: string): string {
    "\"" + Escape(s) + "\""
  }

  function Dump(v: Json): string
    decreases v, 0
  {
    match v
    case Null => "null"
    case Bool(b) => if b then "true" else "false"
    case Num(lexeme) => lexeme
    case Str(s) => Quote(s)
    case Arr(items) => "[" + DumpItems(items) + "]"
    case Obj(members) => "{" + DumpMembers(members) + "}"
  }

  function DumpItems(items: seq<Json>): string
    decreases items, 0
  {
    if items == [] then ""
    else Dump(items[0]) + (if |items| == 1 then "" else "," + DumpItems(items[1..]))
  }

  function DumpMember(m: Member): string
    decreases m, 0
  {
    Quote(m.key) + ":" + Dump(m.value)
  }

  function DumpMembers(ms: seq<Member>): string
    decreases ms, 0
  {
    if ms == [] then "" else DumpMember(ms[0]) + (if |ms| == 1 then "" else "," + DumpMembers(ms[1..]))
  }

  // ----- parsing ----------------------------------------------------------------------------

  function HexValue(c: char): (n: nat)
    ensures n <= 16
  {
    if '0' <= c <= '9' then (c - '0') as nat
    else if 'a' <= c <= 'f' then (c - 'a') as nat + 10
    else if 'A' <= c <= 'F' then (c - 'A') as nat + 10
    else 16
  }

  function ShortUnescape(letter: char): Option<char> {
    match letter
    case '\"' => Some('\"')
    case '\\' => Some('\\')
    case '/' => Some('/')
    case 'b' => Some(8 as char)
    case 'f' => Some(12 as char)
    case 'n' => Some('\n')
    case 'r' => Some('\r')
    case 't' => Some('\t')
    case _ => None
  }

  /** The four hexadecimal digits of a \u escape. */
  function Hex4(s: string): (r: Option<nat>)
    ensures r.Some? ==> |s| >= 4 && r.value < 0x10000
  {
    if |s| >= 4 && HexValue(s[0]) < 16 && HexValue(s[1]) < 16 && HexValue(s[2]) < 16 && HexValue(s[3]) < 16
    then Some(HexValue(s[0]) * 4096 + HexValue(s[1]) * 256 + HexValue(s[2]) * 16 + HexValue(s[3]))
    else None
  }

  /** A code point as its UTF-8 bytes (section 3 of RFC 3629). */
  function Utf8(n: nat): (bytes: string)
    requires n < 0x110000
    ensures 1 <= |bytes| <= 4 && (n < 0x80 ==> bytes == [n as char])
  {
    if n < 0x80 then [n as char]
    else if n < 0x800 then [(0xC0 + n / 64) as char, Continuation(n)]
    else if n < 0x10000 then [(0xE0 + n / 4096) as char, Continuation(n / 64), Continuation(n)]
    else [(0xF0 + n / 262144) as char, Continuation(n / 4096), Continuation(n / 64), Continuation(n)]
  }

  function Continuation(n: nat): char {
    (0x80 + n % 64) as char
  }

  /** One escape sequence, without its backslash. A high surrogate needs its low one right behind it. */
  function ParseEscape(s: string): (r: Parsed<string>)
    ensures r.Ok? ==> |r.rest| < |s|
  {
    if s == "" then Fail
    else if s[0] == 'u' then
      match Hex4(s[1..])
      case None => Fail
      case Some(n) =>
        if 0xD800 <= n < 0xDC00 then
          var low := if |s| >= 7 && s[5..7] == "\\u" then Hex4(s[7..]) else None;
          if low.Some? && 0xDC00 <= low.value < 0xE000
          then Ok(Utf8(0x10000 + (n - 0xD800) * 0x400 + (low.value - 0xDC00)), s[11..])
          else Fail
        else if 0xDC00 <= n < 0xE000 then Fail
        else Ok(Utf8(n), s[5..])
    else match ShortUnescape(s[0])
      case Some(c) => Ok([c], s[1..])
      case None => Fail
  }

  /** The rest of a string after its opening quote. */
  function ParseString(s: string): (r: Parsed<string>)
    ensures r.Ok? ==> |r.rest| < |s|
    decreases |s|
  {
    if s == "" || s[0] < ' ' then Fail
    else if s[0] == '\"' then Ok("", s[1..])
    else
      var first := if s[0] == '\\' then ParseEscape(s[1..]) else Ok([s[0]], s[1..]);
      match first
      case Fail => Fail
      case Ok(c, rest) =>
        match ParseString(rest)
        case Fail => Fail
        case Ok(tail, rest') => Ok(c + tail, rest')
  }

  function LeadingNumChars(s: string): (n: nat)
    ensures n <= |s|
  {
    if s == "" || !NumChar(s[0]) then 0 else 1 + LeadingNumChars(s[1..])
  }

  predicate Blank(c: char) { c == ' ' || c == '\t' || c == '\n' || c == '\r' }

  /** What is left after the blanks in front. */
  function SkipBlanks(s: string): (r: string)
    ensures |r| <= |s| && (r == "" || !Blank(r[0])) && (s == "" || !Blank(s[0]) ==> r == s)
  {
    if s != "" && Blank(s[0]) then SkipBlanks(s[1..]) else s
  }

  /** Whether the first token of a text is this character. */
  predicate StartsWith(s: string, c: char) {
    SkipBlanks(s) != "" && SkipBlanks(s)[0] == c
  }

  function Expect(s: string, token: string): (r: Parsed<()>)
    ensures r.Ok? ==> |r.rest| + |token| == |s|
  {
    if token <= s then Ok((), s[|token|..]) else Fail
  }

  function ParseNumber(s: string): (r: Parsed<Json>)
    ensures r.Ok? ==> |r.rest| < |s|
  {
    var n := LeadingNumChars(s);
    if n > 0 && NumberText(s[..n]) then Ok(Num(s[..n]), s[n..]) else Fail
  }

  /** A value that begins right here. */
  function ParseValue(s: string): (r: Parsed<Json>)
    ensures r.Ok? ==> |r.rest| < |s|
    decreases |s|, 0
  {
    if s == "" then Fail
    else match s[0]
      case 'n' => (match Expect(s, "null") case Fail => Fail case Ok(_, rest) => Ok(Null, rest))
      case 't' => (match Expect(s, "true") case Fail => Fail case Ok(_, rest) => Ok(Bool(true), rest))
      case 'f' => (match Expect(s, "false") case Fail => Fail case Ok(_, rest) => Ok(Bool(false), rest))
      case '\"' => (match ParseString(s[1..]) case Fail => Fail case Ok(t, rest) => Ok(Str(t), rest))
      case '[' =>
        if StartsWith(s[1..], ']') then Ok(Arr([]), SkipBlanks(s[1..])[1..])
        else (match ParseItems(s[1..]) case Fail => Fail case Ok(items, rest) => Ok(Arr(items), rest))
      case '{' =>
        if StartsWith(s[1..], '}') then Ok(Obj([]), SkipBlanks(s[1..])[1..])
        else (match ParseMembers(s[1..]) case Fail => Fail case Ok(ms, rest) => Ok(Obj(ms), rest))
      case _ => ParseNumber(s)
  }

  function ParseItems(s: string): (r: Parsed<seq<Json>>)
    ensures r.Ok? ==> |r.rest| < |s|
    decreases |s|, 1
  {
    match ParseValue(SkipBlanks(s))
    case Fail => Fail
    case Ok(v, after) =>
      var rest := SkipBlanks(after);
      if rest == "" then Fail
      else if rest[0] == ']' then Ok([v], rest[1..])
      else if rest[0] != ',' then Fail
      else (match ParseItems(rest[1..]) case Fail => Fail case Ok(vs, rest') => Ok([v] + vs, rest'))
  }

  function ParseMembers(s: string): (r: Parsed<seq<Member>>)
    ensures r.Ok? ==> |r.rest| < |s|
    decreases |s|, 1
  {
    match ParseMember(SkipBlanks(s))
    case Fail => Fail
    case Ok(m, after) =>
      var rest := SkipBlanks(after);
      if rest == "" then Fail
      else if rest[0] == '}' then Ok([m], rest[1..])
      else if rest[0] != ',' then Fail
      else (match ParseMembers(rest[1..]) case Fail => Fail case Ok(ms, rest') => Ok(Insert(m, ms), rest'))
  }

  function ParseMember(s: string): (r: Parsed<Member>)
    ensures r.Ok? ==> |r.rest| < |s|
    decreases |s|, 0
  {
    if s == "" || s[0] != '\"' then Fail
    else match ParseString(s[1..])
      case Fail => Fail
      case Ok(key, after) =>
        var rest := SkipBlanks(after);
        if rest == "" || rest[0] != ':' then Fail
        else match ParseValue(SkipBlanks(rest[1..]))
          case Fail => Fail
          case Ok(v, rest') => Ok(Member(key, v), rest')
  }

  /** Objects are kept sorted by key, and of two members with one key the later one counts. */
  function Insert(m: Member, later: seq<Member>): seq<Member> {
    if later == [] || Before(m.key, later[0].key) then [m] + later
    else if m.key == later[0].key then later
    else [later[0]] + Insert(m, later[1..])
  }

  /** json::parse: the whole text has to be one value. */
  function Parse(s: string): Option<Json> {
    match ParseValue(SkipBlanks(s))
    case Ok(v, rest) => if SkipBlanks(rest) == "" then Some(v) else None
    case Fail => None
  }

  // ----- round trip ---------------------------------------------------------------------------

  lemma EscapeCharRoundTrip(c: char, rest: string)
    ensures EscapeChar(c) != "" && EscapeChar(c)[0] >= ' ' && EscapeChar(c)[0] != '\"'
    ensures EscapeChar(c)[0] == '\\' ==> ParseEscape((EscapeChar(c) + rest)[1..]) == Ok([c], rest)
    ensures EscapeChar(c)[0] != '\\' ==> EscapeChar(c) == [c]
  {
    hide ParseEscape;
    if ShortEscape(c).Some? {
      ShortEscapeRoundTrip(c, rest);
      assert (EscapeChar(c) + rest)[1..] == [EscapeChar(c)[1]] + rest;
    } else if c < ' ' {
      LongEscapeRoundTrip(c, rest);
      assert (EscapeChar(c) + rest)[1..] == ['u', '0', '0', HexDigit(c as nat / 16), HexDigit(c as nat % 16)] + rest;
    }
  }

  lemma ShortEscapeRoundTrip(c: char, rest: string)
    requires ShortEscape(c).Some?
    ensures ParseEscape([ShortEscape(c).value] + rest) == Ok([c], rest)
  {
    var s := [ShortEscape(c).value] + rest;
    assert s[1..] == rest;
  }

  lemma LongEscapeRoundTrip(c: char, rest: string)
    requires c < ' '
    ensures ParseEscape(['u', '0', '0', HexDigit(c as nat / 16), HexDigit(c as nat % 16)] + rest) == Ok([c], rest)
  {
    hide HexDigit, HexValue;
    var h, l := HexDigit(c as nat / 16), HexDigit(c as nat % 16);
    var s := ['u', '0', '0', h, l] + rest;
    assert s[1..] == ['0', '0', h, l] + rest && s[5..] == rest;
    HexRoundTrip(c as nat / 16);
    HexRoundTrip(c as nat % 16);
    assert HexValue('0') == 0 by { HexRoundTrip(0); }
  }

  lemma HexRoundTrip(n: nat)
    requires n < 16
    ensures HexValue(HexDigit(n)) == n && HexDigit(0) == '0'
  {
  }

  lemma OneCharRoundTrip(c: char, tail: string, value: string, rest: string)
    requires ParseString(tail) == Ok(value, rest)
    ensures ParseString(EscapeChar(c) + tail) == Ok([c] + value, rest)
  {
    hide EscapeChar, ParseEscape;
    EscapeCharRoundTrip(c, tail);
    if EscapeChar(c)[0] != '\\' {
      assert (EscapeChar(c) + tail)[1..] == tail;
    }
  }

  lemma {:induction false} StringRoundTrip(s: string, rest: string)
    ensures ParseString(Escape(s) + "\"" + rest) == Ok(s, rest)
  {
    hide ParseString, EscapeChar;
    if s == "" {
      ClosingQuote(rest);
    } else {
      var tail := Escape(s[1..]) + "\"" + rest;
      assert Escape(s) + "\"" + rest == EscapeChar(s[0]) + tail;
      StringRoundTrip(s[1..], rest);
      OneCharRoundTrip(s[0], tail, s[1..], rest);
      assert [s[0]] + s[1..] == s;
    }
  }

  lemma ClosingQuote(rest: string)
    ensures ParseString("" + "\"" + rest) == Ok("", rest)
  {
    assert ("" + "\"" + rest)[1..] == rest;
  }

  lemma {:induction false} DigitsAreNumChars(t: string, n: nat)
    requires n <= |t| && forall i :: 0 <= i < n ==> NumChar(t[i])
    requires n < |t| ==> !NumChar(t[n])
    ensures LeadingNumChars(t) == n
  {
    if n > 0 {
      DigitsAreNumChars(t[1..], n - 1);
    }
  }

  predicate AllNumChars(t: string) {
    forall i :: 0 <= i < |t| ==> NumChar(t[i])
  }

  lemma ExponentIsNumChars(t: string)
    requires ExponentText(t)
    ensures AllNumChars(t)
  {
  }

  lemma FractionIsNumChars(v: string)
    requires v != "" && v[0] == '.' && ExponentText(v[1 + LeadingDigits(v[1..])..])
    ensures AllNumChars(v)
  {
    hide ExponentText, LeadingDigits;
    var m := LeadingDigits(v[1..]);
    ExponentIsNumChars(v[1 + m..]);
    forall i | 0 <= i < |v| ensures NumChar(v[i]) {
      if 1 <= i < 1 + m { assert v[i] == v[1..][i - 1]; }
      if i >= 1 + m { assert v[i] == v[1 + m..][i - 1 - m]; }
    }
  }

  lemma UnsignedIsNumChars(u: string)
    requires NumberText(u) && IsDigit(u[0])
    ensures AllNumChars(u)
  {
    hide LeadingDigits, ExponentText;
    var n := LeadingDigits(u);
    var v := u[n..];
    if v != "" && v[0] == '.' { FractionIsNumChars(v); } else { ExponentIsNumChars(v); }
    assert u == u[..n] + v;
  }

  /** A number is non-empty and made of the characters the parser collects for one. */
  lemma NumberIsNumChars(t: string)
    requires NumberText(t)
    ensures t != "" && (IsDigit(t[0]) || t[0] == '-') && AllNumChars(t)
  {
    if t[0] == '-' {
      assert t == ['-'] + t[1..];
      assert NumberText(t[1..]);
      UnsignedIsNumChars(t[1..]);
    } else {
      UnsignedIsNumChars(t);
    }
  }

  /** What may follow a value without running into it. */
  predicate Separates(v: Json, rest: string) {
    v.Num? ==> rest == "" || !NumChar(rest[0])
  }

  lemma DumpStarts(v: Json)
    requires WellFormed(v)
    ensures Dump(v) != "" && Dump(v)[0] !in "],}" && !Blank(Dump(v)[0])
  {
    if v.Num? { NumberIsNumChars(v.lexeme); }
  }

  /** A text that starts like a number is read as far as number characters go. */
  lemma ReadsNumber(s: string)
    requires s != "" && (IsDigit(s[0]) || s[0] == '-')
    ensures ParseValue(s) == ParseNumber(s)
  {
    hide ParseNumber, ParseItems, ParseMembers, ParseString;
  }

  lemma NumberRoundTrip(t: string, rest: string)
    requires NumberText(t) && Separates(Num(t), rest)
    ensures ParseValue(t + rest) == Ok(Num(t), rest)
  {
    NumberIsNumChars(t);
    var s := t + rest;
    assert s[0] == t[0];
    DigitsAreNumChars(s, |t|);
    assert s[..|t|] == t && s[|t|..] == rest;
    ReadsNumber(s);
  }

  lemma StringValueRoundTrip(t: string, rest: string)
    ensures ParseValue(Quote(t) + rest) == Ok(Str(t), rest)
  {
    hide ParseItems, ParseMembers, ParseString, ParseNumber, Expect, SkipBlanks, Escape;
    var s := Quote(t) + rest;
    StringRoundTrip(t, rest);
    assert s[1..] == Escape(t) + "\"" + rest;
  }

  lemma ArrayRoundTrip(items: seq<Json>, inner: string, rest: string)
    requires inner != "" && inner[0] != ']' && !Blank(inner[0]) && ParseItems(inner + "]" + rest) == Ok(items, rest)
    ensures ParseValue("[" + inner + "]" + rest) == Ok(Arr(items), rest)
  {
    hide ParseItems, ParseMembers, ParseString, ParseNumber, Expect, SkipBlanks;
    var s := "[" + inner + "]" + rest;
    assert s[1..] == inner + "]" + rest;
  }

  lemma ObjectRoundTrip(ms: seq<Member>, inner: string, rest: string)
    requires inner != "" && inner[0] != '}' && !Blank(inner[0]) && ParseMembers(inner + "}" + rest) == Ok(ms, rest)
    ensures ParseValue("{" + inner + "}" + rest) == Ok(Obj(ms), rest)
  {
    hide ParseItems, ParseMembers, ParseString, ParseNumber, Expect, SkipBlanks;
    var s := "{" + inner + "}" + rest;
    assert s[1..] == inner + "}" + rest;
  }

  lemma EmptyContainers(rest: string)
    ensures ParseValue("[]" + rest) == Ok(Arr([]), rest)
    ensures ParseValue("{}" + rest) == Ok(Obj([]), rest)
  {
    assert ("[]" + rest)[2..] == rest;
    assert ("{}" + rest)[2..] == rest;
  }

  lemma Keywords(rest: string)
    ensures ParseValue("null" + rest) == Ok(Null, rest)
    ensures ParseValue("true" + rest) == Ok(Bool(true), rest)
    ensures ParseValue("false" + rest) == Ok(Bool(false), rest)
  {
    assert ("null" + rest)[4..] == rest;
    assert ("true" + rest)[4..] == rest;
    assert ("false" + rest)[5..] == rest;
  }

  /** Parsing what was printed gives the value back and stops exactly where the text ended. */
  lemma {:induction false} ValueRoundTrip(v: Json, rest: string)
    requires WellFormed(v) && Separates(v, rest)
    ensures ParseValue(Dump(v) + rest) == Ok(v, rest)
    decreases v, 1
  {
    hide ParseValue, Escape, NumberText;
    match v
    case Null => Keywords(rest);
    case Bool(_) => Keywords(rest);
    case Num(t) => NumberRoundTrip(t, rest);
    case Str(t) => StringValueRoundTrip(t, rest);
    case Arr(items) =>
      if items == [] {
        assert Dump(v) == "[]";
        EmptyContainers(rest);
      } else {
        ItemsRoundTrip(items, rest);
        DumpStarts(items[0]);
        ArrayRoundTrip(items, DumpItems(items), rest);
      }
    case Obj(ms) =>
      if ms == [] {
        assert Dump(v) == "{}";
        EmptyContainers(rest);
      } else {
        MembersRoundTrip(ms, rest);
        ObjectRoundTrip(ms, DumpMembers(ms), rest);
      }
  }

  lemma LastItem(v: Json, text: string, rest: string)
    requires text != "" && !Blank(text[0]) && ParseValue(text + ("]" + rest)) == Ok(v, "]" + rest)
    ensures ParseItems(text + "]" + rest) == Ok([v], rest)
  {
    hide ParseValue;
    assert text + "]" + rest == text + ("]" + rest);
    assert ("]" + rest)[1..] == rest;
  }

  lemma OneMoreItem(v: Json, text: string, vs: seq<Json>, tail: string, rest: string)
    requires text != "" && !Blank(text[0])
    requires ParseValue(text + ("," + tail)) == Ok(v, "," + tail) && ParseItems(tail) == Ok(vs, rest)
    ensures ParseItems(text + ("," + tail)) == Ok([v] + vs, rest)
  {
    hide ParseValue;
    assert ("," + tail)[1..] == tail;
  }

  lemma Regroup(a: string, b: string, c: string, d: string, e: string)
    ensures (a + (b + c)) + d + e == a + (b + (c + d + e))
  {
  }

  lemma {:induction false} ItemsRoundTrip(items: seq<Json>, rest: string)
    requires items != [] && forall i :: 0 <= i < |items| ==> WellFormed(items[i])
    ensures ParseItems(DumpItems(items) + "]" + rest) == Ok(items, rest)
    decreases items, 0
  {
    hide ParseValue, ParseItems, Dump, WellFormed;
    DumpStarts(items[0]);
    if |items| == 1 {
      ValueRoundTrip(items[0], "]" + rest);
      LastItem(items[0], Dump(items[0]), rest);
      assert DumpItems(items) == Dump(items[0]) && items == [items[0]];
    } else {
      var tail := DumpItems(items[1..]) + "]" + rest;
      ItemsRoundTrip(items[1..], rest);
      ValueRoundTrip(items[0], "," + tail);
      OneMoreItem(items[0], Dump(items[0]), items[1..], tail, rest);
      Regroup(Dump(items[0]), ",", DumpItems(items[1..]), "]", rest);
      assert items == [items[0]] + items[1..];
    }
  }

  lemma LastMember(m: Member, text: string, rest: string)
    requires text != "" && !Blank(text[0]) && ParseMember(text + ("}" + rest)) == Ok(m, "}" + rest)
    ensures ParseMembers(text + "}" + rest) == Ok([m], rest)
  {
    assert text + "}" + rest == text + ("}" + rest);
    assert ("}" + rest)[1..] == rest;
  }

  lemma OneMoreMember(m: Member, text: string, ms: seq<Member>, tail: string, rest: string)
    requires text != "" && !Blank(text[0])
    requires ParseMember(text + ("," + tail)) == Ok(m, "," + tail) && ParseMembers(tail) == Ok(ms, rest)
    requires ms != [] && Before(m.key, ms[0].key)
    ensures ParseMembers(text + ("," + tail)) == Ok([m] + ms, rest)
  {
    hide ParseMember, Before;
    assert ("," + tail)[1..] == tail;
  }

  lemma {:induction false} MembersRoundTrip(ms: seq<Member>, rest: string)
    requires ms != [] && SortedKeys(ms) && forall i :: 0 <= i < |ms| ==> WellFormed(ms[i].value)
    ensures ParseMembers(DumpMembers(ms) + "}" + rest) == Ok(ms, rest)
    decreases ms, 0
  {
    hide ParseValue, ParseMember, ParseMembers, Dump, WellFormed;
    if |ms| == 1 {
      MemberRoundTrip(ms[0], "}" + rest);
      LastMember(ms[0], DumpMember(ms[0]), rest);
      assert DumpMembers(ms) == DumpMember(ms[0]) && ms == [ms[0]];
    } else {
      var tail := DumpMembers(ms[1..]) + "}" + rest;
      MembersRoundTrip(ms[1..], rest);
      MemberRoundTrip(ms[0], "," + tail);
      OneMoreMember(ms[0], DumpMember(ms[0]), ms[1..], tail, rest);
      Regroup(DumpMember(ms[0]), ",", DumpMembers(ms[1..]), "}", rest);
      assert ms == [ms[0]] + ms[1..];
    }
  }

  lemma KeyThenValue(key: string, v: Json, text: string, rest: string)
    requires text != "" && !Blank(text[0]) && ParseValue(text + rest) == Ok(v, rest)
    ensures ParseMember(Quote(key) + ":" + text + rest) == Ok(Member(key, v), rest)
  {
    hide ParseValue, ParseString, Escape;
    var s, after := Quote(key) + ":" + text + rest, ":" + (text + rest);
    StringRoundTrip(key, after);
    assert s[1..] == Escape(key) + "\"" + after;
    assert after[1..] == text + rest;
  }

  lemma {:induction false} MemberRoundTrip(m: Member, rest: string)
    requires WellFormed(m.value) && Separates(m.value, rest)
    ensures ParseMember(DumpMember(m) + rest) == Ok(m, rest)
    decreases m, 2
  {
    ValueRoundTrip(m.value, rest);
    KeyThenValue(m.key, m.value, Dump(m.value), rest);
  }

  /** json::parse of a dump. */
  lemma ParseRoundTrip(v: Json)
    requires WellFormed(v)
    ensures Parse(Dump(v)) == Some(v)
  {
    hide ParseValue;
    ValueRoundTrip(v, "");
    DumpStarts(v);
    assert Dump(v) + "" == Dump(v);
  }

  /** The other half of a round trip: a printed value followed by anything else parses to that value
      only, so printed texts are neither ambiguous nor prefixes of one another. */
  lemma DumpIsUnambiguous(v: Json, rest: string, w: Json, rest': string)
    requires WellFormed(v) && WellFormed(w) && Separates(v, rest) && Separates(w, rest')
    requires Dump(v) + rest == Dump(w) + rest'
    ensures v == w && rest == rest'
  {
    ValueRoundTrip(v, rest);
    ValueRoundTrip(w, rest');
  }

  // ----- a cut-off text is not a value ----------------------------------------------------------

  lemma Hex4Extends(p: string, q: string)
    requires Hex4(p).Some?
    ensures Hex4(p + q) == Hex4(p)
  {
  }

  lemma EscapeExtends(p: string, q: string)
    requires ParseEscape(p).Ok?
    ensures ParseEscape(p + q) == Ok(ParseEscape(p).value, ParseEscape(p).rest + q)
  {
    hide Hex4, Utf8;
    var s := p + q;
    assert s[0] == p[0] && s[1..] == p[1..] + q;
    if p[0] == 'u' {
      Hex4Extends(p[1..], q);
      assert s[5..] == p[5..] + q;
      if |p| >= 7 && Hex4(p[7..]).Some? {
        Hex4Extends(p[7..], q);
        assert s[7..] == p[7..] + q && s[5..7] == p[5..7] && s[11..] == p[11..] + q;
      }
    }
  }

  lemma {:induction false} StringExtends(p: string, q: string)
    requires ParseString(p).Ok?
    ensures ParseString(p + q) == Ok(ParseString(p).value, ParseString(p).rest + q)
    decreases |p|
  {
    hide ParseEscape;
    assert (p + q)[0] == p[0] && (p + q)[1..] == p[1..] + q;
    if p[0] == '\"' {
    } else if p[0] == '\\' {
      EscapeExtends(p[1..], q);
      StringExtends(ParseEscape(p[1..]).rest, q);
    } else {
      StringExtends(p[1..], q);
    }
  }

  lemma {:induction false} BlanksExtend(p: string, q: string)
    requires SkipBlanks(p) != ""
    ensures SkipBlanks(p + q) == SkipBlanks(p) + q
    ensures SkipBlanks(p + q)[0] == SkipBlanks(p)[0] && SkipBlanks(p + q)[1..] == SkipBlanks(p)[1..] + q
  {
    if Blank(p[0]) {
      assert (p + q)[1..] == p[1..] + q;
      BlanksExtend(p[1..], q);
    }
  }

  lemma {:induction false} NumCharsExtend(p: string, q: string)
    requires LeadingNumChars(p) < |p|
    ensures LeadingNumChars(p + q) == LeadingNumChars(p)
  {
    if NumChar(p[0]) {
      assert (p + q)[1..] == p[1..] + q;
      NumCharsExtend(p[1..], q);
    }
  }

  ghost predicate SelfDelimiting(r: Parsed<Json>) {
    r.Ok? && (r.value.Num? ==> r.rest != "")
  }

  lemma KeywordExtends(p: string, q: string)
    requires p != "" && p[0] in "ntf" && ParseValue(p).Ok?
    ensures ParseValue(p + q) == Ok(ParseValue(p).value, ParseValue(p).rest + q)
  {
    var s := p + q;
    assert s[0] == p[0];
    assert |p| >= 4 ==> s[4..] == p[4..] + q && s[..4] == p[..4];
    assert |p| >= 5 ==> s[5..] == p[5..] + q && s[..5] == p[..5];
  }

  lemma NumberExtends(p: string, q: string)
    requires p != "" && (IsDigit(p[0]) || p[0] == '-') && SelfDelimiting(ParseNumber(p))
    ensures ParseNumber(p + q) == Ok(ParseNumber(p).value, ParseNumber(p).rest + q)
  {
    hide NumberText;
    var s, n := p + q, LeadingNumChars(p);
    NumCharsExtend(p, q);
    assert s[..n] == p[..n] && s[n..] == p[n..] + q;
  }

  lemma ParsedValueStarts(p: string)
    requires ParseValue(p).Ok?
    ensures p != "" && (p[0] in "ntf\"[{" || IsDigit(p[0]) || p[0] == '-')
  {
    if p[0] !in "ntf\"[{" {
      NumberIsNumChars(p[..LeadingNumChars(p)]);
    }
  }

  /** Once a value has been recognised, appending more text changes nothing but the remainder. */
  lemma {:induction false} ValueExtends(p: string, q: string)
    requires SelfDelimiting(ParseValue(p))
    ensures ParseValue(p + q) == Ok(ParseValue(p).value, ParseValue(p).rest + q)
    decreases |p|, 0
  {
    hide ParseItems, ParseMembers, ParseString, ParseNumber, Expect, SkipBlanks;
    ParsedValueStarts(p);
    assert (p + q)[0] == p[0] && (p + q)[1..] == p[1..] + q;
    if p[0] in "ntf" {
      KeywordExtends(p, q);
    } else if p[0] == '\"' {
      StringExtends(p[1..], q);
    } else if p[0] == '[' {
      if !StartsWith(p[1..], ']') { ItemsExtend(p[1..], q); }
      ArrayExtends(p, q);
    } else if p[0] == '{' {
      if !StartsWith(p[1..], '}') { MembersExtend(p[1..], q); }
      ObjectExtends(p, q);
    } else {
      ReadsNumber(p);
      ReadsNumber(p + q);
      NumberExtends(p, q);
    }
  }

  lemma ArrayExtends(p: string, q: string)
    requires p != "" && p[0] == '[' && ParseValue(p).Ok? && (p + q)[1..] == p[1..] + q
    requires !StartsWith(p[1..], ']') ==>
      ParseItems(p[1..]).Ok? && ParseItems(p[1..] + q) == Ok(ParseItems(p[1..]).value, ParseItems(p[1..]).rest + q)
    ensures ParseValue(p + q) == Ok(ParseValue(p).value, ParseValue(p).rest + q)
  {
    hide ParseItems, ParseMembers, ParseString, ParseNumber, Expect, SkipBlanks;
    if !StartsWith(p[1..], ']') { ItemsStart(p[1..]); }
    BlanksExtend(p[1..], q);
  }

  lemma ItemsStart(p: string)
    requires ParseItems(p).Ok?
    ensures SkipBlanks(p) != ""
  {
    EmptyTextFails();
  }

  lemma ObjectExtends(p: string, q: string)
    requires p != "" && p[0] == '{' && ParseValue(p).Ok? && (p + q)[1..] == p[1..] + q
    requires !StartsWith(p[1..], '}') ==>
      && ParseMembers(p[1..]).Ok?
      && ParseMembers(p[1..] + q) == Ok(ParseMembers(p[1..]).value, ParseMembers(p[1..]).rest + q)
    ensures ParseValue(p + q) == Ok(ParseValue(p).value, ParseValue(p).rest + q)
  {
    hide ParseItems, ParseMembers, ParseString, ParseNumber, Expect, SkipBlanks;
    if !StartsWith(p[1..], '}') { MembersStart(p[1..]); }
    BlanksExtend(p[1..], q);
  }

  lemma MembersStart(p: string)
    requires ParseMembers(p).Ok?
    ensures SkipBlanks(p) != ""
  {
  }

  lemma {:induction false} ItemsExtend(p: string, q: string)
    requires ParseItems(p).Ok?
    ensures ParseItems(p + q) == Ok(ParseItems(p).value, ParseItems(p).rest + q)
    decreases |p|, 1
  {
    hide ParseValue, SkipBlanks;
    ItemsStart(p);
    BlanksExtend(p, q);
    var after := ParseValue(SkipBlanks(p)).rest;
    var rest := SkipBlanks(after);
    NoBlanks();
    ValueExtends(SkipBlanks(p), q);
    BlanksExtend(after, q);
    if rest[0] == ',' {
      ItemsExtend(rest[1..], q);
    }
  }

  lemma NoBlanks()
    ensures SkipBlanks("") == ""
  {
  }

  lemma {:induction false} MembersExtend(p: string, q: string)
    requires ParseMembers(p).Ok?
    ensures ParseMembers(p + q) == Ok(ParseMembers(p).value, ParseMembers(p).rest + q)
    decreases |p|, 1
  {
    hide ParseMember, Insert, SkipBlanks;
    MembersStart(p);
    BlanksExtend(p, q);
    var after := ParseMember(SkipBlanks(p)).rest;
    var rest := SkipBlanks(after);
    NoBlanks();
    MemberExtends(SkipBlanks(p), q);
    BlanksExtend(after, q);
    if rest[0] == ',' {
      MembersExtend(rest[1..], q);
    }
  }

  lemma {:induction false} MemberExtends(p: string, q: string)
    requires ParseMember(p).Ok? && ParseMember(p).rest != ""
    ensures ParseMember(p + q) == Ok(ParseMember(p).value, ParseMember(p).rest + q)
    decreases |p|, 0
  {
    hide ParseString, ParseValue, SkipBlanks;
    assert (p + q)[0] == p[0] && (p + q)[1..] == p[1..] + q;
    StringExtends(p[1..], q);
    var after := ParseString(p[1..]).rest;
    BlanksExtend(after, q);
    var rest := SkipBlanks(after);
    EmptyTextFails();
    BlanksExtend(rest[1..], q);
    ValueExtends(SkipBlanks(rest[1..]), q);
  }

  lemma BraceMeansObject(p: string)
    requires p != "" && p[0] == '{' && ParseValue(p).Ok?
    ensures ParseValue(p).value.Obj?
  {
    hide ParseMembers;
  }

  /** No proper prefix of a printed object is itself a JSON value. */
  lemma CutObjectDoesNotParse(v: Json, n: nat)
    requires WellFormed(v) && v.Obj? && n < |Dump(v)|
    ensures Parse(Dump(v)[..n]).None?
  {
    hide ParseValue, SkipBlanks;
    var p, q := Dump(v)[..n], Dump(v)[n..];
    assert p + q == Dump(v) == Dump(v) + "";
    ValueRoundTrip(v, "");
    if Parse(p).Some? {
      EmptyTextFails();
      NoBlanks();
      DumpStarts(v);
      assert p != "" && p[0] == Dump(v)[0];
      assert SkipBlanks(p) == p;
      BraceMeansObject(p);
      ValueExtends(p, q);
    }
  }

  lemma EmptyTextFails()
    ensures ParseValue("").Fail?
  {
  }

  lemma {:induction false} OnlyBlanks(p: string, q: string)
    requires SkipBlanks(p) == ""
    ensures SkipBlanks(p + q) == SkipBlanks(q)
  {
    if p == "" {
      assert p + q == q;
    } else {
      assert (p + q)[1..] == p[1..] + q;
      OnlyBlanks(p[1..], q);
    }
  }

  /** A text that is one object, and then anything but blanks, is not a JSON text. */
  lemma NothingMayFollow(p: string, q: string)
    requires Parse(p).Some? && Parse(p).value.Obj? && SkipBlanks(q) != ""
    ensures Parse(p + q).None?
  {
    hide ParseValue, SkipBlanks;
    EmptyTextFails();
    BlanksExtend(p, q);
    ValueExtends(SkipBlanks(p), q);
    OnlyBlanks(ParseValue(SkipBlanks(p)).rest, q);
  }
}
