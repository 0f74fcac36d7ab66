/** The ledger log: one JSON line per block, append-only, reloaded verbatim at start-up. The output
    stream has a sticky bad flag that nothing ever clears. */
module Storage {
  import opened Records
  import opened JsonText
  import opened Blocks
  import opened ParsedText
  import opened Chains

  function Line(b: Block): (line: string)
    ensures line != "" && Last(line) == '\n'
  {
    BlockText(b) + "\n"
  }

  function EncodeLog(blocks: seq<Block>): string {
    if blocks == [] then "" else EncodeLog(blocks[..|blocks| - 1]) + Line(Last(blocks))
  }

  /** The file behind an append handle, and the handle's state. */
  datatype Log = Log(bytes: string, bad: bool)

  /** How a write goes: through to the disk, or failing after some of its bytes. */
  datatype Disk = Works | FailsAfter(n: nat)

  /** The first n bytes, or all of a shorter text. */
  function Cut(line: string, n: nat): string {
    line[..if n < |line| then n else |line|]
  }

  /** append_block: nothing is written through a bad stream; a failing write leaves some prefix of the
      line behind, with what closing the stream may still flush, and the stream bad for good. */
  function AppendLine(log: Log, line: string, disk: Disk): Log
    requires line != ""
  {
    if log.bad then log
    else match disk
      case Works => log.(bytes := log.bytes + line)
      case FailsAfter(n) => Log(log.bytes + Cut(line, n), true)
  }

  datatype LoadResult = Loaded(blocks: seq<Block>) | Malformed(line: nat)

  function NewlineAt(text: string): (n: nat)
    ensures n <= |text| && '\n' !in text[..n] && (n < |text| ==> text[n] == '\n')
  {
    if text == "" || text[0] == '\n' then 0
    else
      var n := NewlineAt(text[1..]);
      assert text[..n + 1] == [text[0]] + text[1..][..n];
      n + 1
  }

  /** What std::getline leaves unread: the newline is consumed; text after the last newline is a
      line of its own unless it is empty. */
  function AfterLine(text: string): string {
    var n := NewlineAt(text);
    if n < |text| then text[n + 1..] else ""
  }

  /** The lines of a file as blocks, or the number of the first line that is not one. */
  function ReadLog(text: string, lineno: nat): LoadResult
    decreases |text|
  {
    if text == "" then Loaded([])
    else match ReadBlock(text[..NewlineAt(text)])
      case None => Malformed(lineno + 1)
      case Some(b) =>
        match ReadLog(AfterLine(text), lineno + 1)
        case Malformed(n) => Malformed(n)
        case Loaded(blocks) => Loaded([b] + blocks)
  }

  ghost function Prepend(blocks: seq<Block>, r: LoadResult): LoadResult {
    match r
    case Malformed(n) => r
    case Loaded(more) => Loaded(blocks + more)
  }

  /** load_chain. A missing or empty file gives a fresh chain holding a genesis block. */
  function LoadChain(sha: Sha, file: Option<string>, now: string): LoadResult {
    match file
    case None => Loaded([Genesis(sha, now)])
    case Some(text) =>
      match ReadLog(text, 0)
      case Malformed(n) => Malformed(n)
      case Loaded(blocks) => Loaded(if blocks == [] then [Genesis(sha, now)] else blocks)
  }

  lemma ReadFirstLine(text: string, lineno: nat)
    requires text != ""
    ensures ReadLog(text, lineno)
         == match ReadBlock(text[..NewlineAt(text)])
            case None => Malformed(lineno + 1)
            case Some(b) => Prepend([b], ReadLog(AfterLine(text), lineno + 1))
  {
    hide ReadBlock, NewlineAt;
  }

  lemma PrependTwice(blocks: seq<Block>, b: Block, r: LoadResult)
    ensures Prepend(blocks, Prepend([b], r)) == Prepend(blocks + [b], r)
  {
    assert forall more: seq<Block> :: blocks + ([b] + more) == (blocks + [b]) + more;
  }

  method Load(sha: Sha, file: Option<string>, now: string) returns (r: LoadResult)
    ensures r == LoadChain(sha, file, now)
  {
    hide ReadBlock, Genesis, ReadLog, NewlineAt;
    EmptyLog(0);
    if file.None? {
      return Loaded([Genesis(sha, now)]);
    }
    var blocks, rest, lineno := [], file.value, 0;
    while rest != ""
      invariant ReadLog(file.value, 0) == Prepend(blocks, ReadLog(rest, lineno))
      decreases |rest|
    {
      var n := NewlineAt(rest);
      ReadFirstLine(rest, lineno);
      lineno := lineno + 1;
      match ReadBlock(rest[..n])
      case None => return Malformed(lineno);
      case Some(b) =>
        PrependTwice(blocks, b, ReadLog(AfterLine(rest), lineno));
        blocks := blocks + [b];
        rest := if n < |rest| then rest[n + 1..] else "";
    }
    EmptyLog(lineno);
    assert blocks + [] == blocks;
    if blocks == [] {
      return Loaded([Genesis(sha, now)]);
    }
    return Loaded(blocks);
  }

  /** The append handle. */
  class LogFile {
    var bytes: string
    var bad: bool

    ghost function View(): Log
      reads this
    {
      Log(bytes, bad)
    }

    constructor (existing: string)
      ensures View() == Log(existing, false)
    {
      bytes, bad := existing, false;
    }

    /** Reports failure exactly when the stream is bad afterwards. */
    method AppendBlock(b: Block, disk: Disk) returns (ok: bool)
      modifies this
      ensures View() == AppendLine(old(View()), Line(b), disk) && ok == !bad
    {
      hide BlockText;
      if bad {
        return false;
      }
      var line := BlockText(b) + "\n";
      match disk
      case Works =>
        bytes := bytes + line;
        return true;
      case FailsAfter(n) =>
        bytes := bytes + Cut(line, n);
        bad := true;
        return false;
    }
  }

  // ----- a block's text is one line ---------------------------------------------------------------

  predicate Printable(t: string) {
    forall i :: 0 <= i < |t| ==> t[i] >= ' '
  }

  lemma {:induction false} EscapePrintable(s: string)
    ensures Printable(Escape(s))
  {
    if s != "" {
      EscapePrintable(s[1..]);
      EscapeCharPrintable(s[0]);
    }
  }

  lemma EscapeCharPrintable(c: char)
    ensures Printable(EscapeChar(c))
  {
  }

  lemma JoinPrintable(a: string, b: string, c: string)
    requires Printable(a) && Printable(b) && Printable(c)
    ensures Printable(a + b + c)
  {
  }

  lemma PunctuationPrintable()
    ensures Printable("") && Printable("[") && Printable("]") && Printable("{") && Printable("}")
    ensures Printable(",") && Printable(":") && Printable("\"")
    ensures Printable("null") && Printable("true") && Printable("false")
  {
  }

  lemma QuotePrintable(s: string)
    ensures Printable(Quote(s))
  {
    hide Printable, Escape;
    PunctuationPrintable();
    EscapePrintable(s);
    JoinPrintable("\"", Escape(s), "\"");
  }

  lemma {:induction false} DumpPrintable(v: Json)
    requires WellFormed(v)
    ensures Printable(Dump(v))
    decreases v, 1
  {
    hide Printable, Quote, DumpItems, DumpMembers, NumberText;
    PunctuationPrintable();
    match v
    case Null =>
    case Bool(_) =>
    case Num(t) => NumberPrintable(t);
    case Str(s) => QuotePrintable(s);
    case Arr(items) =>
      ItemsPrintable(items);
      JoinPrintable("[", DumpItems(items), "]");
    case Obj(ms) =>
      MembersPrintable(ms);
      JoinPrintable("{", DumpMembers(ms), "}");
  }

  lemma NumberPrintable(t: string)
    requires NumberText(t)
    ensures Printable(t)
  {
    NumberIsNumChars(t);
  }

  lemma {:induction false} ItemsPrintable(items: seq<Json>)
    requires forall i :: 0 <= i < |items| ==> WellFormed(items[i])
    ensures Printable(DumpItems(items))
    decreases items, 0
  {
    hide WellFormed, Dump, Printable;
    PunctuationPrintable();
    if items != [] {
      DumpPrintable(items[0]);
      ItemsPrintable(items[1..]);
      JoinPrintable(Dump(items[0]), "", "");
      JoinPrintable(Dump(items[0]), ",", DumpItems(items[1..]));
      Regroup3(Dump(items[0]), ",", DumpItems(items[1..]));
    }
  }

  lemma Regroup3(a: string, b: string, c: string)
    ensures a + (b + c) == a + b + c && a + "" + "" == a + "" == a
  {
  }

  lemma {:induction false} MembersPrintable(ms: seq<Member>)
    requires forall i :: 0 <= i < |ms| ==> WellFormed(ms[i].value)
    ensures Printable(DumpMembers(ms))
    decreases ms, 0
  {
    hide WellFormed, Dump, Quote, Printable;
    PunctuationPrintable();
    if ms != [] {
      QuotePrintable(ms[0].key);
      DumpPrintable(ms[0].value);
      MembersPrintable(ms[1..]);
      JoinPrintable(Quote(ms[0].key), ":", Dump(ms[0].value));
      JoinPrintable(DumpMember(ms[0]), "", "");
      JoinPrintable(DumpMember(ms[0]), ",", DumpMembers(ms[1..]));
      Regroup3(DumpMember(ms[0]), ",", DumpMembers(ms[1..]));
    }
  }

  lemma BlockTextIsOneLine(b: Block)
    requires WellFormedEvent(b.event)
    ensures Printable(BlockText(b)) && '\n' !in BlockText(b) && BlockText(b) != ""
  {
    hide BlockJson, Dump, WellFormed;
    BlockJsonWellFormed(b);
    DumpPrintable(BlockJson(b));
    DumpStarts(BlockJson(b));
  }

  // ----- reload ------------------------------------------------------------------------------------

  lemma {:induction false} FirstNewline(line: string, rest: string)
    requires '\n' !in line
    ensures NewlineAt(line + "\n" + rest) == |line|
  {
    var text := line + "\n" + rest;
    if line != "" {
      assert text[1..] == line[1..] + "\n" + rest;
      FirstNewline(line[1..], rest);
    } else {
      assert text == "\n" + rest;
    }
  }

  lemma {:induction false} NoNewline(line: string)
    requires '\n' !in line
    ensures NewlineAt(line) == |line|
  {
    if line != "" {
      NoNewline(line[1..]);
    }
  }

  lemma ReadOneLine(b: Block, rest: string, lineno: nat)
    requires WellFormedEvent(b.event)
    ensures ReadLog(Line(b) + rest, lineno) == Prepend([b], ReadLog(rest, lineno + 1))
  {
    hide ReadBlock, BlockText;
    var text := Line(b) + rest;
    BlockTextIsOneLine(b);
    FirstNewline(BlockText(b), rest);
    BlockRoundTrip(b);
    assert text[..|BlockText(b)|] == BlockText(b);
    assert AfterLine(text) == rest;
  }

  /** Reading the encoding of some blocks followed by anything else. */
  lemma {:induction false} ReadEncoded(blocks: seq<Block>, rest: string, lineno: nat)
    requires Readable(blocks)
    ensures ReadLog(EncodeLog(blocks) + rest, lineno) == Prepend(blocks, ReadLog(rest, lineno + |blocks|))
    decreases |blocks|
  {
    hide ReadLog, Line;
    if blocks == [] {
      assert EncodeLog(blocks) + rest == rest;
    } else {
      var front, b := blocks[..|blocks| - 1], Last(blocks);
      assert EncodeLog(blocks) + rest == EncodeLog(front) + (Line(b) + rest);
      ReadEncoded(front, Line(b) + rest, lineno);
      ReadOneLine(b, rest, lineno + |front|);
      assert blocks == front + [b];
      assert forall more: seq<Block> :: front + ([b] + more) == blocks + more;
    }
  }

  /** Whatever a start-up loads from a ledger file, tampered with or not, can be dumped and read again. */
  lemma {:induction false} LoadedBlocksAreReadable(text: string, lineno: nat)
    requires ReadLog(text, lineno).Loaded?
    ensures Readable(ReadLog(text, lineno).blocks)
    decreases |text|
  {
    hide ReadBlock, WellFormedEvent;
    if text != "" {
      ReadBlockIsWellFormed(text[..NewlineAt(text)]);
      LoadedBlocksAreReadable(AfterLine(text), lineno + 1);
    }
  }

  /** Appending blocks and reloading returns exactly those blocks. */
  lemma LogRoundTrip(sha: Sha, blocks: seq<Block>, now: string)
    requires Readable(blocks) && blocks != []
    ensures LoadChain(sha, Some(EncodeLog(blocks)), now) == Loaded(blocks)
  {
    hide Genesis;
    ReadEncoded(blocks, "", 0);
    assert EncodeLog(blocks) + "" == EncodeLog(blocks);
    assert blocks + [] == blocks;
  }

  /** So does appending to a file of complete lines, whatever those lines look like. */
  lemma AppendedLogRoundTrip(sha: Sha, text: string, base: seq<Block>, more: seq<Block>, now: string)
    requires Terminated(text) && ReadLog(text, 0) == Loaded(base) && Readable(more) && base + more != []
    ensures LoadChain(sha, Some(text + EncodeLog(more)), now) == Loaded(base + more)
  {
    hide Genesis, ReadLog, EncodeLog, Terminated;
    ReadAppended(text, base, more, "");
    EmptyLog(|base + more|);
    assert text + EncodeLog(more) + "" == text + EncodeLog(more) && base + more + [] == base + more;
  }

  lemma ReadAppended(text: string, base: seq<Block>, more: seq<Block>, rest: string)
    requires Terminated(text) && ReadLog(text, 0) == Loaded(base) && Readable(more)
    ensures ReadLog(text + EncodeLog(more) + rest, 0) == Prepend(base + more, ReadLog(rest, |base + more|))
  {
    hide ReadLog, EncodeLog, Terminated;
    assert text + EncodeLog(more) + rest == text + (EncodeLog(more) + rest);
    ReadTerminated(text, EncodeLog(more) + rest, 0);
    ReadEncoded(more, rest, |base|);
    assert forall tail: seq<Block> :: base + (more + tail) == base + more + tail;
  }

  lemma ReadCutLine(b: Block, n: nat, lineno: nat)
    requires WellFormedEvent(b.event) && 0 < n <= |Line(b)|
    ensures ReadLog(Line(b)[..n], lineno)
         == if n >= |BlockText(b)| then Loaded([b]) else Malformed(lineno + 1)
  {
    hide ReadBlock, BlockText;
    if n == |Line(b)| {
      assert Line(b)[..n] == BlockText(b) + "\n" + "";
      ReadOneLine(b, "", lineno);
    } else {
      var text := BlockText(b)[..n];
      assert Line(b)[..n] == text;
      BlockTextIsOneLine(b);
      NoNewline(text);
      assert text[..|text|] == text && AfterLine(text) == "";
      if n == |BlockText(b)| {
        assert text == BlockText(b);
        BlockRoundTrip(b);
      } else {
        CutBlockDoesNotRead(b, n);
      }
    }
  }

  /** Ends in a complete line, or is empty. */
  predicate Terminated(text: string) {
    text == "" || Last(text) == '\n'
  }

  /** A readable text of complete lines, and whatever was written behind it. */
  lemma {:induction false} ReadTerminated(text: string, rest: string, lineno: nat)
    requires Terminated(text) && ReadLog(text, lineno).Loaded?
    ensures ReadLog(text + rest, lineno)
         == Prepend(ReadLog(text, lineno).blocks, ReadLog(rest, lineno + |ReadLog(text, lineno).blocks|))
    decreases |text|
  {
    hide ReadBlock, NewlineAt, ReadLog;
    if text == "" {
      EmptyLog(lineno);
      assert text + rest == rest;
      assert forall more: seq<Block> :: [] + more == more;
    } else {
      var n := NewlineAt(text);
      FullLine(text, rest);
      assert (text + rest)[..n] == text[..n] && (text + rest)[n + 1..] == text[n + 1..] + rest;
      assert text[n + 1..] != "" ==> Last(text[n + 1..]) == Last(text);
      ReadFullLine(text, lineno);
      ReadFullLine(text + rest, lineno);
      ReadTerminated(text[n + 1..], rest, lineno + 1);
      var b, bs := ReadBlock(text[..n]).value, ReadLog(text[n + 1..], lineno + 1).blocks;
      assert forall more: seq<Block> :: [b] + (bs + more) == ([b] + bs) + more;
    }
  }

  lemma ReadFullLine(text: string, lineno: nat)
    requires NewlineAt(text) < |text|
    ensures var n := NewlineAt(text);
      ReadLog(text, lineno)
      == match ReadBlock(text[..n])
         case None => Malformed(lineno + 1)
         case Some(b) => Prepend([b], ReadLog(text[n + 1..], lineno + 1))
  {
    hide ReadBlock, NewlineAt;
  }

  lemma NoNewlineBefore(text: string)
    ensures forall i :: 0 <= i < NewlineAt(text) ==> text[i] != '\n'
  {
    hide NewlineAt;
    forall i | 0 <= i < NewlineAt(text) ensures text[i] != '\n' {
      assert text[..NewlineAt(text)][i] == text[i];
    }
  }

  lemma FullLine(text: string, rest: string)
    requires text != "" && Last(text) == '\n'
    ensures NewlineAt(text) < |text| && NewlineAt(text + rest) == NewlineAt(text)
  {
    hide NewlineAt;
    var n := NewlineAt(text);
    NoNewlineBefore(text);
    assert text == text[..n] + "\n" + text[n + 1..];
    FirstNewline(text[..n], text[n + 1..] + rest);
    assert text + rest == text[..n] + "\n" + (text[n + 1..] + rest);
  }

  /** Behind a text whose last line is not complete, anything but blanks spoils that line. */
  lemma {:induction false} ReadUnterminated(text: string, rest: string, lineno: nat)
    requires !Terminated(text) && ReadLog(text, lineno).Loaded? && SkipBlanks(rest[..NewlineAt(rest)]) != ""
    ensures ReadLog(text, lineno).blocks != []
    ensures ReadLog(text + rest, lineno) == Malformed(lineno + |ReadLog(text, lineno).blocks|)
    decreases |text|
  {
    hide ReadBlock, NewlineAt, SkipBlanks, ReadLog;
    var n := NewlineAt(text);
    UnterminatedIsNotEmpty(text, lineno);
    if n < |text| {
      assert text == text[..n] + "\n" + text[n + 1..];
      assert text + rest == text[..n] + "\n" + (text[n + 1..] + rest);
      FirstNewline(text[..n], text[n + 1..] + rest);
      assert (text + rest)[..n] == text[..n] && (text + rest)[n + 1..] == text[n + 1..] + rest;
      assert text[n + 1..] != "" by { assert Last(text) != '\n' && text[n] == '\n'; }
      assert Last(text[n + 1..]) == Last(text);
      ReadFullLine(text, lineno);
      ReadFullLine(text + rest, lineno);
      ReadUnterminated(text[n + 1..], rest, lineno + 1);
    } else {
      LastLineIsSpoilt(text, rest, lineno);
    }
  }

  lemma LastLineIsSpoilt(text: string, rest: string, lineno: nat)
    requires text != "" && NewlineAt(text) == |text| && ReadLog(text, lineno).Loaded?
    requires SkipBlanks(rest[..NewlineAt(rest)]) != ""
    ensures |ReadLog(text, lineno).blocks| == 1 && ReadLog(text + rest, lineno) == Malformed(lineno + 1)
  {
    hide ReadBlock, NewlineAt, SkipBlanks;
    var n, m := |text|, NewlineAt(rest);
    assert text[..n] == text && ReadLog("", lineno + 1) == Loaded([]);
    LastLineGrows(text, rest);
    assert (text + rest)[..n + m] == text + rest[..m];
    NotABlockAnyMore(text, rest[..m]);
  }

  lemma LastLineGrows(text: string, rest: string)
    requires '\n' !in text
    ensures NewlineAt(text + rest) == |text| + NewlineAt(rest)
  {
    hide NewlineAt;
    var m := NewlineAt(rest);
    if m < |rest| {
      FirstNewline(text + rest[..m], rest[m + 1..]);
      assert text + rest == text + rest[..m] + "\n" + rest[m + 1..];
    } else {
      assert text + rest == text + rest[..m];
      NoNewline(text + rest[..m]);
    }
  }

  /** What a start-up makes of a file that held some blocks in complete lines, to which more were
      appended and then an append failed part-way: exactly one of three things. Nothing of the last
      line had been written and the chain is back; all of it had, with or without its newline, and the
      refused block comes back to life; or start-up fails naming the torn line. */
  lemma RestartAfterTornAppend(sha: Sha, text: string, base: seq<Block>, more: seq<Block>, b: Block, n: nat,
                               now: string)
    requires Terminated(text) && ReadLog(text, 0) == Loaded(base)
    requires Readable(more) && WellFormedEvent(b.event) && n <= |Line(b)|
    ensures LoadChain(sha, Some(text + EncodeLog(more) + Line(b)[..n]), now)
         == if n == 0 then Loaded(if base + more == [] then [Genesis(sha, now)] else base + more)
            else if n >= |BlockText(b)| then Loaded(base + more + [b])
            else Malformed(|base + more| + 1)
  {
    hide Genesis, ReadLog, BlockText, EncodeLog, WellFormedEvent, Terminated, Readable;
    var torn := Line(b)[..n];
    ReadAppended(text, base, more, torn);
    if n == 0 {
      EmptyLog(|base + more|);
      assert base + more + [] == base + more;
    } else {
      ReadCutLine(b, n, |base + more|);
    }
  }

  lemma EmptyLog(lineno: nat)
    ensures ReadLog("", lineno) == Loaded([])
  {
  }

  /** A file whose last line lacks its newline, as it is after a block came back to life, takes no more
      blocks: the process that loaded it runs on, but the first append is glued to that line, and the
      next start-up fails there. */
  lemma GluedLineIsMalformed(sha: Sha, text: string, base: seq<Block>, more: seq<Block>, b: Block, n: nat, now: string)
    requires !Terminated(text) && ReadLog(text, 0) == Loaded(base)
    requires Readable(more) && WellFormedEvent(b.event) && n <= |Line(b)|
    ensures base != []
    ensures LoadChain(sha, Some(text + EncodeLog(more) + Line(b)[..n]), now)
         == if more == [] && n == 0 then Loaded(base) else Malformed(|base|)
  {
    hide ReadBlock, BlockText, Genesis, ReadLog, WellFormedEvent, SkipBlanks;
    var rest := EncodeLog(more) + Line(b)[..n];
    UnterminatedIsNotEmpty(text, 0);
    assert text + EncodeLog(more) + Line(b)[..n] == text + rest;
    if more == [] && n == 0 {
      assert text + rest == text;
    } else {
      FirstLineBegins(more, b, n);
      ReadUnterminated(text, rest, 0);
    }
  }

  lemma UnterminatedIsNotEmpty(text: string, lineno: nat)
    requires !Terminated(text) && ReadLog(text, lineno).Loaded?
    ensures ReadLog(text, lineno).blocks != []
  {
    hide ReadBlock, NewlineAt;
  }

  lemma FirstLineBegins(more: seq<Block>, b: Block, n: nat)
    requires Readable(more) && WellFormedEvent(b.event) && n <= |Line(b)| && (more != [] || n > 0)
    ensures var rest := EncodeLog(more) + Line(b)[..n];
      SkipBlanks(rest[..NewlineAt(rest)]) != ""
  {
    hide BlockText, SkipBlanks, WellFormedEvent, NewlineAt;
    var rest := EncodeLog(more) + Line(b)[..n];
    if more == [] {
      assert rest == Line(b)[..n];
      CutLineBegins(b, n);
    } else {
      var c := more[0];
      EncodeSplit(more);
      BlockTextIsOneLine(c);
      BlockTextBegins(c);
      var tail := EncodeLog(more[1..]) + Line(b)[..n];
      assert rest == BlockText(c) + "\n" + tail;
      FirstNewline(BlockText(c), tail);
      assert rest[..|BlockText(c)|] == BlockText(c);
    }
  }

  lemma CutLineBegins(b: Block, n: nat)
    requires WellFormedEvent(b.event) && 0 < n <= |Line(b)|
    ensures var rest := Line(b)[..n]; SkipBlanks(rest[..NewlineAt(rest)]) != ""
  {
    hide BlockText, SkipBlanks, WellFormedEvent, NewlineAt;
    var rest := Line(b)[..n];
    BlockTextIsOneLine(b);
    BlockTextBegins(b);
    if n == |Line(b)| {
      assert rest == BlockText(b) + "\n" + "";
      FirstNewline(BlockText(b), "");
      assert rest[..|BlockText(b)|] == BlockText(b);
    } else {
      assert rest == BlockText(b)[..n];
      NoNewline(rest);
      assert rest[..|rest|] == rest;
    }
  }

  lemma {:induction false} EncodeSplit(blocks: seq<Block>)
    requires blocks != []
    ensures EncodeLog(blocks) == Line(blocks[0]) + EncodeLog(blocks[1..])
    decreases |blocks|
  {
    hide Line;
    var n := |blocks| - 1;
    if n > 0 {
      EncodeSplit(blocks[..n]);
      assert blocks[..n][1..] == blocks[1..][..n - 1] && Last(blocks[1..]) == Last(blocks);
    } else {
      assert blocks[..0] == [] && blocks[1..] == [];
    }
  }

  lemma BlockTextBegins(b: Block)
    ensures SkipBlanks(BlockText(b)) == BlockText(b) != ""
    ensures forall n :: 0 < n <= |BlockText(b)| ==> SkipBlanks(BlockText(b)[..n]) == BlockText(b)[..n]
  {
    hide BlockJson, SkipBlanks;
    BlockJsonIsObject(b);
    assert BlockText(b)[0] == '{';
  }

  /** A line that is a block, and then anything but blanks, is not one. */
  lemma NotABlockAnyMore(line: string, more: string)
    requires ReadBlock(line).Some? && SkipBlanks(more) != ""
    ensures ReadBlock(line + more).None?
  {
    hide Parse, SkipBlanks;
    NothingMayFollow(line, more);
  }

  // ----- boots and clean restarts ----------------------------------------------------------------

  datatype Booted = Booted(chain: seq<Block>, log: Log)

  /** A start-up that is refused leaves this file behind. */
  datatype BootResult = Up(booted: Booted) | Down(file: Option<string>)

  /** The start of run(): whether the boot is fresh is decided from the file before it is loaded, and
      only a fresh boot persists the genesis block it seeded; if that fails the process ends. */
  function Boot(sha: Sha, file: Option<string>, now: string, disk: Disk): BootResult {
    match LoadChain(sha, file, now)
    case Malformed(_) => Down(file)
    case Loaded(blocks) =>
      var isFresh := file.None? || file.value == "";
      var log := Log(if file.None? then "" else file.value, false);
      if !isFresh || blocks == [] then Up(Booted(blocks, log))
      else
        var log' := AppendLine(log, Line(Last(blocks)), disk);
        if log'.bad then Down(Some(log'.bytes)) else Up(Booted(blocks, log'))
  }

  /** Serving some events on a working disk: hash, persist, publish, one after the other. */
  function ServeAll(sha: Sha, s: Booted, events: seq<Stamped>): Booted
    requires s.chain != []
    decreases |events|
  {
    if events == [] then s
    else
      var b := BuildNext(sha, s.chain, events[0].event, events[0].timestamp);
      ServeAll(sha, Booted(s.chain + [b], AppendLine(s.log, Line(b), Works)), events[1..])
  }

  /** A process from boot to clean exit. */
  datatype Session = Session(now: string, events: seq<Stamped>)

  ghost predicate AllEventsWellFormed(events: seq<Stamped>) {
    forall i :: 0 <= i < |events| ==> WellFormedEvent(events[i].event)
  }

  /** Memory and disk agree. */
  ghost predicate Persisted(sha: Sha, s: Booted) {
    Sound(sha, s.chain) && Readable(s.chain) && s.log == Log(EncodeLog(s.chain), false)
  }

  /** What is left of the genesis line when its append fails. */
  function TornGenesis(sha: Sha, now: string, disk: Disk): string
    requires disk.FailsAfter?
  {
    Cut(Line(Genesis(sha, now)), disk.n)
  }

  /** A boot on an intact log has memory and disk agree, whatever the disk does. One on no file or an
      empty one writes its genesis, and is refused exactly if that fails. */
  lemma BootPersists(sha: Sha, now: string, file: Option<string>, chain: seq<Block>, disk: Disk)
    requires chain == [] ==> file.None? || file.value == ""
    requires chain != [] ==> file == Some(EncodeLog(chain)) && Sound(sha, chain) && Readable(chain)
    ensures var r := Boot(sha, file, now, disk);
      if chain == [] && disk.FailsAfter? then r == Down(Some(TornGenesis(sha, now, disk)))
      else r.Up? && Persisted(sha, r.booted) && r.booted.chain == if chain == [] then [Genesis(sha, now)] else chain
  {
    hide ReadLog, Line, Genesis;
    GenesisIsReadable(sha, now);
    GenesisIsSound(sha, now);
    if chain == [] {
      EmptyLog(0);
      var g := Genesis(sha, now);
      assert [g][..0] == [] && EncodeLog([g]) == EncodeLog([]) + Line(g) == Line(g);
      assert forall t: string :: "" + t == t;
    } else {
      LogRoundTrip(sha, chain, now);
      EncodedIsNotEmpty(chain);
    }
  }

  /** The boot after a torn genesis: with nothing written it starts afresh, with all of the block's text
      it takes up the old genesis block, and otherwise it is refused too. */
  lemma BootAfterTornGenesis(sha: Sha, now: string, disk: Disk, now': string)
    requires disk.FailsAfter?
    ensures var torn, g := TornGenesis(sha, now, disk), Genesis(sha, now);
      Boot(sha, Some(torn), now', Works)
      == if torn == "" then Up(Booted([Genesis(sha, now')], Log(Line(Genesis(sha, now')), false)))
         else if torn == BlockText(g) || torn == Line(g) then Up(Booted([g], Log(torn, false)))
         else Down(Some(torn))
  {
    hide ReadLog, BlockText, Genesis;
    var torn, g := TornGenesis(sha, now, disk), Genesis(sha, now);
    GenesisIsReadable(sha, now);
    EmptyLog(0);
    assert "" + EncodeLog([]) + torn == torn;
    var none: seq<Block> := [];
    assert none + none == [] && none + none + [g] == [g];
    assert WellFormedEvent([g][0].event);
    RestartAfterTornAppend(sha, "", none, none, g, |torn|, now');
    assert torn == Line(g)[..|torn|];
    assert |torn| == |BlockText(g)| ==> torn == BlockText(g);
    assert "" + Line(Genesis(sha, now')) == Line(Genesis(sha, now'));
  }

  lemma EncodedIsNotEmpty(chain: seq<Block>)
    requires chain != []
    ensures EncodeLog(chain) != ""
  {
    hide BlockText;
  }

  lemma GenesisIsReadable(sha: Sha, now: string)
    ensures Readable([Genesis(sha, now)])
  {
    hide ComputeHash;
    assert WellFormed(Obj([]));
  }

  lemma {:induction false} ServingPersists(sha: Sha, s: Booted, events: seq<Stamped>)
    requires Persisted(sha, s) && AllEventsWellFormed(events)
    ensures Persisted(sha, ServeAll(sha, s, events))
    ensures ServeAll(sha, s, events).chain == AppendAll(sha, s.chain, events)
    decreases |events|
  {
    assert s.chain != [];
    hide Sound, Line, BuildNext, AppendBlock;
    if events != [] {
      var e := events[0];
      var b := BuildNext(sha, s.chain, e.event, e.timestamp);
      GrowthKeepsSound(sha, s.chain, e.event, e.timestamp);
      BuiltBlockHasEvent(sha, s.chain, e.event, e.timestamp);
      var chain := s.chain + [b];
      assert chain[..|chain| - 1] == s.chain;
      ServingPersists(sha, Booted(chain, AppendLine(s.log, Line(b), Works)), events[1..]);
    }
  }

  function RunSession(sha: Sha, file: Option<string>, session: Session): Option<Booted> {
    match Boot(sha, file, session.now, Works)
    case Down(_) => None
    case Up(s) => if s.chain == [] then None else Some(ServeAll(sha, s, session.events))
  }

  /** The sessions of a ledger, one process after another on one file. */
  function History(sha: Sha, sessions: seq<Session>): Option<Booted>
    requires sessions != []
    decreases |sessions|
  {
    if |sessions| == 1 then RunSession(sha, None, sessions[0])
    else match History(sha, sessions[..|sessions| - 1])
      case None => None
      case Some(s) => RunSession(sha, Some(s.log.bytes), Last(sessions))
  }

  ghost function AllEvents(sessions: seq<Session>): seq<Stamped> {
    if sessions == [] then [] else AllEvents(sessions[..|sessions| - 1]) + Last(sessions).events
  }

  lemma {:induction false} AppendAllConcat(sha: Sha, chain: seq<Block>, a: seq<Stamped>, b: seq<Stamped>)
    requires chain != []
    ensures AppendAll(sha, chain, a) != []
    ensures AppendAll(sha, chain, a + b) == AppendAll(sha, AppendAll(sha, chain, a), b)
    decreases |a|
  {
    hide AppendBlock;
    if a == [] {
      assert a + b == b;
    } else {
      assert (a + b)[1..] == a[1..] + b;
      AppendAllConcat(sha, chain + [AppendBlock(sha, chain, a[0].event, a[0].timestamp)], a[1..], b);
    }
  }

  /** Across any number of clean restarts nothing is lost or changed: every start-up succeeds, memory
      and disk agree afterwards, and the chain is the first boot's genesis block extended by all the
      events of all the sessions in order. */
  lemma {:induction false} RestartsLoseNothing(sha: Sha, sessions: seq<Session>)
    requires sessions != [] && forall i :: 0 <= i < |sessions| ==> AllEventsWellFormed(sessions[i].events)
    ensures History(sha, sessions).Some? && Persisted(sha, History(sha, sessions).value)
    ensures History(sha, sessions).value.chain == AppendAll(sha, [Genesis(sha, sessions[0].now)], AllEvents(sessions))
    decreases |sessions|
  {
    hide Boot, ServeAll, AppendAll, Genesis, Sound;
    var last, front := Last(sessions), sessions[..|sessions| - 1];
    var g := [Genesis(sha, sessions[0].now)];
    if |sessions| == 1 {
      assert front == [] && AllEvents(sessions) == last.events;
      BootPersists(sha, last.now, None, [], Works);
      ServingPersists(sha, Boot(sha, None, last.now, Works).booted, last.events);
    } else {
      RestartsLoseNothing(sha, front);
      var s := History(sha, front).value;
      BootPersists(sha, last.now, Some(s.log.bytes), s.chain, Works);
      ServingPersists(sha, Boot(sha, Some(s.log.bytes), last.now, Works).booted, last.events);
      AppendAllConcat(sha, g, AllEvents(front), last.events);
    }
  }
}
