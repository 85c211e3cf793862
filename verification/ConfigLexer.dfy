/** The lexer of the configuration: one line `key: value`, with its indentation. */
module ConfigLexer {
  import opened ConfigLines
  import opened BitArrays

  datatype Error =
    | NoError | NonsupportSyntax | IllegalKey | NotClosure | IllegalAddrIp | IllegalAddrPort
    | IllegalVarName | IllegalVarValue | TargetTooLong
    | UndefinedDeviceKey | UndefinedDeviceType | UndefinedChannelKey | UndefinedGlobalKey
    | InvalidChannelSize | ChannelNotSequence | OutOfDeviceSize | DeviceNotSequence

  datatype Key =
    | NullKey | ShmKey | ChannelKey | Define | Variable | DeviceKey | Sync | Disable | HotUpdate
    | LoggerName | LoggerDesc
    | Priority | Category | CategoryExtend | CategoryWlist | CategoryBlist | CategoryWmask | CategoryBmask
    | Identify | IdentifyExtend | IdentifyWlist | IdentifyBlist | IdentifyWmask | IdentifyBmask
    | InType | OutType | File | Path | LimitSize | Rollback | Rolldaily | Rollhourly | FileStuffUp | UdpAddr

  /** The keys are told apart by a few of their letters. */
  function Reserve(name: string): Key {
    if |name| < 2 then NullKey else
    match name[0]
    case 'c' =>
      if name[1] == 'h' then ChannelKey
      else if name[1] == 'a' then
        if |name| > 11 then Extended(name, CategoryExtend, CategoryWlist, CategoryWmask, CategoryBlist, CategoryBmask)
        else Category
      else NullKey
    case 'd' =>
      if |name| < 3 then NullKey
      else if name[2] == 'f' then Define
      else if name[1] == 'e' then DeviceKey
      else if name[1] == 'i' then Disable
      else NullKey
    case 'f' => File
    case 'h' => HotUpdate
    case 'i' =>
      if name[1] == 'n' then InType
      else if |name| > 11 then
        Extended(name, IdentifyExtend, IdentifyWlist, IdentifyWmask, IdentifyBlist, IdentifyBmask)
      else Identify
    case 'l' =>
      if name[1] == 'i' then LimitSize
      else if |name| > 8 && name[7] == 'n' then LoggerName
      else if |name| > 8 && name[7] == 'd' then LoggerDesc
      else NullKey
    case 'p' => if name[1] == 'r' then Priority else if name[1] == 'a' then Path else NullKey
    case 'r' =>
      if |name| <= 6 then NullKey
      else if name[4] == 'b' then Rollback
      else if name[4] == 'd' then Rolldaily
      else if name[4] == 'h' then Rollhourly
      else NullKey
    case 'o' => OutType
    case 's' => if name[1] == 'y' then Sync else if name[1] == 't' then FileStuffUp else ShmKey
    case 'u' => UdpAddr
    case 'v' => Variable
    case _ => NullKey
  }

  function Extended(name: string, extend: Key, wlist: Key, wmask: Key, blist: Key, bmask: Key): Key
    requires |name| > 11
  {
    if name[9] == 'e' then extend
    else if name[9] == 'w' then (if name[10] == 'l' then wlist else if name[10] == 'm' then wmask else NullKey)
    else if name[9] == 'b' then (if name[10] == 'l' then blist else if name[10] == 'm' then bmask else NullKey)
    else NullKey
  }

  datatype Block = AtStart | InKey | BeforeSep | BeforeValue | InValue | Clean

  /** The line being read. */
  datatype Line = Line(blank: nat, chars: nat, block: Block, stack: char, key: Key,
                       keyBegin: nat, keyEnd: nat, valBegin: nat, valEnd: nat)

  const EMPTY_LINE: Line := Line(0, 0, AtStart, '\0', NullKey, 0, 0, 0, 0)

  predicate NoKey(line: Line) { line.keyEnd <= line.keyBegin }

  /** After one character: go on with a line, or fail. */
  datatype Next = Go(line: Line) | Fail(error: Error)

  predicate LexError(error: Error) { error in {NonsupportSyntax, IllegalKey, NotClosure} }

  predicate IsKeyChar(c: char) { 'a' <= c <= 'z' || c == '_' || '0' <= c <= '9' }

  /** A line bound or a comment closes what is open; `cur` is behind it. */
  function Close(line: Line, cur: nat): (r: Next)
    requires cur > 0
    ensures r.Fail? ==> LexError(r.error)
  {
    if line.block == InValue then
      if line.stack != '\0' then Fail(NotClosure) else Go(line.(block := Clean, valEnd := cur - 1))
    else if line.block == BeforeValue then Go(line.(block := Clean, valBegin := cur - 1, valEnd := cur - 1))
    else if line.block != AtStart && line.block != Clean then Fail(NotClosure)
    else Go(line)
  }

  /** Drops the blanks at the end of the value. */
  function TrimEnd(text: string, begin: nat, end: nat): (e: nat)
    ensures e <= end && (begin <= end ==> begin <= e) && (end <= begin ==> e == end)
  {
    if end > begin && IsBlank(CharAt(text, end - 1)) then TrimEnd(text, begin, end - 1) else end
  }

  // Any other character; each block passes it on to the next when it ends.

  function OnStart(line: Line, ch: char, cur: nat, text: string): (r: Next)
    requires cur > 0
    ensures r.Fail? ==> LexError(r.error)
  {
    if IsBlank(ch) then
      Go(if line.chars > 0 && line.blank == line.chars - 1 then line.(blank := line.blank + 1) else line)
    else if ch == '-' then Go(line)
    else if ch < 'a' || ch > 'z' then Fail(IllegalKey)
    else OnKey(line.(block := InKey, keyBegin := cur - 1), ch, cur, text)
  }

  function OnKey(line: Line, ch: char, cur: nat, text: string): (r: Next)
    requires cur > 0
    ensures r.Fail? ==> LexError(r.error)
  {
    if IsKeyChar(ch) then Go(line) else
      var key := if line.keyBegin <= cur - 1 <= |text| then Reserve(text[line.keyBegin..cur - 1]) else NullKey;
      if key == NullKey then Fail(IllegalKey)
      else OnSep(line.(block := BeforeSep, keyEnd := cur - 1, key := key), ch)
  }

  function OnSep(line: Line, ch: char): (r: Next)
    ensures r.Fail? ==> LexError(r.error)
  {
    if ch == ':' then Go(line.(block := BeforeValue))
    else if ch != ' ' && ch != '\t' then Fail(NonsupportSyntax)
    else Go(line)
  }

  function OnValueStart(line: Line, ch: char, cur: nat): (r: Next)
    requires cur > 0
    ensures r.Fail? ==> LexError(r.error)
  {
    if IsBlank(ch) then Go(line)
    else if ch == '\"' then Go(line.(block := InValue, stack := '\"', valBegin := cur))
    else if ch == '[' then Go(line.(block := InValue, stack := ']', valBegin := cur))
    else if ch == '{' then Go(line.(block := InValue, stack := '}', valBegin := cur))
    else OnValue(line.(block := InValue, stack := '\0', valBegin := cur - 1), ch, cur)
  }

  function OnValue(line: Line, ch: char, cur: nat): (r: Next)
    requires cur > 0
    ensures r.Fail? ==> LexError(r.error)
  {
    if line.valBegin == cur - 1 && IsBlank(ch) then Go(line.(valBegin := cur))
    else if line.stack != '\0' && ch == line.stack then Go(line.(block := Clean, valEnd := cur - 1))
    else Go(line)
  }

  function Advance(line: Line, ch: char, cur: nat, text: string): (r: Next)
    requires cur > 0
    ensures r.Fail? ==> LexError(r.error)
  {
    match line.block
    case AtStart => OnStart(line, ch, cur, text)
    case InKey => OnKey(line, ch, cur, text)
    case BeforeSep => OnSep(line, ch)
    case BeforeValue => OnValueStart(line, ch, cur)
    case InValue => OnValue(line, ch, cur)
    case Clean => Go(line)
  }

  /** What the lexer makes of the rest of a line: an error, or the line and where the next one starts. */
  datatype Lexed = Lexed(error: Error, line: Line, next: nat)

  function LexFrom(text: string, at: nat, line: Line): (r: Lexed)
    requires at <= |text|
    ensures r.error == NoError ==> at <= r.next <= |text| && (CharAt(text, at) != '\0' ==> r.next > at)
    ensures r.error == NoError || LexError(r.error)
    decreases |text| - at
  {
    var ch, cur := CharAt(text, at), at + 1;
    var line := line.(chars := line.chars + 1);
    if line.block == Clean && !IsLineBound(ch) then LexFrom(text, cur, line)
    else if IsSoftLineBound(ch) then
      match Close(line, cur)
      case Fail(error) => Lexed(error, line, at)
      case Go(closed) =>
        var trimmed := closed.(valEnd := TrimEnd(text, closed.valBegin, closed.valEnd));
        if IsNewline(ch) then Lexed(NoError, trimmed, AfterEnd(text, at))
        else if ch == '#' then LexFrom(text, cur, trimmed.(block := Clean))
        else Lexed(NoError, trimmed, at)
    else
      match Advance(line, ch, cur, text)
      case Fail(error) => Lexed(error, line, at)
      case Go(line) => LexFrom(text, cur, line)
  }

  /** A whole line. */
  function LexAt(text: string, at: nat): (r: Lexed)
    requires at < |text|
    ensures r.error == NoError ==> at <= r.next <= |text| && (text[at] != '\0' ==> r.next > at)
    ensures r.error == NoError || LexError(r.error)
  {
    LexFrom(text, at, EMPTY_LINE)
  }

  /** A line that starts with an embedded NUL is read as empty and without moving: the parser would never end. */
  lemma NulStops(text: string, at: nat)
    requires at < |text| && text[at] == '\0'
    ensures LexAt(text, at).error == NoError && LexAt(text, at).next == at && NoKey(LexAt(text, at).line)
  {
    assert TrimEnd(text, 0, 0) == 0;
  }

  /** Where a line that was read ends: at its first line end or NUL, or with the text. */
  lemma {:induction false} LexEnds(text: string, start: nat, at: nat, line: Line) returns (e: nat)
    requires start <= at <= |text| && Unbroken(text, start, at) && LexFrom(text, at, line).error == NoError
    ensures at <= e <= |text| && Unbroken(text, start, e) && IsLineBound(CharAt(text, e))
    ensures LexFrom(text, at, line).next == if IsNewline(CharAt(text, e)) then AfterEnd(text, e) else e
    decreases |text| - at
  {
    hide Advance, Close, TrimEnd;
    var ch := CharAt(text, at);
    var line' := line.(chars := line.chars + 1);
    if IsLineBound(ch) {
      e := at;
    } else if line'.block == Clean {
      e := LexEnds(text, start, at + 1, line');
    } else if ch == '#' {
      var closed := Close(line', at + 1).line;
      e := LexEnds(text, start, at + 1,
                   closed.(valEnd := TrimEnd(text, closed.valBegin, closed.valEnd)).(block := Clean));
    } else {
      e := LexEnds(text, start, at + 1, Advance(line', ch, at + 1, text).line);
    }
  }

  // What is read: the key and its extent, and a value without blanks at its end.

  ghost predicate KeyRead(text: string, start: nat, line: Line, at: nat) {
    && start <= line.keyBegin < line.keyEnd <= at <= |text| && line.key != NullKey
    && line.key == Reserve(text[line.keyBegin..line.keyEnd])
    && 'a' <= text[line.keyBegin] <= 'z'
    && forall i :: line.keyBegin <= i < line.keyEnd ==> IsKeyChar(text[i])
  }

  ghost predicate ValueRead(line: Line, at: nat) {
    line.keyEnd <= line.valBegin <= line.valEnd <= at
  }

  /** How far a line has been read. */
  ghost predicate Reading(text: string, start: nat, line: Line, at: nat) {
    match line.block
    case AtStart => line.keyBegin == line.keyEnd == 0
    case InKey => line.keyEnd == 0 && start <= line.keyBegin < at <= |text| && 'a' <= text[line.keyBegin] <= 'z'
                  && forall i :: line.keyBegin <= i < at ==> IsKeyChar(text[i])
    case BeforeSep => KeyRead(text, start, line, at)
    case BeforeValue => KeyRead(text, start, line, at)
    case InValue => KeyRead(text, start, line, at) && line.keyEnd <= line.valBegin <= at
    case Clean => (line.keyBegin == line.keyEnd == 0) || (KeyRead(text, start, line, at) && ValueRead(line, at))
  }

  lemma AdvanceReads(text: string, start: nat, line: Line, at: nat)
    requires Reading(text, start, line, at) && start <= at < |text| && Advance(line, text[at], at + 1, text).Go?
    ensures Reading(text, start, Advance(line, text[at], at + 1, text).line, at + 1)
  {
    hide Reserve;
  }

  lemma ReadingOn(text: string, start: nat, line: Line, at: nat, n: nat)
    requires Reading(text, start, line, at) && start <= at <= |text|
    ensures Reading(text, start, line.(chars := n), at)
    ensures line.block == Clean && at < |text| ==> Reading(text, start, line.(chars := n), at + 1)
  {
    hide Reserve;
  }

  lemma CloseReads(text: string, start: nat, line: Line, at: nat)
    requires Reading(text, start, line, at) && start <= at <= |text| && Close(line, at + 1).Go?
    ensures var closed := Close(line, at + 1).line;
            var trimmed := closed.(valEnd := TrimEnd(text, closed.valBegin, closed.valEnd));
            && (NoKey(trimmed) || (KeyRead(text, start, trimmed, at) && ValueRead(trimmed, at)))
            && (NoKey(trimmed) ==> trimmed.keyBegin == trimmed.keyEnd == 0)
            && Reading(text, start, trimmed.(block := Clean), at)
  {
    hide Reserve;
  }

  lemma {:induction false} TrimEndTrims(text: string, begin: nat, end: nat)
    ensures var e := TrimEnd(text, begin, end); e <= begin || !IsBlank(CharAt(text, e - 1))
  {
    if end > begin && IsBlank(CharAt(text, end - 1)) { TrimEndTrims(text, begin, end - 1); }
  }

  /** The line has no key, or a known one with its extent; its value has no blank at the end. */
  ghost predicate LineRead(text: string, start: nat, line: Line, e: nat) {
    && (NoKey(line) || (KeyRead(text, start, line, e) && ValueRead(line, e)))
    && (line.valEnd <= line.valBegin || !IsBlank(CharAt(text, line.valEnd - 1)))
  }

  lemma ClosedLine(text: string, start: nat, line: Line, at: nat)
    requires Reading(text, start, line, at) && start <= at <= |text| && Close(line, at + 1).Go?
    ensures var closed := Close(line, at + 1).line;
            LineRead(text, start, closed.(valEnd := TrimEnd(text, closed.valBegin, closed.valEnd)), at)
  {
    var closed := Close(line, at + 1).line;
    TrimEndTrims(text, closed.valBegin, closed.valEnd);
    hide TrimEnd, Close, IsBlank, Reserve;
    CloseReads(text, start, line, at);
  }

  /** What is read of a line that ends at `e` lies before `e`. */
  lemma {:induction false} LexReads(text: string, start: nat, at: nat, line: Line, e: nat)
    requires start <= at <= e <= |text| && Unbroken(text, at, e) && IsLineBound(CharAt(text, e))
    requires Reading(text, start, line, at) && LexFrom(text, at, line).error == NoError
    ensures LineRead(text, start, LexFrom(text, at, line).line, e)
    decreases |text| - at
  {
    hide Advance, Close, TrimEnd, Reading, LineRead;
    var ch := CharAt(text, at);
    var line' := line.(chars := line.chars + 1);
    ReadingOn(text, start, line, at, line.chars + 1);
    if line'.block == Clean && !IsLineBound(ch) {
      LexReads(text, start, at + 1, line', e);
    } else if IsSoftLineBound(ch) {
      var closed := Close(line', at + 1).line;
      var trimmed := closed.(valEnd := TrimEnd(text, closed.valBegin, closed.valEnd));
      ClosedLine(text, start, line', at);
      if ch == '#' {
        CloseReads(text, start, line', at);
        ReadingOn(text, start, trimmed.(block := Clean), at, trimmed.chars);
        LexReads(text, start, at + 1, trimmed.(block := Clean), e);
      }
    } else {
      AdvanceReads(text, start, line', at);
      LexReads(text, start, at + 1, Advance(line', ch, at + 1, text).line, e);
    }
  }

  /** A line: where it ends, and that its key and value lie in it. */
  lemma WholeLine(text: string, at: nat) returns (e: nat)
    requires at < |text| && LexAt(text, at).error == NoError
    ensures at <= e <= |text| && Unbroken(text, at, e) && IsLineBound(CharAt(text, e))
    ensures LexAt(text, at).next == if IsNewline(CharAt(text, e)) then AfterEnd(text, e) else e
    ensures LineRead(text, at, LexAt(text, at).line, e)
  {
    hide LexFrom, LineRead;
    e := LexEnds(text, at, at, EMPTY_LINE);
    LexReads(text, at, at, EMPTY_LINE, e);
  }
}
