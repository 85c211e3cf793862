/** A line as it may be written, and the round trip: the lexer reads back what was written. */
module ConfigWritten {
  import opened BitArrays
  import opened ConfigLines
  import opened ConfigLexer

  /** How a value is enclosed. */
  datatype Quote = Bare | Quotes | Brackets | Braces

  /**
    A line with a key: indentation, dashes, the key, a colon, and a value that may be enclosed, with blanks in all
    the places that allow them; behind the value a comment, or anything at all behind what encloses it.
   */
  datatype Written = Written(lead: string, dash: string, name: string, gap: string, pad: string,
                             quote: Quote, fill: string, value: string, after: string, tail: string)
  {
    function Open(): string {
      match quote
      case Bare => ""
      case Quotes => "\""
      case Brackets => "["
      case Braces => "{"
    }

    function Shut(): string {
      match quote
      case Bare => ""
      case Quotes => "\""
      case Brackets => "]"
      case Braces => "}"
    }

    function Text(): string {
      lead + (dash + (name + (gap + (":" + (pad + (Open() + (fill + (value + (after + (Shut() + tail))))))))))
    }

    /** Where the parts are, from the start of the line. */
    function NameAt(): nat { |lead| + |dash| }
    function NameEnd(): nat { NameAt() + |name| }
    function ColonAt(): nat { NameEnd() + |gap| }
    function OpenAt(): nat { ColonAt() + 1 + |pad| }
    function ValAt(): nat { OpenAt() + |Open()| + |fill| }
    function ValEnd(): nat { ValAt() + |value| }
    function ShutAt(): nat { ValEnd() + |after| }
    function TailAt(): nat { ShutAt() + |Shut()| }
    function Length(): nat { TailAt() + |tail| }
  }

  /** The line with nothing but spaces in front of it. */
  function KeyValue(indent: nat, name: string, value: string): Written {
    Written(seq(indent, _ => ' '), "", name, "", "", Bare, "", value, "", "")
  }

  ghost predicate AllBlank(s: string) { forall k :: 0 <= k < |s| ==> IsBlank(s[k]) }

  ghost predicate OnOneLine(s: string) { forall k :: 0 <= k < |s| ==> !IsLineBound(s[k]) }

  ghost predicate AllDashes(s: string) {
    (s != "" ==> s[0] == '-') && forall k :: 0 <= k < |s| ==> s[k] == '-' || IsBlank(s[k])
  }

  ghost predicate IsKeyName(s: string) {
    && s != "" && 'a' <= s[0] <= 'z' && (forall k :: 0 <= k < |s| ==> IsKeyChar(s[k])) && Reserve(s) != NullKey
  }

  ghost predicate IsGap(s: string) { forall k :: 0 <= k < |s| ==> s[k] == ' ' || s[k] == '\t' }

  /** A value without blanks at its ends and without what would end it. */
  ghost predicate IsValue(s: string, quote: Quote) {
    && (forall k :: 0 <= k < |s| ==> !IsSoftLineBound(s[k]) && s[k] != Stack(quote))
    && (s != "" ==> !IsBlank(s[0]) && !IsBlank(s[|s| - 1]))
    && (s != "" && quote == Bare ==> s[0] !in {'\"', '[', '{'})
  }

  ghost predicate Writable(w: Written) {
    && AllBlank(w.lead) && AllDashes(w.dash) && IsKeyName(w.name) && IsGap(w.gap) && AllBlank(w.pad)
    && AllBlank(w.fill) && IsValue(w.value, w.quote) && AllBlank(w.after) && (w.value == "" ==> w.after == "")
    && OnOneLine(w.tail) && (w.quote == Bare ==> w.fill == "" && (w.tail != "" ==> w.tail[0] == '#'))
  }

  function Stack(quote: Quote): char {
    match quote
    case Bare => '\0'
    case Quotes => '\"'
    case Brackets => ']'
    case Braces => '}'
  }

  /** The line stands in the text at `at`, up to a line end, a NUL or the end of the text. */
  ghost predicate StandsAt(text: string, at: nat, w: Written) {
    && at + w.Length() <= |text| && text[at..at + w.Length()] == w.Text()
    && IsLineBound(CharAt(text, at + w.Length()))
  }

  /** What is read of it. */
  function ReadOf(text: string, at: nat, w: Written): Lexed {
    var e := at + w.Length();
    Lexed(NoError,
          Line(|w.lead|, w.Length() + 1, Clean, Stack(w.quote), Reserve(w.name), at + w.NameAt(), at + w.NameEnd(),
               at + w.ValAt(), at + w.ValEnd()),
          if IsNewline(CharAt(text, e)) then AfterEnd(text, e) else e)
  }

  // The parts in their places.

  ghost predicate PartAt(text: string, a: nat, s: string) {
    a + |s| <= |text| && forall k :: 0 <= k < |s| ==> text[a + k] == s[k]
  }

  lemma PartsOf(text: string, a: nat, s: string, t: string)
    requires PartAt(text, a, s + t)
    ensures PartAt(text, a, s) && PartAt(text, a + |s|, t)
  {
    forall k | 0 <= k < |s| ensures text[a + k] == s[k] { assert (s + t)[k] == s[k]; }
    forall k | 0 <= k < |t| ensures text[a + |s| + k] == t[k] { assert (s + t)[|s| + k] == t[k]; }
  }

  /** The parts up to the value. */
  ghost predicate HeadStands(text: string, at: nat, w: Written) {
    && PartAt(text, at, w.lead) && PartAt(text, at + |w.lead|, w.dash) && PartAt(text, at + w.NameAt(), w.name)
    && PartAt(text, at + w.NameEnd(), w.gap) && PartAt(text, at + w.ColonAt(), ":")
    && PartAt(text, at + w.ColonAt() + 1, w.pad)
  }

  /** The parts from what opens the value on. */
  ghost predicate TailStands(text: string, at: nat, w: Written) {
    && PartAt(text, at + w.OpenAt(), w.Open()) && PartAt(text, at + w.OpenAt() + |w.Open()|, w.fill)
    && PartAt(text, at + w.ValAt(), w.value) && PartAt(text, at + w.ValEnd(), w.after)
    && PartAt(text, at + w.ShutAt(), w.Shut()) && PartAt(text, at + w.TailAt(), w.tail)
  }

  lemma TextLength(w: Written)
    ensures |w.Text()| == w.Length()
  {
  }

  lemma KeyValueText(indent: nat, name: string, value: string)
    ensures var w := KeyValue(indent, name, value); w.Text() == w.lead + (name + ":" + value)
  {
    var w := KeyValue(indent, name, value);
    TextIs(w);
    var rest := w.Open() + (w.fill + (w.value + (w.after + (w.Shut() + w.tail))));
    assert rest == value;
    hide Written.Text, Written.Open, Written.Shut;
    assert w.gap + (":" + (w.pad + rest)) == ":" + rest;
    assert w.dash + (name + (":" + rest)) == name + ":" + rest;
  }

  lemma TextStands(text: string, at: nat, w: Written)
    requires StandsAt(text, at, w)
    ensures PartAt(text, at, w.Text())
  {
    TextLength(w);
    forall k | 0 <= k < w.Length() ensures text[at + k] == w.Text()[k] {
      assert text[at + k] == text[at..at + w.Length()][k];
    }
  }

  lemma AllStand(text: string, at: nat, w: Written)
    requires StandsAt(text, at, w)
    ensures HeadStands(text, at, w) && TailStands(text, at, w)
  {
    hide PartAt, StandsAt, HeadStands, TailStands, Written.Text;
    TextStands(text, at, w);
    TextIs(w);
    SplitText(text, at, w, w.Open() + (w.fill + (w.value + (w.after + (w.Shut() + w.tail)))));
  }

  lemma TextIs(w: Written)
    ensures w.Text() == w.lead + (w.dash + (w.name + (w.gap + (":" + (w.pad +
                          (w.Open() + (w.fill + (w.value + (w.after + (w.Shut() + w.tail))))))))))
  {
  }

  lemma SplitText(text: string, at: nat, w: Written, rest: string)
    requires PartAt(text, at, w.lead + (w.dash + (w.name + (w.gap + (":" + (w.pad + rest))))))
    requires rest == w.Open() + (w.fill + (w.value + (w.after + (w.Shut() + w.tail))))
    ensures HeadStands(text, at, w) && TailStands(text, at, w)
  {
    hide PartAt, Written.Open, Written.Shut, Written.Text;
    HeadParts(text, at, w.lead, w.dash, w.name, w.gap, w.pad, rest);
    ValueParts(text, at + w.OpenAt(), w.Open(), w.fill, w.value, w.after, w.Shut(), w.tail);
  }

  lemma HeadParts(text: string, a: nat, s: string, t: string, u: string, v: string, x: string, rest: string)
    requires PartAt(text, a, s + (t + (u + (v + (":" + (x + rest))))))
    ensures PartAt(text, a, s) && PartAt(text, a + |s|, t) && PartAt(text, a + |s| + |t|, u)
    ensures PartAt(text, a + |s| + |t| + |u|, v) && PartAt(text, a + |s| + |t| + |u| + |v|, ":")
    ensures PartAt(text, a + |s| + |t| + |u| + |v| + 1, x) && PartAt(text, a + |s| + |t| + |u| + |v| + 1 + |x|, rest)
  {
    hide PartAt;
    FourParts(text, a, s, t, u, v, ":" + (x + rest));
    PartsOf(text, a + |s| + |t| + |u| + |v|, ":", x + rest);
    PartsOf(text, a + |s| + |t| + |u| + |v| + 1, x, rest);
  }

  lemma ValueParts(text: string, a: nat, s: string, t: string, u: string, v: string, x: string, rest: string)
    requires PartAt(text, a, s + (t + (u + (v + (x + rest)))))
    ensures PartAt(text, a, s) && PartAt(text, a + |s|, t) && PartAt(text, a + |s| + |t|, u)
    ensures PartAt(text, a + |s| + |t| + |u|, v) && PartAt(text, a + |s| + |t| + |u| + |v|, x)
    ensures PartAt(text, a + |s| + |t| + |u| + |v| + |x|, rest)
  {
    hide PartAt;
    FourParts(text, a, s, t, u, v, x + rest);
    PartsOf(text, a + |s| + |t| + |u| + |v|, x, rest);
  }

  lemma FourParts(text: string, a: nat, s: string, t: string, u: string, v: string, rest: string)
    requires PartAt(text, a, s + (t + (u + (v + rest))))
    ensures PartAt(text, a, s) && PartAt(text, a + |s|, t) && PartAt(text, a + |s| + |t|, u)
    ensures PartAt(text, a + |s| + |t| + |u|, v) && PartAt(text, a + |s| + |t| + |u| + |v|, rest)
  {
    hide PartAt;
    PartsOf(text, a, s, t + (u + (v + rest)));
    PartsOf(text, a + |s|, t, u + (v + rest));
    PartsOf(text, a + |s| + |t|, u, v + rest);
    PartsOf(text, a + |s| + |t| + |u|, v, rest);
  }

  lemma FirstOf(text: string, p: nat, s: string)
    requires PartAt(text, p, s) && s != ""
    ensures p < |text| && text[p] == s[0] && PartAt(text, p + 1, s[1..])
  {
    assert text[p] == text[p + 0];
    forall k | 0 <= k < |s| - 1 ensures text[p + 1 + k] == s[1..][k] { assert text[p + (1 + k)] == s[1 + k]; }
  }

  // Runs of characters that the lexer passes over in one state.

  lemma LeadStep(text: string, p: nat, line: Line)
    requires p < |text| && IsBlank(text[p]) && line.block == AtStart && line.blank == line.chars
    ensures LexFrom(text, p, line) == LexFrom(text, p + 1, line.(blank := line.blank + 1, chars := line.chars + 1))
  {
    hide Close, TrimEnd, OnKey, OnSep, OnValueStart, OnValue, Reserve, AfterEnd;
  }

  lemma {:induction false} OverLead(text: string, p: nat, s: string, line: Line)
    requires PartAt(text, p, s) && AllBlank(s) && line.block == AtStart && line.blank == line.chars
    ensures LexFrom(text, p, line)
         == LexFrom(text, p + |s|, line.(blank := line.blank + |s|, chars := line.chars + |s|))
    decreases |s|
  {
    hide LexFrom, IsBlank;
    if s != "" {
      FirstOf(text, p, s);
      LeadStep(text, p, line);
      OverLead(text, p + 1, s[1..], line.(blank := line.blank + 1, chars := line.chars + 1));
    }
  }

  lemma DashStep(text: string, p: nat, line: Line)
    requires p < |text| && (text[p] == '-' || (IsBlank(text[p]) && line.blank < line.chars)) && line.block == AtStart
    ensures LexFrom(text, p, line) == LexFrom(text, p + 1, line.(chars := line.chars + 1))
  {
    hide Close, TrimEnd, OnKey, OnSep, OnValueStart, OnValue, Reserve, AfterEnd;
  }

  lemma {:induction false} OverDash(text: string, p: nat, s: string, line: Line)
    requires PartAt(text, p, s) && (forall k :: 0 <= k < |s| ==> s[k] == '-' || IsBlank(s[k]))
    requires line.block == AtStart && line.blank <= line.chars && (s != "" && line.blank == line.chars ==> s[0] == '-')
    ensures LexFrom(text, p, line) == LexFrom(text, p + |s|, line.(chars := line.chars + |s|))
    decreases |s|
  {
    hide LexFrom, IsBlank;
    if s != "" {
      FirstOf(text, p, s);
      DashStep(text, p, line);
      OverDash(text, p + 1, s[1..], line.(chars := line.chars + 1));
    }
  }

  lemma {:induction false} OverName(text: string, p: nat, s: string, line: Line)
    requires PartAt(text, p, s) && line.block == InKey && forall k :: 0 <= k < |s| ==> IsKeyChar(s[k])
    ensures LexFrom(text, p, line) == LexFrom(text, p + |s|, line.(chars := line.chars + |s|))
    decreases |s|
  {
    hide Close, TrimEnd, OnStart, OnSep, OnValueStart, OnValue, Reserve, AfterEnd;
    if s != "" {
      FirstOf(text, p, s);
      OverName(text, p + 1, s[1..], line.(chars := line.chars + 1));
    }
  }

  lemma {:induction false} OverGap(text: string, p: nat, s: string, line: Line)
    requires PartAt(text, p, s) && line.block == BeforeSep && forall k :: 0 <= k < |s| ==> s[k] == ' ' || s[k] == '\t'
    ensures LexFrom(text, p, line) == LexFrom(text, p + |s|, line.(chars := line.chars + |s|))
    decreases |s|
  {
    hide Close, TrimEnd, OnStart, OnKey, OnValueStart, OnValue, Reserve, AfterEnd;
    if s != "" {
      FirstOf(text, p, s);
      OverGap(text, p + 1, s[1..], line.(chars := line.chars + 1));
    }
  }

  lemma {:induction false} OverPad(text: string, p: nat, s: string, line: Line)
    requires PartAt(text, p, s) && line.block == BeforeValue && AllBlank(s)
    ensures LexFrom(text, p, line) == LexFrom(text, p + |s|, line.(chars := line.chars + |s|))
    decreases |s|
  {
    hide Close, TrimEnd, OnStart, OnKey, OnSep, OnValue, Reserve, AfterEnd;
    if s != "" {
      FirstOf(text, p, s);
      OverPad(text, p + 1, s[1..], line.(chars := line.chars + 1));
    }
  }

  lemma {:induction false} OverFill(text: string, p: nat, s: string, line: Line)
    requires PartAt(text, p, s) && line.block == InValue && line.valBegin == p && AllBlank(s)
    ensures LexFrom(text, p, line)
         == LexFrom(text, p + |s|, line.(chars := line.chars + |s|, valBegin := p + |s|))
    decreases |s|
  {
    hide Close, TrimEnd, OnStart, OnKey, OnSep, OnValueStart, Reserve, AfterEnd;
    if s != "" {
      FirstOf(text, p, s);
      OverFill(text, p + 1, s[1..], line.(chars := line.chars + 1, valBegin := p + 1));
    }
  }

  lemma {:induction false} OverValue(text: string, p: nat, s: string, line: Line)
    requires PartAt(text, p, s) && line.block == InValue
    requires line.valBegin < p || (line.valBegin == p && s != "" && !IsBlank(s[0]))
    requires forall k :: 0 <= k < |s| ==> !IsSoftLineBound(s[k]) && (line.stack != '\0' ==> s[k] != line.stack)
    ensures LexFrom(text, p, line) == LexFrom(text, p + |s|, line.(chars := line.chars + |s|))
    decreases |s|
  {
    hide Close, TrimEnd, OnStart, OnKey, OnSep, OnValueStart, Reserve, AfterEnd;
    if s != "" {
      FirstOf(text, p, s);
      OverValue(text, p + 1, s[1..], line.(chars := line.chars + 1));
    }
  }

  lemma {:induction false} OverTail(text: string, p: nat, s: string, line: Line)
    requires PartAt(text, p, s) && line.block == Clean && OnOneLine(s)
    ensures LexFrom(text, p, line) == LexFrom(text, p + |s|, line.(chars := line.chars + |s|))
    decreases |s|
  {
    hide Close, TrimEnd, Advance, Reserve, AfterEnd;
    if s != "" {
      FirstOf(text, p, s);
      OverTail(text, p + 1, s[1..], line.(chars := line.chars + 1));
    }
  }

  // The characters between them.

  lemma FirstOfName(text: string, p: nat, a: Line)
    requires p < |text| && 'a' <= text[p] <= 'z' && a.block == AtStart
    ensures LexFrom(text, p, a) == LexFrom(text, p + 1, a.(chars := a.chars + 1, block := InKey, keyBegin := p))
  {
    hide Close, TrimEnd, Reserve, AfterEnd;
  }

  lemma EndOfName(text: string, p: nat, c: Line)
    requires p < |text| && text[p] in {':', ' ', '\t'} && c.block == InKey && c.keyBegin <= p
    requires Reserve(text[c.keyBegin..p]) != NullKey
    ensures LexFrom(text, p, c)
         == LexFrom(text, p + 1, c.(chars := c.chars + 1, block := if text[p] == ':' then BeforeValue else BeforeSep,
                                    key := Reserve(text[c.keyBegin..p]), keyEnd := p))
  {
    hide Close, TrimEnd, Reserve, AfterEnd;
  }

  lemma Colon(text: string, p: nat, c: Line)
    requires p < |text| && text[p] == ':' && c.block == BeforeSep
    ensures LexFrom(text, p, c) == LexFrom(text, p + 1, c.(chars := c.chars + 1, block := BeforeValue))
  {
    hide Close, TrimEnd, Reserve, AfterEnd;
  }

  /** The line behind its colon and the blanks there. */
  function AtValue(at: nat, w: Written): Line {
    Line(|w.lead|, w.OpenAt(), BeforeValue, '\0', Reserve(w.name), at + w.NameAt(), at + w.NameEnd(), 0, 0)
  }

  lemma NameIsRead(text: string, at: nat, w: Written)
    requires Writable(w) && HeadStands(text, at, w)
    ensures at <= |text| && LexFrom(text, at, EMPTY_LINE)
         == LexFrom(text, at + w.NameEnd(),
                    Line(|w.lead|, w.NameEnd(), InKey, '\0', NullKey, at + w.NameAt(), 0, 0, 0))
  {
    hide LexFrom, Reserve, IsKeyChar, IsSoftLineBound, IsBlank, IsLineBound, PartAt, IsValue, OnOneLine;
    var a := EMPTY_LINE.(blank := |w.lead|, chars := |w.lead|);
    OverLead(text, at, w.lead, EMPTY_LINE);
    OverDash(text, at + |w.lead|, w.dash, a);
    var kb := at + w.NameAt();
    FirstOf(text, kb, w.name);
    FirstOfName(text, kb, a.(chars := w.NameAt()));
    OverName(text, kb + 1, w.name[1..], Line(|w.lead|, w.NameAt() + 1, InKey, '\0', NullKey, kb, 0, 0, 0));
    PartInside(text, at, w.lead);
  }

  lemma PartInside(text: string, a: nat, s: string)
    requires PartAt(text, a, s)
    ensures a + |s| <= |text| && text[a..a + |s|] == s
  {
  }

  lemma HeadIsRead(text: string, at: nat, w: Written)
    requires Writable(w) && HeadStands(text, at, w)
    ensures at + w.OpenAt() <= |text| && at <= |text|
            && LexFrom(text, at, EMPTY_LINE) == LexFrom(text, at + w.OpenAt(), AtValue(at, w))
  {
    hide LexFrom, Reserve, IsKeyChar, IsSoftLineBound, IsBlank, IsLineBound, PartAt, IsValue, OnOneLine;
    NameIsRead(text, at, w);
    var kb, ke, colon := at + w.NameAt(), at + w.NameEnd(), at + w.ColonAt();
    var c := Line(|w.lead|, w.NameEnd(), InKey, '\0', NullKey, kb, 0, 0, 0);
    PartInside(text, kb, w.name);
    PartInside(text, colon + 1, w.pad);
    FirstOf(text, colon, ":");
    if w.gap == "" {
      EndOfName(text, ke, c);
    } else {
      FirstOf(text, ke, w.gap);
      EndOfName(text, ke, c);
      var d := c.(chars := c.chars + 1, block := BeforeSep, key := Reserve(w.name), keyEnd := ke);
      OverGap(text, ke + 1, w.gap[1..], d);
      Colon(text, colon, d.(chars := w.ColonAt()));
    }
    OverPad(text, colon + 1, w.pad, AtValue(at, w).(chars := w.ColonAt() + 1));
  }

  lemma {:induction false} TrimsBlanks(text: string, begin: nat, end: nat, from: nat)
    requires begin <= end <= from <= |text| && (forall k :: end <= k < from ==> IsBlank(text[k]))
    requires begin < end ==> !IsBlank(text[end - 1])
    ensures TrimEnd(text, begin, from) == end
    decreases from
  {
    if end < from { TrimsBlanks(text, begin, end, from - 1); }
  }

  lemma OpenQuote(text: string, p: nat, d: Line, quote: Quote)
    requires p < |text| && d.block == BeforeValue && quote != Bare
    requires text[p] == match quote case Quotes => '\"' case Brackets => '[' case _ => '{'
    ensures LexFrom(text, p, d)
         == LexFrom(text, p + 1, d.(chars := d.chars + 1, block := InValue, stack := Stack(quote), valBegin := p + 1))
  {
    hide Close, TrimEnd, Reserve, AfterEnd;
  }

  lemma ShutQuote(text: string, p: nat, d: Line)
    requires p < |text| && d.block == InValue && d.stack in {'\"', ']', '}'} && text[p] == d.stack
    ensures LexFrom(text, p, d) == LexFrom(text, p + 1, d.(chars := d.chars + 1, block := Clean, valEnd := p))
  {
    hide Close, TrimEnd, Reserve, AfterEnd;
  }

  lemma FirstOfValue(text: string, p: nat, d: Line)
    requires p < |text| && d.block == BeforeValue && d.stack == '\0'
    requires !IsSoftLineBound(text[p]) && !IsBlank(text[p]) && text[p] !in {'\"', '[', '{'}
    ensures LexFrom(text, p, d) == LexFrom(text, p + 1, d.(chars := d.chars + 1, block := InValue, valBegin := p))
  {
    hide Close, TrimEnd, Reserve, AfterEnd;
  }

  /** A line end or a comment closes an open value; the value loses the blanks at its end. */
  lemma CloseValue(text: string, p: nat, d: Line, end: nat)
    requires p <= |text| && IsSoftLineBound(CharAt(text, p)) && d.stack == '\0'
    requires d.block == BeforeValue || (d.block == InValue && d.valBegin < end)
    requires d.block == InValue ==> TrimEnd(text, d.valBegin, p) == end
    requires d.block == BeforeValue ==> end == p
    ensures var f := d.(chars := d.chars + 1, block := Clean, valBegin := if d.block == InValue then d.valBegin else p,
                        valEnd := end);
            LexFrom(text, p, d) == if CharAt(text, p) == '#' then LexFrom(text, p + 1, f)
                                   else Lexed(NoError, f, if IsNewline(CharAt(text, p)) then AfterEnd(text, p) else p)
  {
    hide Reserve, AfterEnd;
  }

  /** A line end behind a closed value. */
  lemma CloseLine(text: string, p: nat, d: Line)
    requires p <= |text| && IsLineBound(CharAt(text, p)) && d.block == Clean
    ensures LexFrom(text, p, d)
         == Lexed(NoError, d.(chars := d.chars + 1, valEnd := TrimEnd(text, d.valBegin, d.valEnd)),
                  if IsNewline(CharAt(text, p)) then AfterEnd(text, p) else p)
  {
    hide TrimEnd, Reserve, AfterEnd;
  }

  /** Trimming the blanks behind a value leaves the value. */
  lemma ValueTrims(text: string, at: nat, w: Written)
    requires Writable(w) && TailStands(text, at, w)
    ensures TrimEnd(text, at + w.ValAt(), at + w.ShutAt()) == at + w.ValEnd()
    ensures TrimEnd(text, at + w.ValAt(), at + w.ValEnd()) == at + w.ValEnd() && at + w.TailAt() <= |text|
  {
    hide TrimEnd, IsBlank, Reserve, IsKeyChar, IsSoftLineBound, IsLineBound, IsKeyName, IsGap, AllDashes, OnOneLine;
    var vb, ve, p := at + w.ValAt(), at + w.ValEnd(), at + w.ShutAt();
    if w.value != "" { assert text[ve - 1] == text[vb + (|w.value| - 1)] == w.value[|w.value| - 1]; }
    forall k | ve <= k < p ensures IsBlank(text[k]) { assert text[k] == text[ve + (k - ve)] == w.after[k - ve]; }
    TrimsBlanks(text, vb, ve, p);
    TrimsBlanks(text, vb, ve, ve);
  }

  /** The line behind a bare value and the blanks there, still open. */
  function BehindBare(at: nat, w: Written): Line {
    if w.value == "" then AtValue(at, w)
    else AtValue(at, w).(chars := w.TailAt(), block := InValue, valBegin := at + w.ValAt())
  }

  lemma BareValueIsRead(text: string, at: nat, w: Written)
    requires Writable(w) && TailStands(text, at, w) && w.quote == Bare
    ensures at + w.TailAt() <= |text|
            && LexFrom(text, at + w.OpenAt(), AtValue(at, w)) == LexFrom(text, at + w.TailAt(), BehindBare(at, w))
  {
    hide LexFrom, Reserve, IsKeyName, IsGap, AllDashes, OnOneLine, IsBlank, IsSoftLineBound, PartAt;
    var vb, ve := at + w.ValAt(), at + w.ValEnd();
    PartInside(text, at + w.TailAt(), w.tail);
    if w.value != "" {
      var d := AtValue(at, w);
      FirstOf(text, vb, w.value);
      FirstOfValue(text, vb, d);
      var f := d.(chars := d.chars + 1, block := InValue, valBegin := vb);
      OverValue(text, vb + 1, w.value[1..], f);
      BlanksPlain(w.after, Bare);
      OverValue(text, ve, w.after, f.(chars := w.ValEnd()));
    }
  }

  lemma BareIsRead(text: string, at: nat, w: Written)
    requires Writable(w) && TailStands(text, at, w) && w.quote == Bare
    requires at + w.Length() <= |text| && IsLineBound(CharAt(text, at + w.Length()))
    ensures LexFrom(text, at + w.OpenAt(), AtValue(at, w)) == ReadOf(text, at, w)
  {
    hide LexFrom, Reserve, IsKeyName, IsGap, AllDashes, AllBlank, IsValue, IsBlank, IsLineBound, AfterEnd,
         TrimEnd, PartAt;
    BareValueIsRead(text, at, w);
    ValueTrims(text, at, w);
    var vb, ve, p := at + w.ValAt(), at + w.ValEnd(), at + w.TailAt();
    var d := BehindBare(at, w);
    if w.tail != "" {
      FirstOf(text, p, w.tail);
      CloseValue(text, p, d, ve);
      var g := d.(chars := w.TailAt() + 1, block := Clean, valBegin := vb, valEnd := ve);
      RestOnOneLine(w.tail);
      OverTail(text, p + 1, w.tail[1..], g);
      CloseLine(text, at + w.Length(), g.(chars := w.Length()));
    } else {
      NoComment(CharAt(text, p));
      CloseValue(text, p, d, ve);
    }
  }

  lemma NoComment(c: char)
    requires IsLineBound(c)
    ensures c != '#'
  {
  }

  lemma RestOnOneLine(s: string)
    requires OnOneLine(s) && s != ""
    ensures OnOneLine(s[1..])
  {
  }

  lemma BlanksPlain(s: string, quote: Quote)
    requires AllBlank(s)
    ensures forall k :: 0 <= k < |s| ==> !IsSoftLineBound(s[k]) && s[k] != Stack(quote)
  {
  }

  /** The line behind an enclosed value and the blanks there, still open. */
  function BeforeShut(at: nat, w: Written): Line {
    AtValue(at, w).(chars := w.ShutAt(), block := InValue, stack := Stack(w.quote), valBegin := at + w.ValAt())
  }

  lemma QuotedValueIsRead(text: string, at: nat, w: Written)
    requires Writable(w) && TailStands(text, at, w) && w.quote != Bare
    ensures at + w.ShutAt() <= |text|
            && LexFrom(text, at + w.OpenAt(), AtValue(at, w)) == LexFrom(text, at + w.ShutAt(), BeforeShut(at, w))
  {
    hide LexFrom, Reserve, IsKeyName, IsGap, AllDashes, OnOneLine, IsBlank, IsSoftLineBound, PartAt;
    var open, vb, ve := at + w.OpenAt(), at + w.ValAt(), at + w.ValEnd();
    FirstOf(text, open, w.Open());
    PartInside(text, at + w.ShutAt(), w.Shut());
    OpenQuote(text, open, AtValue(at, w), w.quote);
    var d := AtValue(at, w).(chars := w.OpenAt() + 1, block := InValue, stack := Stack(w.quote), valBegin := open + 1);
    OverFill(text, open + 1, w.fill, d);
    if w.value != "" {
      var f := d.(chars := w.ValAt(), valBegin := vb);
      OverValue(text, vb, w.value, f);
      BlanksPlain(w.after, w.quote);
      OverValue(text, ve, w.after, f.(chars := w.ValEnd()));
    }
  }

  lemma QuotedIsRead(text: string, at: nat, w: Written)
    requires Writable(w) && TailStands(text, at, w) && w.quote != Bare
    requires at + w.Length() <= |text| && IsLineBound(CharAt(text, at + w.Length()))
    ensures LexFrom(text, at + w.OpenAt(), AtValue(at, w)) == ReadOf(text, at, w)
  {
    hide LexFrom, Reserve, IsKeyName, IsGap, AllDashes, AllBlank, IsValue, IsBlank, IsLineBound, AfterEnd,
         TrimEnd, PartAt;
    QuotedValueIsRead(text, at, w);
    ValueTrims(text, at, w);
    var shut := at + w.ShutAt();
    FirstOf(text, shut, w.Shut());
    ShutQuote(text, shut, BeforeShut(at, w));
    var g := BeforeShut(at, w).(chars := w.TailAt(), block := Clean, valEnd := shut);
    OverTail(text, at + w.TailAt(), w.tail, g);
    CloseLine(text, at + w.Length(), g.(chars := w.Length()));
  }

  lemma LexIsRead(text: string, at: nat, w: Written)
    requires Writable(w) && StandsAt(text, at, w) && HeadStands(text, at, w) && TailStands(text, at, w)
    ensures at < |text| && text[at] != '\0' && LexAt(text, at) == ReadOf(text, at, w)
  {
    hide LexFrom, HeadStands, TailStands, ReadOf, AtValue, Writable;
    StartsNonNul(text, at, w);
    HeadIsRead(text, at, w);
    if w.quote == Bare { BareIsRead(text, at, w); } else { QuotedIsRead(text, at, w); }
  }

  /** The lexer reads back exactly the indentation, the key and the value that were written. */
  lemma WrittenIsRead(text: string, at: nat, w: Written)
    requires Writable(w) && StandsAt(text, at, w)
    ensures at < |text| && at + w.Length() <= |text| && text[at] != '\0' && LexAt(text, at) == ReadOf(text, at, w)
    ensures var l := LexAt(text, at);
            && !NoKey(l.line) && l.line.blank == |w.lead| && l.line.key == Reserve(w.name) && l.next > at
            && at <= l.line.keyBegin < l.line.keyEnd <= l.line.valBegin <= l.line.valEnd <= |text|
            && text[l.line.keyBegin..l.line.keyEnd] == w.name && text[l.line.valBegin..l.line.valEnd] == w.value
  {
    hide LexAt, Reserve, IsGap, AllDashes, AllBlank, IsValue, AfterEnd, PartAt, StandsAt, IsKeyChar, Written.Text,
         Written.Open, Written.Shut;
    AllStand(text, at, w);
    LexIsRead(text, at, w);
    PartInside(text, at + w.ValAt(), w.value);
    PartInside(text, at + w.NameAt(), w.name);
    PartInside(text, at + w.TailAt(), w.tail);
  }

  lemma StartsNonNul(text: string, at: nat, w: Written)
    requires Writable(w) && HeadStands(text, at, w)
    ensures at < |text| && text[at] != '\0'
  {
    hide Reserve, PartAt;
    FirstOf(text, at + w.NameAt(), w.name);
    if w.lead != "" {
      FirstOf(text, at, w.lead);
    } else if w.dash != "" {
      FirstOf(text, at, w.dash);
    }
  }

  /** The next line starts right behind the end of this one, however that is written. */
  lemma NextStarts(text: string, at: nat, w: Written, end: string)
    requires Writable(w) && StandsAt(text, at, w)
    requires var e := at + w.Length();
             e + |end| <= |text| && text[e..e + |end|] == end && EndsLine(end, text[e + |end|..])
    ensures at < |text| && LexAt(text, at).next == at + w.Length() + |end|
  {
    hide LexAt, Writable, StandsAt, Reserve, AfterEnd, EndsLine;
    WrittenIsRead(text, at, w);
    WrittenEnd(text, at + w.Length(), end);
  }

  // Lines without a key.

  ghost predicate IsMargin(s: string) { forall k :: 0 <= k < |s| ==> s[k] == '-' || IsBlank(s[k]) }

  /** Blanks and dashes, and perhaps a comment, up to a line end. */
  ghost predicate StandsBare(text: string, at: nat, margin: string, comment: string) {
    && IsMargin(margin) && OnOneLine(comment) && (comment != "" ==> comment[0] == '#')
    && PartAt(text, at, margin) && PartAt(text, at + |margin|, comment)
    && IsLineBound(CharAt(text, at + |margin| + |comment|))
  }

  lemma {:induction false} OverMargin(text: string, p: nat, s: string, line: Line) returns (r: Line)
    requires PartAt(text, p, s) && IsMargin(s) && line.block == AtStart && line.keyBegin == line.keyEnd == 0
    ensures LexFrom(text, p, line) == LexFrom(text, p + |s|, r)
    ensures r.block == AtStart && r.keyBegin == r.keyEnd == 0 && r.valBegin == line.valBegin && r.valEnd == line.valEnd
    decreases |s|
  {
    hide Close, TrimEnd, OnKey, OnSep, OnValueStart, OnValue, Reserve, AfterEnd;
    r := line;
    if s != "" {
      FirstOf(text, p, s);
      var n := line.(chars := line.chars + 1);
      n := n.(blank := if IsBlank(s[0]) && n.blank == n.chars - 1 then n.blank + 1 else n.blank);
      assert LexFrom(text, p, line) == LexFrom(text, p + 1, n);
      r := OverMargin(text, p + 1, s[1..], n);
    }
  }

  lemma StartCloses(text: string, p: nat, d: Line)
    requires p <= |text| && IsSoftLineBound(CharAt(text, p)) && d.block == AtStart && d.valBegin == d.valEnd == 0
    ensures LexFrom(text, p, d)
         == if CharAt(text, p) == '#' then LexFrom(text, p + 1, d.(chars := d.chars + 1, block := Clean))
            else Lexed(NoError, d.(chars := d.chars + 1),
                       if IsNewline(CharAt(text, p)) then AfterEnd(text, p) else p)
  {
    hide Reserve, AfterEnd;
  }

  lemma BareLine(text: string, at: nat, margin: string, comment: string)
    requires StandsBare(text, at, margin, comment) && at < |text|
    ensures var l, e := LexAt(text, at), at + |margin| + |comment|;
            l.error == NoError && NoKey(l.line) && l.next == if IsNewline(CharAt(text, e)) then AfterEnd(text, e) else e
  {
    hide LexFrom, PartAt, IsMargin, AfterEnd, TrimEnd;
    var p := at + |margin|;
    PartInside(text, p, comment);
    var r := OverMargin(text, at, margin, EMPTY_LINE);
    if comment != "" {
      FirstOf(text, p, comment);
      StartCloses(text, p, r);
      var g := r.(chars := r.chars + 1, block := Clean);
      RestOnOneLine(comment);
      OverTail(text, p + 1, comment[1..], g);
      CloseLine(text, p + |comment|, g.(chars := g.chars + (|comment| - 1)));
    } else {
      NoComment(CharAt(text, p));
      StartCloses(text, p, r);
    }
  }

  // The documented keys.

  ghost predicate Names(name: string, key: Key) { IsKeyName(name) && Reserve(name) == key }

  /** The documented name of each key. */
  function NameOf(key: Key): string {
    match key
    case ChannelKey => "channel"
    case Define => "define"
    case Variable => "var"
    case HotUpdate => "hot_update"
    case LoggerName => "logger_name"
    case LoggerDesc => "logger_desc"
    case ShmKey => "shm_key"
    case DeviceKey => "device"
    case Sync => "sync"
    case Disable => "disable"
    case Priority => "priority"
    case Category => "category"
    case CategoryExtend => "category_extend"
    case CategoryWlist => "category_wlist"
    case CategoryBlist => "category_blist"
    case CategoryWmask => "category_wmask"
    case CategoryBmask => "category_bmask"
    case Identify => "identify"
    case IdentifyExtend => "identify_extend"
    case IdentifyWlist => "identify_wlist"
    case IdentifyBlist => "identify_blist"
    case IdentifyWmask => "identify_wmask"
    case IdentifyBmask => "identify_bmask"
    case InType => "in_type"
    case OutType => "out_type"
    case File => "file"
    case Path => "path"
    case UdpAddr => "udp_addr"
    case LimitSize => "limit_size"
    case Rollback => "rollback"
    case Rolldaily => "rolldaily"
    case Rollhourly => "rollhourly"
    case FileStuffUp => "stuff_up"
    case NullKey => ""
  }

  lemma OuterNames()
    ensures Names("channel", ChannelKey)
    ensures Names("define", Define)
    ensures Names("def", Define)
  {
  }

  lemma OuterNamesMore()
    ensures Names("var", Variable)
  {
  }

  lemma LoggerNames()
    ensures Names("hot_update", HotUpdate)
    ensures Names("logger_name", LoggerName)
    ensures Names("logger_desc", LoggerDesc)
  {
  }

  lemma LoggerNamesMore()
    ensures Names("shm_key", ShmKey)
  {
  }

  lemma ChannelNames()
    ensures Names("device", DeviceKey)
    ensures Names("sync", Sync)
    ensures Names("disable", Disable)
  {
  }

  lemma ChannelNamesMore()
    ensures Names("priority", Priority)
  {
  }

  lemma CategoryNames()
    ensures Names("category", Category)
    ensures Names("category_extend", CategoryExtend)
    ensures Names("category_wlist", CategoryWlist)
  {
  }

  lemma CategoryNamesMore()
    ensures Names("category_blist", CategoryBlist)
    ensures Names("category_wmask", CategoryWmask)
    ensures Names("category_bmask", CategoryBmask)
  {
  }

  lemma IdentifyNames()
    ensures Names("identify", Identify)
    ensures Names("identify_extend", IdentifyExtend)
    ensures Names("identify_wlist", IdentifyWlist)
  {
  }

  lemma IdentifyNamesMore()
    ensures Names("identify_blist", IdentifyBlist)
    ensures Names("identify_wmask", IdentifyWmask)
    ensures Names("identify_bmask", IdentifyBmask)
  {
  }

  lemma TypeNames()
    ensures Names("in_type", InType)
    ensures Names("out_type", OutType)
    ensures Names("file", File)
  {
  }

  lemma TypeNamesMore()
    ensures Names("path", Path)
    ensures Names("udp_addr", UdpAddr)
  {
  }

  lemma FileNames()
    ensures Names("limit_size", LimitSize)
    ensures Names("rollback", Rollback)
    ensures Names("rolldaily", Rolldaily)
  {
  }

  lemma FileNamesMore()
    ensures Names("rollhourly", Rollhourly)
    ensures Names("stuff_up", FileStuffUp)
  {
  }

  /** Every key has its documented name, which the lexer reads as this key. */
  lemma DocumentedNames(key: Key)
    requires key != NullKey
    ensures IsKeyName(NameOf(key)) && Reserve(NameOf(key)) == key
  {
    hide Names, IsKeyName, Reserve;
    OuterNames();
    OuterNamesMore();
    LoggerNames();
    LoggerNamesMore();
    ChannelNames();
    ChannelNamesMore();
    CategoryNames();
    CategoryNamesMore();
    IdentifyNames();
    IdentifyNamesMore();
    TypeNames();
    TypeNamesMore();
    FileNames();
    FileNamesMore();
    assert Names(NameOf(key), key);
    NamesIs(NameOf(key), key);
  }

  lemma NamesIs(name: string, key: Key)
    requires Names(name, key)
    ensures IsKeyName(name) && Reserve(name) == key
  {
    hide IsKeyName, Reserve;
  }

  ghost predicate Agree(a: string, b: string, k: nat) { k < |a| && k < |b| ==> a[k] == b[k] }

  lemma ExtendedAgree(a: string, b: string, e: Key, wl: Key, wm: Key, bl: Key, bm: Key)
    requires |a| == |b| > 11 && Agree(a, b, 9) && Agree(a, b, 10)
    ensures Extended(a, e, wl, wm, bl, bm) == Extended(b, e, wl, wm, bl, bm)
  {
  }

  ghost predicate AgreeAll(a: string, b: string) {
    && |a| == |b| && Agree(a, b, 0) && Agree(a, b, 1) && Agree(a, b, 2) && Agree(a, b, 4) && Agree(a, b, 7)
    && Agree(a, b, 9) && Agree(a, b, 10)
  }

  lemma DecideFirst(a: string, b: string)
    requires AgreeAll(a, b) && |a| >= 2 && a[0] in {'c', 'd', 'f', 'h'}
    ensures Reserve(a) == Reserve(b)
  {
    if |a| > 11 { ExtendedAgree(a, b, CategoryExtend, CategoryWlist, CategoryWmask, CategoryBlist, CategoryBmask); }
    hide Extended;
  }

  lemma DecideMiddle(a: string, b: string)
    requires AgreeAll(a, b) && |a| >= 2 && a[0] in {'i', 'l', 'p'}
    ensures Reserve(a) == Reserve(b)
  {
    if |a| > 11 { ExtendedAgree(a, b, IdentifyExtend, IdentifyWlist, IdentifyWmask, IdentifyBlist, IdentifyBmask); }
    hide Extended;
  }

  lemma DecideLast(a: string, b: string)
    requires AgreeAll(a, b) && |a| >= 2 && a[0] !in {'c', 'd', 'f', 'h', 'i', 'l', 'p'}
    ensures Reserve(a) == Reserve(b)
  {
    hide Extended;
  }

  lemma TooShort(a: string)
    requires |a| < 2
    ensures Reserve(a) == NullKey
  {
    hide Extended;
  }

  /** Names of one length that agree in seven of their letters are read as the same key, documented or not. */
  lemma LettersDecide(a: string, b: string)
    requires AgreeAll(a, b)
    ensures Reserve(a) == Reserve(b)
  {
    hide Reserve, AgreeAll;
    if |a| < 2 {
      assert |a| == |b| by { SameLength(a, b); }
      TooShort(a);
      TooShort(b);
    } else if a[0] in {'c', 'd', 'f', 'h'} {
      DecideFirst(a, b);
    } else if a[0] in {'i', 'l', 'p'} {
      DecideMiddle(a, b);
    } else {
      DecideLast(a, b);
    }
  }

  lemma SameLength(a: string, b: string)
    requires AgreeAll(a, b)
    ensures |a| == |b|
  {
  }
}
