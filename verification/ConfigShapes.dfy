/** The lines the lexer accepts: exactly those that are written as one of the two shapes, with a key or without. */
module ConfigShapes {
  import opened BitArrays
  import opened ConfigLines
  import opened ConfigLexer
  import opened ConfigWritten

  // Scans of the text alone.

  lemma {:induction false} LineBoundFrom(text: string, p: nat) returns (e: nat)
    requires p <= |text|
    ensures p <= e <= |text| && IsLineBound(CharAt(text, e)) && forall i :: p <= i < e ==> !IsLineBound(text[i])
    decreases |text| - p
  {
    if IsLineBound(CharAt(text, p)) { e := p; } else { e := LineBoundFrom(text, p + 1); }
  }

  lemma {:induction false} SoftBoundFrom(text: string, p: nat) returns (q: nat)
    requires p <= |text|
    ensures p <= q <= |text| && IsSoftLineBound(CharAt(text, q))
    ensures forall i :: p <= i < q ==> !IsSoftLineBound(text[i])
    decreases |text| - p
  {
    if IsSoftLineBound(CharAt(text, p)) { q := p; } else { q := SoftBoundFrom(text, p + 1); }
  }

  lemma {:induction false} BlanksFrom(text: string, p: nat, to: nat) returns (q: nat)
    requires p <= to <= |text|
    ensures p <= q <= to && (forall i :: p <= i < q ==> IsBlank(text[i])) && (q < to ==> !IsBlank(text[q]))
    decreases |text| - p
  {
    if p < to && IsBlank(text[p]) { q := BlanksFrom(text, p + 1, to); } else { q := p; }
  }

  lemma {:induction false} TrimFrom(text: string, b: nat, q: nat) returns (v: nat)
    requires b < q <= |text| && !IsBlank(text[b])
    ensures b < v <= q && !IsBlank(text[v - 1]) && forall i :: v <= i < q ==> IsBlank(text[i])
    decreases q
  {
    if IsBlank(text[q - 1]) { v := TrimFrom(text, b, q - 1); } else { v := q; }
  }

  // A line by the places of its parts.

  datatype Cuts = Cuts(name: nat, nameEnd: nat, colon: nat, open: nat, quote: Quote, val: nat, valEnd: nat, shut: nat,
                       end: nat)

  function Opening(quote: Quote): string {
    match quote
    case Bare => ""
    case Quotes => "\""
    case Brackets => "["
    case Braces => "{"
  }

  function Closing(quote: Quote): string {
    match quote
    case Bare => ""
    case Quotes => "\""
    case Brackets => "]"
    case Braces => "}"
  }

  /** The places are in order, and what is not part of the line's contents stands between them. */
  ghost predicate ValueCut(text: string, c: Cuts) {
    var n := if c.quote == Bare then 0 else 1;
    && c.colon < c.open <= |text| && c.open + n <= c.val <= c.valEnd <= c.shut && c.shut + n <= c.end <= |text|
    && text[c.open..c.open + n] == Opening(c.quote) && text[c.shut..c.shut + n] == Closing(c.quote)
  }

  function CutOut(text: string, at: nat, lead: nat, c: Cuts): Written
    requires at <= lead <= c.name <= c.nameEnd <= c.colon < c.open <= c.val <= c.valEnd <= c.shut <= c.end <= |text|
    requires c.open + |Opening(c.quote)| <= c.val && c.shut + |Closing(c.quote)| <= c.end
  {
    Written(text[at..lead], text[lead..c.name], text[c.name..c.nameEnd], text[c.nameEnd..c.colon],
            text[c.colon + 1..c.open], c.quote, text[c.open + |Opening(c.quote)|..c.val], text[c.val..c.valEnd],
            text[c.valEnd..c.shut], text[c.shut + |Closing(c.quote)|..c.end])
  }

  lemma Slices(text: string, a: nat, b: nat, c: nat)
    requires a <= b <= c <= |text|
    ensures text[a..b] + text[b..c] == text[a..c]
  {
  }

  lemma CutHead(text: string, at: nat, lead: nat, c: Cuts)
    requires at <= lead <= c.name <= c.nameEnd <= c.colon < c.open <= c.end <= |text| && text[c.colon] == ':'
    ensures text[at..lead] + (text[lead..c.name] + (text[c.name..c.nameEnd] + (text[c.nameEnd..c.colon]
              + (":" + (text[c.colon + 1..c.open] + text[c.open..c.end])))))
         == text[at..c.end]
  {
    assert text[c.colon..c.colon + 1] == ":";
    Slices(text, c.colon + 1, c.open, c.end);
    Slices(text, c.colon, c.colon + 1, c.end);
    Slices(text, c.nameEnd, c.colon, c.end);
    Slices(text, c.name, c.nameEnd, c.end);
    Slices(text, lead, c.name, c.end);
    Slices(text, at, lead, c.end);
  }

  lemma Delimiters(quote: Quote)
    ensures |Opening(quote)| == |Closing(quote)| == if quote == Bare then 0 else 1
  {
  }

  /** The parts of a cut. */
  ghost predicate PartsAre(text: string, at: nat, lead: nat, c: Cuts, n: nat, w: Written) {
    && at <= lead <= c.name <= c.nameEnd <= c.colon < c.open && c.open + n <= c.val <= c.valEnd <= c.shut
    && c.shut + n <= c.end <= |text|
    && w.lead == text[at..lead] && w.dash == text[lead..c.name] && w.name == text[c.name..c.nameEnd]
    && w.gap == text[c.nameEnd..c.colon] && w.pad == text[c.colon + 1..c.open]
    && w.Open() == text[c.open..c.open + n] && w.fill == text[c.open + n..c.val] && w.value == text[c.val..c.valEnd]
    && w.after == text[c.valEnd..c.shut] && w.Shut() == text[c.shut..c.shut + n] && w.tail == text[c.shut + n..c.end]
  }

  lemma CutParts(text: string, at: nat, lead: nat, c: Cuts)
    requires at <= lead <= c.name <= c.nameEnd <= c.colon && ValueCut(text, c)
    ensures |Opening(c.quote)| == |Closing(c.quote)| == if c.quote == Bare then 0 else 1
    ensures PartsAre(text, at, lead, c, |Opening(c.quote)|, CutOut(text, at, lead, c))
  {
    var w := CutOut(text, at, lead, c);
    assert w.Open() == Opening(c.quote) && w.Shut() == Closing(c.quote);
    Delimiters(c.quote);
  }

  lemma TextOfParts(w: Written, lead: string, dash: string, name: string, gap: string, pad: string, rest: string,
                    open: string, fill: string, value: string, after: string, shut: string, tail: string)
    requires w.lead == lead && w.dash == dash && w.name == name && w.gap == gap && w.pad == pad
    requires w.Open() == open && w.fill == fill && w.value == value && w.after == after && w.Shut() == shut
    requires w.tail == tail && open + (fill + (value + (after + (shut + tail)))) == rest
    ensures w.Text() == lead + (dash + (name + (gap + (":" + (pad + rest)))))
  {
    hide Written.Text, Written.Open, Written.Shut;
    TextIs(w);
  }

  lemma PartsText(text: string, at: nat, lead: nat, c: Cuts, n: nat, w: Written)
    requires PartsAre(text, at, lead, c, n, w) && text[c.colon] == ':'
    ensures at <= c.end <= |text| && w.Text() == text[at..c.end]
  {
    hide Written.Open, Written.Shut, Written.Text;
    CutValue(text, c, n);
    CutHead(text, at, lead, c);
    TextOfParts(w, text[at..lead], text[lead..c.name], text[c.name..c.nameEnd], text[c.nameEnd..c.colon],
                text[c.colon + 1..c.open], text[c.open..c.end], text[c.open..c.open + n], text[c.open + n..c.val],
                text[c.val..c.valEnd], text[c.valEnd..c.shut], text[c.shut..c.shut + n], text[c.shut + n..c.end]);
  }

  lemma CutStands(text: string, at: nat, lead: nat, c: Cuts)
    requires at <= lead <= c.name <= c.nameEnd <= c.colon < |text| && text[c.colon] == ':' && ValueCut(text, c)
    requires IsLineBound(CharAt(text, c.end))
    ensures |Opening(c.quote)| == |Closing(c.quote)| == if c.quote == Bare then 0 else 1
    ensures StandsAt(text, at, CutOut(text, at, lead, c))
  {
    CutParts(text, at, lead, c);
    var w := CutOut(text, at, lead, c);
    hide IsLineBound, Written.Text, Written.Length, PartsAre, Opening, Closing;
    PartsText(text, at, lead, c, |Opening(c.quote)|, w);
    TextLength(w);
  }

  lemma CutValue(text: string, c: Cuts, n: nat)
    requires c.open + n <= c.val <= c.valEnd <= c.shut && c.shut + n <= c.end <= |text|
    ensures text[c.open..c.open + n] + (text[c.open + n..c.val] + (text[c.val..c.valEnd]
              + (text[c.valEnd..c.shut] + (text[c.shut..c.shut + n] + text[c.shut + n..c.end]))))
         == text[c.open..c.end]
  {
    Slices(text, c.shut, c.shut + n, c.end);
    Slices(text, c.valEnd, c.shut, c.end);
    Slices(text, c.val, c.valEnd, c.end);
    Slices(text, c.open + n, c.val, c.end);
    Slices(text, c.open, c.open + n, c.end);
  }

  // What the lexer has accepted, from the end of a line to its start.

  /** A value that was opened is shut on its line. */
  lemma {:induction false} ShutFrom(text: string, p: nat, line: Line) returns (q: nat)
    requires p <= |text| && line.block == InValue && line.stack in {'\"', ']', '}'}
    requires LexFrom(text, p, line).error == NoError
    ensures p <= q < |text| && text[q] == line.stack
    ensures forall i :: p <= i < q ==> !IsSoftLineBound(text[i]) && text[i] != line.stack
    decreases |text| - p
  {
    hide TrimEnd, OnStart, OnKey, OnSep, OnValueStart, Reserve, AfterEnd;
    var ch := CharAt(text, p);
    assert !IsSoftLineBound(ch);
    if ch == line.stack {
      q := p;
    } else {
      q := ShutFrom(text, p + 1, OnValue(line.(chars := line.chars + 1), ch, p + 1).line);
    }
  }

  lemma {:induction false} PadFrom(text: string, p: nat, line: Line) returns (o: nat, d: Line)
    requires p <= |text| && line.block == BeforeValue && LexFrom(text, p, line).error == NoError
    ensures p <= o <= |text| && (forall i :: p <= i < o ==> IsBlank(text[i])) && !IsBlank(CharAt(text, o))
    ensures d.block == BeforeValue && LexFrom(text, o, d).error == NoError
    decreases |text| - p
  {
    hide Close, TrimEnd, OnStart, OnKey, OnSep, OnValue, Reserve, AfterEnd;
    if IsBlank(CharAt(text, p)) {
      o, d := PadFrom(text, p + 1, line.(chars := line.chars + 1));
    } else {
      o, d := p, line;
    }
  }

  /** What holds of the parts of an accepted value. */
  ghost predicate ValueOk(text: string, c: Cuts) {
    && ValueCut(text, c) && IsLineBound(CharAt(text, c.end))
    && AllBlank(text[c.colon + 1..c.open]) && IsValue(text[c.val..c.valEnd], c.quote)
    && AllBlank(text[c.valEnd..c.shut]) && (c.val == c.valEnd ==> c.valEnd == c.shut)
    && if c.quote == Bare
       then && c.open == c.val && OnOneLine(text[c.shut..c.end])
            && (c.shut < c.end ==> text[c.shut] == '#')
       else AllBlank(text[c.open + 1..c.val]) && OnOneLine(text[c.shut + 1..c.end])
  }

  lemma PartBlank(text: string, a: nat, b: nat)
    requires a <= b <= |text| && forall i :: a <= i < b ==> IsBlank(text[i])
    ensures AllBlank(text[a..b])
  {
  }

  lemma PartOnOneLine(text: string, a: nat, b: nat)
    requires a <= b <= |text| && forall i :: a <= i < b ==> !IsLineBound(text[i])
    ensures OnOneLine(text[a..b])
  {
  }

  lemma PartValue(text: string, a: nat, b: nat, quote: Quote)
    requires a <= b <= |text|
    requires forall i :: a <= i < b ==> !IsSoftLineBound(text[i]) && (quote != Bare ==> text[i] != Stack(quote))
    requires a < b ==> !IsBlank(text[a]) && !IsBlank(text[b - 1])
    requires a < b && quote == Bare ==> text[a] !in {'\"', '[', '{'}
    ensures IsValue(text[a..b], quote)
  {
    var s := text[a..b];
    forall k | 0 <= k < |s| ensures !IsSoftLineBound(s[k]) && s[k] != Stack(quote) { assert s[k] == text[a + k]; }
  }

  /** A bare value: everything up to a line bound or a comment, without the blanks there. */
  lemma BareCuts(text: string, colon: nat, o: nat) returns (c: Cuts)
    requires colon < o <= |text| && (forall i :: colon < i < o ==> IsBlank(text[i])) && !IsBlank(CharAt(text, o))
    requires CharAt(text, o) !in {'\"', '[', '{'}
    ensures c.colon == colon && ValueOk(text, c)
  {
    hide IsBlank, IsSoftLineBound, IsValue, AllBlank, OnOneLine, IsLineBound;
    var q := SoftBoundFrom(text, o);
    var v := o;
    if o < q { v := TrimFrom(text, o, q); }
    var e := LineBoundFrom(text, q);
    SoftOrComment(CharAt(text, q));
    PartBlank(text, colon + 1, o);
    PartValue(text, o, v, Bare);
    PartBlank(text, v, q);
    PartOnOneLine(text, q, e);
    c := Cuts(0, 0, colon, o, Bare, o, v, q, e);
  }

  lemma SoftOrComment(ch: char)
    ensures IsSoftLineBound(ch) <==> IsLineBound(ch) || ch == '#'
  {
  }

  /** An enclosed value. */
  lemma QuotedCuts(text: string, colon: nat, o: nat, quote: Quote, s: nat) returns (c: Cuts)
    requires colon < o < s < |text| && (forall i :: colon < i < o ==> IsBlank(text[i])) && quote != Bare
    requires text[o..o + 1] == Opening(quote) && text[s..s + 1] == Closing(quote)
    requires forall i :: o < i < s ==> !IsSoftLineBound(text[i]) && text[i] != Stack(quote)
    ensures c.colon == colon && ValueOk(text, c)
  {
    hide IsBlank, IsSoftLineBound, IsValue, AllBlank, OnOneLine, IsLineBound, Opening, Closing;
    var b := BlanksFrom(text, o + 1, s);
    var v := b;
    if b < s { v := TrimFrom(text, b, s); }
    var e := LineBoundFrom(text, s + 1);
    PartBlank(text, colon + 1, o);
    PartBlank(text, o + 1, b);
    PartValue(text, b, v, quote);
    PartBlank(text, v, s);
    PartOnOneLine(text, s + 1, e);
    c := Cuts(0, 0, colon, o, quote, b, v, s, e);
  }

  lemma OpensValue(text: string, o: nat, d: Line) returns (quote: Quote, f: Line)
    requires o <= |text| && d.block == BeforeValue && LexFrom(text, o, d).error == NoError
    ensures quote == Bare ==> CharAt(text, o) !in {'\"', '[', '{'}
    ensures quote != Bare ==>
              && o < |text| && text[o..o + 1] == Opening(quote) && Closing(quote) == [f.stack]
              && f.stack == Stack(quote)
              && f.block == InValue && f.stack in {'\"', ']', '}'} && LexFrom(text, o + 1, f).error == NoError
  {
    hide Close, TrimEnd, OnStart, OnKey, OnSep, OnValue, Reserve, AfterEnd;
    f := d.(chars := d.chars + 1, block := InValue, valBegin := o + 1);
    match CharAt(text, o)
    case '\"' => quote, f := Quotes, f.(stack := '\"');
    case '[' => quote, f := Brackets, f.(stack := ']');
    case '{' => quote, f := Braces, f.(stack := '}');
    case _ => quote := Bare;
  }

  lemma ValueCuts(text: string, colon: nat, line: Line) returns (c: Cuts)
    requires colon < |text| && line.block == BeforeValue && LexFrom(text, colon + 1, line).error == NoError
    ensures c.colon == colon && ValueOk(text, c)
  {
    hide LexFrom, IsBlank, ValueOk, IsSoftLineBound, Opening, Closing;
    var o, d := PadFrom(text, colon + 1, line);
    var quote, f := OpensValue(text, o, d);
    if quote == Bare {
      c := BareCuts(text, colon, o);
    } else {
      var s := ShutFrom(text, o + 1, f);
      assert text[s..s + 1] == [text[s]];
      c := QuotedCuts(text, colon, o, quote, s);
    }
  }

  lemma {:induction false} GapFrom(text: string, p: nat, line: Line) returns (colon: nat, d: Line)
    requires p <= |text| && line.block == BeforeSep && LexFrom(text, p, line).error == NoError
    ensures p <= colon < |text| && text[colon] == ':' && forall i :: p <= i < colon ==>
              text[i] == ' ' || text[i] == '\t'
    ensures d.block == BeforeValue && LexFrom(text, colon + 1, d).error == NoError
    decreases |text| - p
  {
    hide TrimEnd, OnStart, OnKey, OnValueStart, OnValue, Reserve, AfterEnd;
    var next := line.(chars := line.chars + 1);
    if CharAt(text, p) == ':' {
      colon, d := p, next.(block := BeforeValue);
    } else {
      colon, d := GapFrom(text, p + 1, next);
    }
  }

  lemma NameGoesOn(text: string, p: nat, line: Line)
    requires p <= |text| && line.block == InKey && line.keyBegin <= p && LexFrom(text, p, line).error == NoError
    ensures var ch, next := CharAt(text, p), line.(chars := line.chars + 1);
            var named := next.(keyEnd := p, key := Reserve(text[line.keyBegin..p]));
            && p < |text| && (!IsKeyChar(ch) ==> Reserve(text[line.keyBegin..p]) != NullKey && ch in {':', ' ', '\t'})
            && LexFrom(text, p, line)
               == LexFrom(text, p + 1, if IsKeyChar(ch) then next
                                       else named.(block := if ch == ':' then BeforeValue else BeforeSep))
  {
    hide TrimEnd, OnStart, OnValueStart, OnValue, Reserve, AfterEnd;
  }

  lemma {:induction false} NameFrom(text: string, p: nat, line: Line) returns (ke: nat, colon: nat, d: Line)
    requires p <= |text| && line.block == InKey && line.keyBegin <= p && LexFrom(text, p, line).error == NoError
    ensures p <= ke <= colon < |text| && (forall i :: p <= i < ke ==> IsKeyChar(text[i]))
    ensures Reserve(text[line.keyBegin..ke]) != NullKey && text[colon] == ':'
    ensures forall i :: ke <= i < colon ==> text[i] == ' ' || text[i] == '\t'
    ensures d.block == BeforeValue && LexFrom(text, colon + 1, d).error == NoError
    decreases |text| - p
  {
    hide LexFrom, Reserve, IsKeyChar;
    NameGoesOn(text, p, line);
    var ch, next := CharAt(text, p), line.(chars := line.chars + 1);
    if IsKeyChar(ch) {
      ke, colon, d := NameFrom(text, p + 1, next);
    } else {
      ke := p;
      next := next.(keyEnd := p, key := Reserve(text[line.keyBegin..p]));
      if ch == ':' {
        colon, d := p, next.(block := BeforeValue);
      } else {
        colon, d := GapFrom(text, p + 1, next.(block := BeforeSep));
      }
    }
  }

  lemma {:induction false} MarginFrom(text: string, p: nat, line: Line) returns (q: nat, d: Line)
    requires p <= |text| && line.block == AtStart && LexFrom(text, p, line).error == NoError
    ensures p <= q <= |text| && forall i :: p <= i < q ==> text[i] == '-' || IsBlank(text[i])
    ensures !IsSoftLineBound(CharAt(text, q)) ==>
              && q < |text| && 'a' <= text[q] <= 'z' && d.block == InKey && d.keyBegin == q
              && LexFrom(text, q + 1, d).error == NoError
    decreases |text| - p
  {
    hide Close, TrimEnd, OnSep, OnValueStart, OnValue, Reserve, AfterEnd;
    var ch, next := CharAt(text, p), line.(chars := line.chars + 1);
    if IsSoftLineBound(ch) {
      q, d := p, line;
    } else if IsBlank(ch) || ch == '-' {
      q, d := MarginFrom(text, p + 1, OnStart(next, ch, p + 1, text).line);
    } else {
      q, d := p, next.(block := InKey, keyBegin := p);
    }
  }

  /** A line with a key. */
  ghost predicate KeyedLine(text: string, at: nat) { exists w: Written :: Writable(w) && StandsAt(text, at, w) }

  /** A line without one. */
  ghost predicate BareLineAt(text: string, at: nat) {
    exists margin: string, comment: string :: StandsBare(text, at, margin, comment)
  }

  lemma PartDashes(text: string, a: nat, b: nat)
    requires a <= b <= |text| && (forall i :: a <= i < b ==> text[i] == '-' || IsBlank(text[i]))
    requires a < b ==> !IsBlank(text[a])
    ensures AllDashes(text[a..b])
  {
  }

  lemma CutWritable(text: string, at: nat, lead: nat, c: Cuts)
    requires at <= lead <= c.name < c.nameEnd <= c.colon < |text| && ValueOk(text, c)
    requires AllBlank(text[at..lead]) && AllDashes(text[lead..c.name]) && IsKeyName(text[c.name..c.nameEnd])
    requires IsGap(text[c.nameEnd..c.colon])
    requires |Opening(c.quote)| == |Closing(c.quote)| == if c.quote == Bare then 0 else 1
    ensures Writable(CutOut(text, at, lead, c))
  {
    hide IsValue, AllBlank, OnOneLine, IsLineBound, IsGap, AllDashes, IsKeyName, Opening, Closing;
    var w := CutOut(text, at, lead, c);
    if c.quote == Bare {
      assert w.fill == "" && w.tail == text[c.shut..c.end];
      EmptyIsBlank();
    } else {
      assert w.fill == text[c.open + 1..c.val] && w.tail == text[c.shut + 1..c.end];
    }
    if w.value == "" { assert c.val == c.valEnd == c.shut && w.after == ""; }
  }

  lemma EmptyIsBlank()
    ensures AllBlank("")
  {
  }

  lemma KeyedCuts(text: string, at: nat, lead: nat, c: Cuts)
    requires at <= lead <= c.name < c.nameEnd <= c.colon < |text| && text[c.colon] == ':' && ValueOk(text, c)
    requires AllBlank(text[at..lead]) && AllDashes(text[lead..c.name]) && IsKeyName(text[c.name..c.nameEnd])
    requires IsGap(text[c.nameEnd..c.colon])
    ensures KeyedLine(text, at)
  {
    hide IsValue, AllBlank, OnOneLine, IsLineBound, IsGap, AllDashes, IsKeyName, Opening, Closing, StandsAt, Writable;
    CutStands(text, at, lead, c);
    CutWritable(text, at, lead, c);
    var w := CutOut(text, at, lead, c);
    assert Writable(w) && StandsAt(text, at, w);
  }

  lemma PartName(text: string, a: nat, b: nat)
    requires a < b <= |text| && 'a' <= text[a] <= 'z' && (forall i :: a < i < b ==> IsKeyChar(text[i]))
    requires Reserve(text[a..b]) != NullKey
    ensures IsKeyName(text[a..b])
  {
    hide Reserve;
    var s := text[a..b];
    forall k | 0 <= k < |s| ensures IsKeyChar(s[k]) { assert s[k] == text[a + k]; }
  }

  lemma PartGap(text: string, a: nat, b: nat)
    requires a <= b <= |text| && forall i :: a <= i < b ==> text[i] == ' ' || text[i] == '\t'
    ensures IsGap(text[a..b])
  {
  }

  lemma MarginBare(text: string, at: nat, q: nat, e: nat)
    requires at <= q <= e <= |text| && (forall i :: at <= i < q ==> text[i] == '-' || IsBlank(text[i]))
    requires (forall i :: q <= i < e ==> !IsLineBound(text[i])) && IsLineBound(CharAt(text, e))
    requires q < e ==> text[q] == '#'
    ensures BareLineAt(text, at)
  {
    var margin, comment := text[at..q], text[q..e];
    PartOnOneLine(text, q, e);
    hide IsBlank, IsLineBound, OnOneLine;
    assert StandsBare(text, at, margin, comment);
  }

  /** Whatever is accepted has one of the two shapes. */
  lemma AcceptedIsWritten(text: string, at: nat)
    requires at < |text| && LexAt(text, at).error == NoError
    ensures KeyedLine(text, at) || BareLineAt(text, at)
  {
    hide LexFrom, KeyedLine, BareLineAt, IsBlank, IsSoftLineBound, IsLineBound, ValueOk, Reserve;
    var q, d := MarginFrom(text, at, EMPTY_LINE);
    if IsSoftLineBound(CharAt(text, q)) {
      var e := LineBoundFrom(text, q);
      SoftOrComment(CharAt(text, q));
      MarginBare(text, at, q, e);
    } else {
      var lead := BlanksFrom(text, at, q);
      var ke, colon, f := NameFrom(text, q + 1, d);
      var v := ValueCuts(text, colon, f);
      var c := v.(name := q, nameEnd := ke);
      NamesDoNotMatter(text, v, c);
      PartBlank(text, at, lead);
      PartDashes(text, lead, q);
      PartName(text, q, ke);
      PartGap(text, ke, colon);
      KeyedCuts(text, at, lead, c);
    }
  }

  lemma NamesDoNotMatter(text: string, c: Cuts, d: Cuts)
    requires ValueOk(text, c) && d == c.(name := d.name, nameEnd := d.nameEnd)
    ensures ValueOk(text, d)
  {
    hide IsBlank, IsValue, AllBlank, OnOneLine, IsLineBound;
  }

  /** The lexer accepts exactly the lines of the two shapes, and finds a key exactly in those of the first. */
  lemma LexAccepts(text: string, at: nat)
    requires at < |text|
    ensures LexAt(text, at).error == NoError <==> KeyedLine(text, at) || BareLineAt(text, at)
    ensures LexAt(text, at).error == NoError ==> (NoKey(LexAt(text, at).line) <==> BareLineAt(text, at))
    ensures !(KeyedLine(text, at) && BareLineAt(text, at))
  {
    if LexAt(text, at).error == NoError { AcceptedIsWritten(text, at); }
    hide LexAt, Writable, StandsAt, StandsBare, AfterEnd;
    if w: Written :| Writable(w) && StandsAt(text, at, w) { WrittenIsRead(text, at, w); }
    if margin: string, comment: string :| StandsBare(text, at, margin, comment) { BareLine(text, at, margin, comment); }
  }

  // What it refuses, and with which error.

  ghost predicate StartsName(text: string, at: nat, margin: string, name: string) {
    && IsMargin(margin) && PartAt(text, at, margin) && PartAt(text, at + |margin|, name)
    && name != "" && 'a' <= name[0] <= 'z' && forall k :: 0 <= k < |name| ==> IsKeyChar(name[k])
  }

  lemma AfterName(text: string, at: nat, margin: string, name: string) returns (r: Line)
    requires StartsName(text, at, margin, name)
    ensures var kb := at + |margin|;
            && kb + |name| <= |text| && text[kb..kb + |name|] == name && r.block == InKey && r.keyBegin == kb
            && LexFrom(text, at, EMPTY_LINE) == LexFrom(text, kb + |name|, r)
  {
    hide LexFrom, IsKeyChar, PartAt, IsMargin;
    var kb := at + |margin|;
    r := OverMargin(text, at, margin, EMPTY_LINE);
    FirstOf(text, kb, name);
    FirstOfName(text, kb, r);
    r := r.(chars := r.chars + 1, block := InKey, keyBegin := kb);
    OverName(text, kb + 1, name[1..], r);
    r := r.(chars := r.chars + (|name| - 1));
    PartInside(text, kb, name);
  }

  /** A line that starts with anything but blanks, dashes, a small letter or a comment. */
  lemma NoName(text: string, at: nat, margin: string)
    requires at < |text| && IsMargin(margin) && PartAt(text, at, margin)
    requires var c := CharAt(text, at + |margin|);
             c != '-' && !IsBlank(c) && !IsSoftLineBound(c) && !('a' <= c <= 'z')
    ensures LexAt(text, at).error == IllegalKey
  {
    hide LexFrom, IsBlank, IsSoftLineBound, PartAt, IsMargin;
    PartInside(text, at, margin);
    var r := OverMargin(text, at, margin, EMPTY_LINE);
    BadFirst(text, at + |margin|, r);
  }

  lemma BadFirst(text: string, p: nat, r: Line)
    requires p <= |text| && r.block == AtStart
    requires var c := CharAt(text, p); c != '-' && !IsBlank(c) && !IsSoftLineBound(c) && !('a' <= c <= 'z')
    ensures LexFrom(text, p, r).error == IllegalKey
  {
    hide Close, TrimEnd, OnKey, OnSep, OnValueStart, OnValue, Reserve, AfterEnd;
  }

  /** A name that is unknown, or followed by what may not follow a name. */
  lemma BadName(text: string, at: nat, margin: string, name: string)
    requires StartsName(text, at, margin, name) && at < |text|
    ensures var c, e := CharAt(text, at + |margin| + |name|), LexAt(text, at).error;
            && (IsSoftLineBound(c) ==> e == NotClosure)
            && (!IsKeyChar(c) && !IsSoftLineBound(c) && Reserve(name) == NullKey ==> e == IllegalKey)
            && (!IsKeyChar(c) && !IsSoftLineBound(c) && Reserve(name) != NullKey && c !in {':', ' ', '\t'} ==>
                  e == NonsupportSyntax)
  {
    hide StartsName, LexFrom, IsKeyChar, IsSoftLineBound, Reserve;
    var r := AfterName(text, at, margin, name);
    NameEnds(text, at + |margin| + |name|, r);
  }

  lemma NameEnds(text: string, p: nat, r: Line)
    requires p <= |text| && r.block == InKey && r.keyBegin <= p
    ensures var c, e, key := CharAt(text, p), LexFrom(text, p, r).error, Reserve(text[r.keyBegin..p]);
            && (IsSoftLineBound(c) ==> e == NotClosure)
            && (!IsKeyChar(c) && !IsSoftLineBound(c) && key == NullKey ==> e == IllegalKey)
            && (!IsKeyChar(c) && !IsSoftLineBound(c) && key != NullKey && c !in {':', ' ', '\t'} ==>
                  e == NonsupportSyntax)
  {
    hide TrimEnd, OnStart, OnValueStart, OnValue, Reserve, AfterEnd;
  }

  /** A known name and blanks, without a colon behind them. */
  lemma NoColon(text: string, at: nat, margin: string, name: string, gap: string)
    requires StartsName(text, at, margin, name) && Reserve(name) != NullKey && IsGap(gap) && gap != ""
    requires PartAt(text, at + |margin| + |name|, gap)
             && CharAt(text, at + |margin| + |name| + |gap|) !in {':', ' ', '\t'}
    ensures at < |text| && LexAt(text, at).error
         == if IsSoftLineBound(CharAt(text, at + |margin| + |name| + |gap|)) then NotClosure else NonsupportSyntax
  {
    hide StartsName, LexFrom, IsKeyChar, IsSoftLineBound, Reserve, PartAt, IsGap;
    var r := AfterName(text, at, margin, name);
    var p := at + |margin| + |name|;
    FirstOf(text, p, gap);
    FirstOfGap(gap);
    EndOfName(text, p, r);
    var d := r.(chars := r.chars + 1, block := BeforeSep, key := Reserve(name), keyEnd := p);
    OverGap(text, p + 1, gap[1..], d);
    PartInside(text, p, gap);
    BadSep(text, p + |gap|, d.(chars := d.chars + (|gap| - 1)));
  }

  lemma FirstOfGap(gap: string)
    requires IsGap(gap) && gap != ""
    ensures (gap[0] == ' ' || gap[0] == '\t') && IsGap(gap[1..])
  {
  }

  lemma BadSep(text: string, p: nat, d: Line)
    requires p <= |text| && d.block == BeforeSep && CharAt(text, p) !in {':', ' ', '\t'}
    ensures LexFrom(text, p, d).error == if IsSoftLineBound(CharAt(text, p)) then NotClosure else NonsupportSyntax
  {
    hide TrimEnd, OnStart, OnKey, OnValueStart, OnValue, Reserve, AfterEnd;
  }

  lemma {:induction false} NotShut(text: string, p: nat, s: string, line: Line)
    requires PartAt(text, p, s) && line.block == InValue && line.stack in {'\"', ']', '}'}
    requires (forall k :: 0 <= k < |s| ==> !IsSoftLineBound(s[k]) && s[k] != line.stack)
    requires IsSoftLineBound(CharAt(text, p + |s|))
    ensures p <= |text| && LexFrom(text, p, line).error == NotClosure
    decreases |s|
  {
    hide TrimEnd, OnStart, OnKey, OnSep, OnValueStart, Reserve, AfterEnd;
    if s != "" {
      FirstOf(text, p, s);
      NotShut(text, p + 1, s[1..], OnValue(line.(chars := line.chars + 1), s[0], p + 1).line);
    }
  }

  /** An enclosed value that is not shut before the line ends or a comment begins. */
  lemma Unclosed(text: string, at: nat, w: Written, inside: string)
    requires Writable(w) && w.quote != Bare && HeadStands(text, at, w) && PartAt(text, at + w.OpenAt(), w.Open())
    requires PartAt(text, at + w.OpenAt() + 1, inside)
    requires forall k :: 0 <= k < |inside| ==> !IsSoftLineBound(inside[k]) && inside[k] != Stack(w.quote)
    requires IsSoftLineBound(CharAt(text, at + w.OpenAt() + 1 + |inside|))
    ensures at < |text| && LexAt(text, at).error == NotClosure
  {
    hide LexFrom, Writable, HeadStands, IsSoftLineBound, PartAt, Reserve;
    HeadIsRead(text, at, w);
    var open := at + w.OpenAt();
    FirstOf(text, open, w.Open());
    OpenQuote(text, open, AtValue(at, w), w.quote);
    var d := AtValue(at, w);
    NotShut(text, open + 1, inside, d.(chars := d.chars + 1, block := InValue, stack := Stack(w.quote),
                                       valBegin := open + 1));
  }
}
