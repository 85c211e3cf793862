/** What becomes of some written lines and of some texts made of them. */
module ConfigTexts {
  import opened BitArrays
  import opened ConfigLines
  import opened ConfigLexer
  import opened ConfigWritten
  import opened ConfigDefines
  import opened ConfigPass
  import opened ConfigRows

  /** A key the level does not define is reported with the number of the next line. */
  lemma Misplaced(env: Env, s: State, w: Written)
    requires Ready(s) && Writable(w) && StandsAt(s.text, s.at, w) && !Admits(Dedent(s.level, |w.lead|), Reserve(w.name))
    ensures var level := Dedent(s.level, |w.lead|);
            var error := if level.InLogger? then UndefinedGlobalKey
                         else if level.InChannel? then UndefinedChannelKey else UndefinedDeviceKey;
            OneLine(env, s) == Out(Failed(error, s.at, LineOf(s.text, s.at) + 1))
  {
    hide LexAt, OneLine, Reserve, Writable, StandsAt, AtoiAt, Macro, Variables, LineOf, SetDeviceValue,
         SetChannelValue, AddDevice, AddChannel, ValueOf, ReadOf, Written.Length;
    KeyIsRead(env, s, w);
  }

  lemma DefineWritten(env: Env, s: State, w: Written)
    requires Ready(s) && Writable(w) && StandsAt(s.text, s.at, w) && Dedent(s.level, |w.lead|) == InLogger
    requires Reserve(w.name) == Key.Define || Reserve(w.name) == Key.Variable
    ensures s.at + w.Length() <= |s.text|
    ensures var e := s.at + w.ValEnd();
            var d := if Reserve(w.name) == Key.Define then Macro(s.text, e, w.value)
                     else Variables(s.text, e, w.value, 0);
            && (d.Changed? ==>
                  OneLine(env, s)
                  == On(State(d.text, ReadOf(s.text, s.at, w).next, InLogger,
                              s.config.(values := s.config.values[Reserve(w.name) := w.value]))))
            && (d.Refused? ==> OneLine(env, s) == Out(Failed(d.error, s.at, LineOf(s.text, s.at))))
            && (d.Forever? ==> OneLine(env, s) == On(s))
  {
    hide LexAt, OneLine, Reserve, Writable, StandsAt, AtoiAt, Macro, Variables, LineOf, DeviceError;
    KeyIsRead(env, s, w);
  }

  lemma ChannelMisnumbered(env: Env, s: State, w: Written)
    requires Ready(s) && Writable(w) && StandsAt(s.text, s.at, w) && Dedent(s.level, |w.lead|) == InLogger
    requires Reserve(w.name) == ChannelKey && |s.config.channels| < MAX_CHANNEL_SIZE
    requires AtoiAt(s.text, s.at + w.ValAt()) != |s.config.channels|
    ensures OneLine(env, s) == Out(Failed(ChannelNotSequence, s.at, LineOf(s.text, s.at)))
  {
    hide LexAt, OneLine, Reserve, Writable, StandsAt, AtoiAt, Macro, Variables, LineOf, DeviceError;
    KeyIsRead(env, s, w);
  }

  lemma SliceAt(text: string, prefix: string, line: string, rest: string)
    requires text == prefix + line + rest
    ensures var e := |prefix| + |line|;
            e <= |text| && text[|prefix|..e] == line && text[e..] == rest
            && CharAt(text, e) == if rest == "" then '\0' else rest[0]
  {
  }

  lemma KeyValueIs(name: string, key: Key, value: string)
    requires Names(name, key) && IsValue(value, Bare)
    ensures Reserve(name) == key
    ensures var w := KeyValue(0, name, value);
            && Writable(w) && w.lead == "" && w.name == name && w.value == value
            && w.ValAt() == |name| + 1 && w.ValEnd() == w.Length() == |name| + 1 + |value|
  {
    hide IsKeyName, IsValue, Reserve;
  }

  lemma KeyValueStands(text: string, prefix: string, name: string, value: string, rest: string)
    requires text == prefix + name + ":" + value + rest && (rest != "" ==> IsLineBound(rest[0]))
    ensures StandsAt(text, |prefix|, KeyValue(0, name, value))
  {
    hide Written.Text;
    var w := KeyValue(0, name, value);
    var line := name + ":" + value;
    KeyValueText(0, name, value);
    assert w.lead + line == line;
    TextLength(w);
    assert text == prefix + line + rest;
    SliceAt(text, prefix, line, rest);
  }

  /** A line stands behind anything. */
  lemma Stands(text: string, prefix: string, name: string, key: Key, value: string, rest: string)
    requires text == prefix + name + ":" + value + rest && (rest != "" ==> IsLineBound(rest[0]))
    requires Names(name, key) && IsValue(value, Bare)
    ensures Reserve(name) == key
    ensures var w := KeyValue(0, name, value);
            && StandsAt(text, |prefix|, w) && Writable(w) && w.lead == "" && w.name == name && w.value == value
            && w.ValAt() == |name| + 1 && w.ValEnd() == w.Length() == |name| + 1 + |value|
  {
    hide Names, IsValue, Reserve, Writable, StandsAt, IsLineBound;
    KeyValueStands(text, prefix, name, value, rest);
    KeyValueIs(name, key, value);
  }

  // Some texts.

  lemma DigitIs(value: string)
    requires value == "0" || value == "1"
    ensures IsValue(value, Bare) && IsNumeral(value, if value == "0" then 0 else 1)
  {
    assert value[..0] == "";
    NoDigits();
  }

  lemma HotUpdateStands(text: string, end: string, rest: string)
    requires text == "hot_update:1" + end + rest && EndsLine(end, rest)
    ensures var w := KeyValue(0, "hot_update", "1");
            && StandsAt(text, 0, w) && Writable(w) && w.lead == "" && w.Length() == 12
            && text[12..12 + |end|] == end && text[12 + |end|..] == rest && Reserve("hot_update") == HotUpdate
  {
    assert text == "hot_update:1" + end + rest == "" + "hot_update:1" + (end + rest);
    assert text == "" + "hot_update" + ":" + "1" + (end + rest);
    SliceAt(text, "hot_update:1", end, rest);
    LoggerNames();
    DigitIs("1");
    hide StandsAt, Writable, Reserve, Names, IsValue;
    Stands(text, "", "hot_update", HotUpdate, "1", end + rest);
  }

  lemma HotUpdate1(env: Env, text: string, end: string, rest: string)
    requires text == "hot_update:1" + end + rest && EndsLine(end, rest)
    ensures OneLine(env, Start(text)) == On(State(text, 12 + |end|, InLogger, Config(map[HotUpdate := "1"], [])))
  {
    hide OneLine, StandsAt, Writable, Reserve, EndsLine, IsKeyName, IsValue, AfterEnd, LexAt, ReadOf;
    var w := KeyValue(0, "hot_update", "1");
    HotUpdateStands(text, end, rest);
    NextStarts(text, 0, w, end);
    WrittenIsRead(text, 0, w);
    GlobalRow(env, Start(text), w);
    assert With(Start(text).config, Global, HotUpdate, "1") == Config(map[HotUpdate := "1"], []);
  }

  /** Only a last line without a key makes a text without a channel acceptable: here it is a comment. */
  lemma NoChannelAccepted(env: Env)
    ensures Parse(env, "hot_update:1\n#") == Parsed(Config(map[HotUpdate := "1"], []))
  {
    var text := "hot_update:1\n#";
    var t := State(text, 13, InLogger, Config(map[HotUpdate := "1"], []));
    CommentLine(env, t);
    hide OneLine;
    HotUpdate1(env, text, "\n", "#");
    Then(env, Start(text), t);
    Last(env, t, Parsed(t.config));
  }

  lemma NoChannelRejected(env: Env)
    ensures Parse(env, "hot_update:1\n") == Failed(InvalidChannelSize, 13, 2)
  {
    var text := "hot_update:1\n";
    var t := State(text, 13, InLogger, Config(map[HotUpdate := "1"], []));
    NextLine(text, 0, 12);
    assert OneLine(env, t) == Out(Failed(InvalidChannelSize, 13, 2)) by { hide Ends, Interpret; }
    hide OneLine, Ends;
    HotUpdate1(env, text, "\n", "");
    Then(env, Start(text), t);
    Last(env, t, Failed(InvalidChannelSize, 13, 2));
  }

  /** A text may end with a comment. */
  lemma CommentLine(env: Env, s: State)
    requires Ready(s) && s.at + 1 == |s.text| && s.text[s.at] == '#'
    ensures OneLine(env, s) == Out(Parsed(s.config))
  {
    assert LexFrom(s.text, s.at + 1, EMPTY_LINE.(chars := 1, block := Clean)).next == |s.text|;
  }

  /** An undefined key is reported with the line behind it, any other error with its own. */
  lemma UndefinedKeyLine(env: Env)
    ensures Parse(env, "sync:1\n") == Failed(UndefinedGlobalKey, 0, 2)
  {
    hide OneLine, StandsAt, Writable, Reserve, LineOf, Names, IsValue;
    var text := "sync:1\n";
    ChannelNames();
    DigitIs("1");
    FirstNumber(text);
    Stands(text, "", "sync", Sync, "1", "\n");
    Misplaced(env, Start(text), KeyValue(0, "sync", "1"));
    Last(env, Start(text), Failed(UndefinedGlobalKey, 0, 2));
  }

  lemma OtherErrorLine(env: Env)
    ensures Parse(env, "channel:1\n") == Failed(ChannelNotSequence, 0, 1)
  {
    var text := "channel:1\n";
    FirstNumber(text);
    hide OneLine, LineOf;
    SecondChannel(env, Start(text), "", "\n");
    Last(env, Start(text), Failed(ChannelNotSequence, 0, 1));
  }

  lemma SecondChannel(env: Env, s: State, before: string, end: string)
    requires s == State(before + "channel:1" + end, |before|, InLogger, s.config) && s.config.channels == []
    requires end != "" && IsLineBound(end[0])
    ensures OneLine(env, s) == Out(Failed(ChannelNotSequence, s.at, LineOf(s.text, s.at)))
  {
    var w := KeyValue(0, "channel", "1");
    OuterNames();
    DigitIs("1");
    hide OneLine, StandsAt, Writable, Reserve, LineOf, Names, IsValue, AtoiAt, IsNumeral;
    Stands(s.text, before, "channel", ChannelKey, "1", end);
    NumeralIsRead(s.text, s.at, w, 1);
    ChannelMisnumbered(env, s, w);
  }

  lemma SecondNumber(text: string, end: string, rest: string)
    requires text == "hot_update:1" + end + rest && EndsLine(end, rest)
    ensures LineOf(text, 12 + |end|) == 2
  {
    hide LineOf, Reaches, EndsLine;
    var piece := Piece("hot_update:1", end);
    assert [piece][1..] == [];
    assert Joined([]) == "" && Closed([], rest);
    assert Joined([piece]) == "hot_update:1" + end + "" == "hot_update:1" + end;
    assert Joined([]) + rest == rest;
    assert Closed([piece], rest);
    LinesAre([piece], rest, 0);
  }

  /** However the lines are ended, the second one is line 2. */
  lemma SecondLine(env: Env, end: string)
    requires end in {"\n", "\r", "\r\n", "\n\r"}
    ensures Parse(env, "hot_update:1" + end + "channel:1" + end) == Failed(ChannelNotSequence, 12 + |end|, 2)
  {
    var before, rest := "hot_update:1" + end, "channel:1" + end;
    var text := before + rest;
    assert text == "hot_update:1" + end + rest && text == before + "channel:1" + end;
    var t := State(text, 12 + |end|, InLogger, Config(map[HotUpdate := "1"], []));
    SecondNumber(text, end, rest);
    hide OneLine, LineOf;
    HotUpdate1(env, text, end, rest);
    SecondChannel(env, t, before, end);
    Then(env, Start(text), t);
    Last(env, t, Failed(ChannelNotSequence, 12 + |end|, 2));
  }

  /** So in a text with pairs of carriage return and line feed. */
  lemma PairsAreOneEnd(env: Env)
    ensures Parse(env, "hot_update:1\r\nchannel:1\r\n") == Failed(ChannelNotSequence, 14, 2)
  {
    assert "hot_update:1\r\nchannel:1\r\n" == "hot_update:1" + "\r\n" + "channel:1" + "\r\n";
    SecondLine(env, "\r\n");
  }

  /** What a define says is in force on the next line: `Ab` there is read as `ch`, the key of a channel. */
  lemma DefineTakesEffect(env: Env)
    ensures Parse(env, "def:Ab ch\nAb:0\n") == Parsed(Config(map[Key.Define := "Ab ch"], [Channel(0, map[], [])]))
  {
    var s := Start("def:Ab ch\nAb:0\n");
    var u := State("def:Ab ch\nch:0\n", 10, InLogger, Config(map[Key.Define := "Ab ch"], []));
    var v := u.(at := 15, level := InChannel(0), config := Config(map[Key.Define := "Ab ch"], [Channel(0, map[], [])]));
    DefineAb(env);
    ChannelCh(env);
    hide OneLine, Interpret;
    Then(env, s, u);
    Then(env, u, v);
    AtEnd(env, v);
  }

  lemma DefValue(value: string)
    requires value == "Ab ch" || value == "ab ab"
    ensures IsValue(value, Bare)
  {
    assert forall k :: 0 <= k < 5 ==> !IsSoftLineBound(value[k]) by {
      assert value[0] != '#' && value[1] == 'b' && value[2] == ' ' && value[3] != '#' && value[4] != '#';
    }
  }

  lemma DefineAb(env: Env)
    ensures OneLine(env, Start("def:Ab ch\nAb:0\n"))
            == On(State("def:Ab ch\nch:0\n", 10, InLogger, Config(map[Key.Define := "Ab ch"], [])))
  {
    var text := "def:Ab ch\nAb:0\n";
    var w := KeyValue(0, "def", "Ab ch");
    AbStands(text);
    AbBecomesCh();
    hide OneLine, Macro, StandsAt, Writable, Reserve, ReadOf, Variables, LineOf, IsKeyName, IsValue;
    DefineWritten(env, Start(text), w);
  }

  lemma AbStands(text: string)
    requires text == "def:Ab ch\nAb:0\n"
    ensures var w := KeyValue(0, "def", "Ab ch");
            StandsAt(text, 0, w) && Writable(w) && Reserve("def") == Key.Define && w.lead == "" && w.ValEnd() == 9
            && ReadOf(text, 0, w).next == 10
  {
    OuterNames();
    DefValue("Ab ch");
    hide StandsAt, Writable, Reserve, Names, IsValue;
    Stands(text, "", "def", Key.Define, "Ab ch", "\nAb:0\n");
  }

  lemma FirstChannel(c: Config)
    requires c.channels == []
    ensures With(c, NewChannel, ChannelKey, "0") == Config(c.values, [Channel(0, map[], [])])
  {
  }

  lemma ChannelCh(env: Env)
    ensures OneLine(env, State("def:Ab ch\nch:0\n", 10, InLogger, Config(map[Key.Define := "Ab ch"], [])))
         == On(State("def:Ab ch\nch:0\n", 15, InChannel(0),
                     Config(map[Key.Define := "Ab ch"], [Channel(0, map[], [])])))
  {
    hide OneLine, StandsAt, Writable, Reserve, IsNumeral, ReadOf, With;
    var text, c := "def:Ab ch\nch:0\n", Config(map[Key.Define := "Ab ch"], []);
    ChStands(text);
    FirstChannel(c);
    NewChannelRow(env, State(text, 10, InLogger, c), KeyValue(0, "ch", "0"));
  }

  lemma ChStands(text: string)
    requires text == "def:Ab ch\nch:0\n"
    ensures var w := KeyValue(0, "ch", "0");
            && StandsAt(text, 10, w) && Writable(w) && w.lead == "" && Reserve("ch") == ChannelKey
            && ReadOf(text, 10, w).next == 15 && IsNumeral("0", 0)
  {
    assert Names("ch", ChannelKey);
    DigitIs("0");
    hide StandsAt, Writable, Reserve, Names, IsValue, IsNumeral;
    Stands(text, "def:Ab ch\n", "ch", ChannelKey, "0", "\n");
  }

  lemma AbBecomesCh()
    ensures Macro("def:Ab ch\nAb:0\n", 9, "Ab ch") == Changed("def:Ab ch\nch:0\n")
  {
    var text, t, o := "def:Ab ch\nAb:0\n", "def:Ab ch\nch:0\n", Order("Ab", "ch", true, true);
    AbFound();
    assert "Ab ch"[..2] == "Ab" && "Ab ch"[3..] == "ch";
    assert IndexOf("Ab ch", ' ', 0) == 2 && PastBlanks("Ab ch", 2) == 3;
    Turn(text, 9, o);
    Turn(t, 10, o);
    hide Rewrite, Find, Put, Stuck;
  }

  lemma AbFound()
    ensures var text, t, o := "def:Ab ch\nAb:0\n", "def:Ab ch\nch:0\n", Order("Ab", "ch", true, true);
            && Find(text, "Ab", 9) == 10 && AtBounds(text, o, 10) && Put(text, 10, "ch") == t && Find(t, "Ab", 10) == 15
            && !Stuck(text, 9, o) && Pad("ch", 2) == "ch"
  {
    var text, t, o := "def:Ab ch\nAb:0\n", "def:Ab ch\nch:0\n", Order("Ab", "ch", true, true);
    assert text[9] != 'A' && text[10..12] == "Ab";
    assert Find(text, "Ab", 9) == 10 by { assert OccursAt(text, "Ab", 10); assert !OccursAt(text, "Ab", 9); }
    assert Put(text, 10, "ch") == t;
    assert Find(t, "Ab", 10) == 15 by {
      forall k: nat | 10 <= k ensures !OccursAt(t, "Ab", k) {
        if k + 2 <= 15 { assert t[k..k + 2][0] == t[k] != 'A'; }
      }
    }
    assert "Ab"[0] != "ch"[0];
  }

  lemma AbStaysAb(text: string)
    requires text == "def:ab ab\nab:0\n"
    ensures Macro(text, 9, "ab ab") == Forever
  {
    var o := Order("ab", "ab", true, true);
    assert "ab ab"[..2] == "ab" && "ab ab"[3..] == "ab";
    assert IndexOf("ab ab", ' ', 0) == 2 && PastBlanks("ab ab", 2) == 3;
    assert text[10..12] == "ab";
    assert Replaceable(text, o, 10);
  }

  lemma AbAbStands(text: string)
    requires text == "def:ab ab\nab:0\n"
    ensures var w := KeyValue(0, "def", "ab ab");
            StandsAt(text, 0, w) && Writable(w) && Reserve("def") == Key.Define && w.lead == "" && w.ValEnd() == 9
  {
    OuterNames();
    DefValue("ab ab");
    hide StandsAt, Writable, Reserve, Names, IsValue;
    Stands(text, "", "def", Key.Define, "ab ab", "\nab:0\n");
  }

  /** A define of a name as itself never ends if the name is used. */
  lemma DefineForever(env: Env)
    ensures Parse(env, "def:ab ab\nab:0\n") == Endless(0)
  {
    hide OneLine, Macro, StandsAt, Writable, Reserve;
    var text := "def:ab ab\nab:0\n";
    AbStaysAb(text);
    AbAbStands(text);
    DefineWritten(env, Start(text), KeyValue(0, "def", "ab ab"));
  }

  lemma IdValue()
    ensures IsValue("id = 234", Bare)
  {
  }

  /** A variable written with blanks around its equals sign, like those of the shipped configuration, is refused. */
  lemma BlankedVariable(env: Env)
    ensures Parse(env, "var:id = 234\n") == Failed(TargetTooLong, 0, 1)
  {
    hide OneLine, Variables, StandsAt, Writable, Reserve, Names, IsValue, LineOf;
    var text := "var:id = 234\n";
    var w := KeyValue(0, "var", "id = 234");
    OuterNamesMore();
    IdValue();
    FirstNumber(text);
    Stands(text, "", "var", Key.Variable, "id = 234", "\n");
    IdRefused(text, 12);
    DefineWritten(env, Start(text), w);
    Last(env, Start(text), Failed(TargetTooLong, 0, 1));
  }

  lemma IdRefused(text: string, from: nat)
    ensures Variables(text, from, "id = 234", 0) == Refused(TargetTooLong)
  {
    assert "id = 234" == "id" + " " + "=" + " 234";
    DefinitionAt(text, from, "id = 234", 0, Definition("", "id", " ", " 234"), 8);
    assert TrimBack(" 234") == " 234";
    assert Pad(" 234", 5)[..4][0] == Pad(" 234", 5)[0] == ' ';
    assert ("${" + "id" + "}")[0] == '$';
    hide Variables, Stuck, Rewrite, Pad, TrimBack;
    assert OneVariable(text, from, "id", " 234") == Refused(TargetTooLong) by { NotItself(text, from); }
  }

  lemma NotItself(text: string, from: nat)
    ensures !Stuck(text, from, Order("${" + "id" + "}", Pad(" 234", 5), false, false))
  {
    assert Pad(" 234", 5)[..4][0] == Pad(" 234", 5)[0] == ' ';
    assert ("${" + "id" + "}")[0] == '$';
  }

  // A device and its values.

  function RowOf(tag: Tag, indent: nat, name: string, value: string): Row {
    Keyed(tag, KeyValue(indent, name, value), "\n")
  }

  lemma RowText(tag: Tag, indent: nat, name: string, value: string, line: string)
    requires |line| == indent + |name| + |value| + 2 && (forall k :: 0 <= k < indent ==> line[k] == ' ')
    requires line[indent..] == name + ":" + value + "\n"
    ensures RowOf(tag, indent, name, value).Text() == line
  {
    hide Written.Text;
    KeyValueText(indent, name, value);
    assert KeyValue(indent, name, value).lead == line[..indent];
    assert line == line[..indent] + (name + ":" + value) + "\n";
  }

  lemma BlankLead(lead: string)
    requires forall k :: 0 <= k < |lead| ==> lead[k] == ' '
    ensures AllBlank(lead)
  {
  }

  lemma RowInPlace(env: Env, at: nat, level: Level, c: Config, tag: Tag, indent: nat, name: string, key: Key,
                   value: string, rest: string)
    requires Names(name, key) && IsValue(value, Bare) && Belongs(level, tag, indent)
    requires Suits(env, at, c, tag, key, value) && EndsLine("\n", rest)
    ensures var row := RowOf(tag, indent, name, value);
            && RowInOrder(env, at, level, c, row, rest)
            && After(level, row) == NextLevel(level, tag, indent) && Read(c, row) == With(c, tag, key, value)
  {
    hide IsKeyName, IsValue, Reserve, Belongs, Suits, EndsLine, Written.Text, With;
    var w := KeyValue(indent, name, value);
    TextLength(w);
    assert |w.lead| == indent;
    BlankLead(w.lead);
  }

  /** One row in front of others. */
  lemma OneMore(env: Env, at: nat, level: Level, c: Config, tag: Tag, indent: nat, name: string, key: Key,
                value: string, line: string, rows: seq<Row>)
    requires Names(name, key) && IsValue(value, Bare) && Belongs(level, tag, indent)
    requires Suits(env, at, c, tag, key, value) && (TextOf(rows) != "" ==> TextOf(rows)[0] !in {'\n', '\r'})
    requires |line| == indent + |name| + |value| + 2 && (forall k :: 0 <= k < indent ==> line[k] == ' ')
    requires line[indent..] == name + ":" + value + "\n"
    requires Ordered(env, at + |line|, NextLevel(level, tag, indent), With(c, tag, key, value), rows)
    ensures var all := [RowOf(tag, indent, name, value)] + rows;
            && Ordered(env, at, level, c, all) && TextOf(all) == line + TextOf(rows)
            && ReadAll(c, all) == ReadAll(With(c, tag, key, value), rows)
  {
    hide RowInOrder, After, Read, Row.Text, Names, IsValue, Belongs, Suits, NextLevel, With;
    var row := RowOf(tag, indent, name, value);
    assert ([row] + rows)[1..] == rows;
    RowText(tag, indent, name, value, line);
    RowInPlace(env, at, level, c, tag, indent, name, key, value, TextOf(rows));
  }

  function OneDevice(values: map<Key, string>): Config { Config(map[], [Channel(0, map[], [Device(0, values)])]) }

  lemma DeviceLine(values: map<Key, string>, key: Key, value: string)
    ensures With(OneDevice(values), OfDevice, key, value) == OneDevice(values[key := value])
  {
    var d := Device(0, values[key := value]);
    assert [Device(0, values)][..0] + [d] == [d];
    assert OneDevice(values).channels[..0] + [Channel(0, map[], [d])] == [Channel(0, map[], [d])];
  }

  lemma FirstDevice(c: Config)
    requires c == Config(map[], [Channel(0, map[], [])])
    ensures With(c, NewDevice, DeviceKey, "0") == OneDevice(map[])
  {
    var h: Channel := Channel(0, map[], [Device(0, map[])]);
    assert [] + [Device(0, map[])] == h.devices;
    assert c.channels[..0] + [h] == [h];
  }

  lemma FileValues()
    ensures IsValue("false", Bare) && IsValue("file", Bare) && IsValue("log", Bare)
  {
  }

  lemma FileRow(env: Env, values: map<Key, string>) returns (rows: seq<Row>)
    ensures Ordered(env, 52, InDevice(0, 1), OneDevice(values), rows) && TextOf(rows) == "  file:log\n"
    ensures ReadAll(OneDevice(values), rows) == OneDevice(values[File := "log"])
  {
    hide Names, IsValue, With;
    TypeNames();
    FileValues();
    DeviceLine(values, File, "log");
    var line := "  file:log\n";
    assert line[2..] == "file" + ":" + "log" + "\n";
    OneMore(env, 52, InDevice(0, 1), OneDevice(values), OfDevice, 2, "file", File, "log", line, []);
    rows := [RowOf(OfDevice, 2, "file", "log")] + [];
    assert line + "" == line;
  }

  lemma TypeRow(env: Env, values: map<Key, string>) returns (rows: seq<Row>)
    ensures Ordered(env, 36, InDevice(0, 1), OneDevice(values), rows)
    ensures TextOf(rows) == "  out_type:file\n" + "  file:log\n"
    ensures ReadAll(OneDevice(values), rows) == OneDevice(values[OutType := "file"][File := "log"])
  {
    hide Names, IsValue, With, Ordered, TextOf, ReadAll;
    TypeNames();
    FileValues();
    DeviceLine(values, OutType, "file");
    rows := FileRow(env, values[OutType := "file"]);
    var line := "  out_type:file\n";
    assert line[2..] == "out_type" + ":" + "file" + "\n";
    OneMore(env, 36, InDevice(0, 1), OneDevice(values), OfDevice, 2, "out_type", OutType, "file", line, rows);
    rows := [RowOf(OfDevice, 2, "out_type", "file")] + rows;
  }

  lemma DisableRow(env: Env) returns (rows: seq<Row>)
    ensures Ordered(env, 20, InDevice(0, 1), OneDevice(map[]), rows)
    ensures TextOf(rows) == "  disable:false\n" + ("  out_type:file\n" + "  file:log\n")
    ensures ReadAll(OneDevice(map[]), rows) == OneDevice(map[Disable := "false", OutType := "file", File := "log"])
  {
    hide Names, IsValue, With, Ordered, TextOf, ReadAll;
    ChannelNames();
    FileValues();
    DeviceLine(map[], Disable, "false");
    var values: map<Key, string> := map[][Disable := "false"];
    rows := TypeRow(env, values);
    assert values[OutType := "file"][File := "log"] == map[Disable := "false", OutType := "file", File := "log"];
    var line := "  disable:false\n";
    assert line[2..] == "disable" + ":" + "false" + "\n";
    OneMore(env, 20, InDevice(0, 1), OneDevice(map[]), OfDevice, 2, "disable", Disable, "false", line, rows);
    rows := [RowOf(OfDevice, 2, "disable", "false")] + rows;
  }

  lemma DeviceRow(env: Env, c: Config) returns (rows: seq<Row>)
    requires c == Config(map[], [Channel(0, map[], [])])
    ensures Ordered(env, 10, InChannel(0), c, rows)
    ensures TextOf(rows) == " device:0\n" + ("  disable:false\n" + ("  out_type:file\n" + "  file:log\n"))
    ensures ReadAll(c, rows) == OneDevice(map[Disable := "false", OutType := "file", File := "log"])
  {
    hide Names, IsValue, With, Ordered, TextOf, ReadAll, IsNumeral;
    ChannelNames();
    DigitIs("0");
    FirstDevice(c);
    rows := DisableRow(env);
    var line := " device:0\n";
    assert line[1..] == "device" + ":" + "0" + "\n";
    OneMore(env, 10, InChannel(0), c, NewDevice, 1, "device", DeviceKey, "0", line, rows);
    rows := [RowOf(NewDevice, 1, "device", "0")] + rows;
  }

  lemma ChannelRow(env: Env, c: Config) returns (rows: seq<Row>)
    requires c == Config(map[], [])
    ensures Ordered(env, 0, InLogger, c, rows)
    ensures TextOf(rows)
         == "channel:0\n" + (" device:0\n" + ("  disable:false\n" + ("  out_type:file\n" + "  file:log\n")))
    ensures ReadAll(c, rows) == OneDevice(map[Disable := "false", OutType := "file", File := "log"])
  {
    hide Names, IsValue, With, Ordered, TextOf, ReadAll, IsNumeral;
    OuterNames();
    DigitIs("0");
    FirstChannel(c);
    rows := DeviceRow(env, Config(map[], [Channel(0, map[], [])]));
    var line := "channel:0\n";
    assert line[0..] == "channel" + ":" + "0" + "\n";
    OneMore(env, 0, InLogger, c, NewChannel, 0, "channel", ChannelKey, "0", line, rows);
    rows := [RowOf(NewChannel, 0, "channel", "0")] + rows;
  }

  /** A device keeps what its lines say. */
  lemma DeviceIsParsed(env: Env)
    ensures Parse(env, "channel:0\n" + (" device:0\n" + ("  disable:false\n" + ("  out_type:file\n" + "  file:log\n"))))
         == Parsed(Config(map[], [Channel(0, map[], [Device(0, map[Disable := "false", OutType := "file",
                                                                   File := "log"])])]))
  {
    hide Parse, Ordered, ReadAll, TextOf;
    var rows := ChannelRow(env, Config(map[], []));
    TextIsParsed(env, rows);
  }
}
