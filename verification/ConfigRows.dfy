/** Rows of a configuration as they are written, and what the pass makes of a text of such rows. */
module ConfigRows {
  import opened NumberWriters
  import opened BitArrays
  import opened ConfigLines
  import opened ConfigLexer
  import opened ConfigWritten
  import opened ConfigDefines
  import opened ConfigPass

  // Numbers.

  ghost predicate AllNumbers(s: string) { forall k :: 0 <= k < |s| ==> '0' <= s[k] <= '9' }

  lemma {:induction false} DigitsAre(text: string, p: nat, s: string, before: string)
    requires PartAt(text, p, s) && AllNumbers(s) && !IsNumber(CharAt(text, p + |s|))
    ensures Digits(text, p, Value(10, before)) == Value(10, before + s)
    decreases |s|
  {
    if s == "" {
      assert before + s == before;
    } else {
      FirstOf(text, p, s);
      var next := before + [s[0]];
      assert next[..|next| - 1] == before;
      assert next + s[1..] == before + s;
      DigitsAre(text, p + 1, s[1..], next);
    }
  }

  ghost predicate AllSpace(s: string) { forall k :: 0 <= k < |s| ==> IsBlank(s[k]) || s[k] in {'\n', '\r'} }

  lemma {:induction false} OverSpace(text: string, p: nat, s: string)
    requires PartAt(text, p, s) && AllSpace(s)
    requires !IsBlank(CharAt(text, p + |s|)) && CharAt(text, p + |s|) !in {'\n', '\r'}
    ensures PastSpace(text, p) == p + |s|
    decreases |s|
  {
    if s != "" {
      FirstOf(text, p, s);
      OverSpace(text, p + 1, s[1..]);
    }
  }

  /** What atoi makes of a number: blanks and line ends, a sign, and decimal digits up to the first other character. */
  lemma AtoiIs(text: string, p: nat, space: string, sign: string, digits: string)
    requires PartAt(text, p, space) && AllSpace(space) && PartAt(text, p + |space|, sign) && sign in {"", "-", "+"}
    requires PartAt(text, p + |space| + |sign|, digits) && AllNumbers(digits)
    requires !IsNumber(CharAt(text, p + |space| + |sign| + |digits|))
    requires sign == "" ==> digits != ""
    ensures AtoiAt(text, p) == if sign == "-" then -(Value(10, digits) as int) else Value(10, digits)
  {
    hide Digits, PastSpace, Value, PartAt, AllSpace, IsBlank;
    var q := p + |space|;
    if sign == "" {
      FirstOf(text, q, digits);
      NoSpace(digits[0]);
    } else {
      FirstOf(text, q, sign);
      NoSpace(sign[0]);
    }
    OverSpace(text, p, space);
    NoDigits();
    assert "" + digits == digits;
    DigitsAre(text, q + |sign|, digits, "");
  }

  lemma NoSpace(c: char)
    ensures '0' <= c <= '9' || c == '-' || c == '+' ==> !IsBlank(c)
  {
  }

  lemma NoDigits()
    ensures Value(10, "") == 0
  {
  }

  /** Text that is no number is zero. */
  lemma AtoiOfOther(text: string, p: nat)
    requires !IsNumber(CharAt(text, p)) && !IsBlank(CharAt(text, p)) && CharAt(text, p) !in {'\n', '\r', '+', '-'}
    ensures AtoiAt(text, p) == 0
  {
    assert PastSpace(text, p) == p;
  }

  // One line.

  /** What is read of a written line, and at which level. */
  lemma KeyIsRead(env: Env, s: State, w: Written)
    requires Ready(s) && Writable(w) && StandsAt(s.text, s.at, w)
    ensures s.at < |s.text| && s.at + w.Length() <= |s.text| && Placed(Dedent(s.level, |w.lead|), s.config)
    ensures var l := LexAt(s.text, s.at);
            && l == ReadOf(s.text, s.at, w) && l.next > s.at && !NoKey(l.line) && l.line.key == Reserve(w.name)
            && l.line.blank == |w.lead| && l.line.valBegin == s.at + w.ValAt() && ValueOf(s.text, l.line) == w.value
            && s.text[s.at] != '\0' && OneLine(env, s) == KeyLine(env, s, Dedent(s.level, |w.lead|), l)
  {
    WrittenIsRead(s.text, s.at, w);
    hide LexAt, Reserve, Writable, StandsAt, KeyLine, Written.Text, Written.Open, Written.Shut;
  }

  /** What a row of a document is to do. */
  datatype Tag = Global | NewChannel | OfChannel | NewDevice | OfDevice

  /** Whether a row with some indentation can do it, behind the rows before it. */
  ghost predicate Belongs(level: Level, tag: Tag, indent: nat) {
    match tag
    case Global => Outermost(level, indent)
    case NewChannel => Outermost(level, indent)
    case OfChannel => Inner(level, indent)
    case NewDevice => Inner(level, indent)
    case OfDevice => level.InDevice? && indent > level.indent
  }

  ghost predicate Outermost(level: Level, indent: nat) {
    match level
    case InLogger => true
    case InChannel(c) => indent <= c
    case InDevice(c, d) => indent <= c && indent <= d
  }

  ghost predicate Inner(level: Level, indent: nat) {
    match level
    case InLogger => false
    case InChannel(c) => indent > c
    case InDevice(c, d) => c < indent <= d
  }

  ghost function ChannelIndent(level: Level): nat {
    match level
    case InLogger => 0
    case InChannel(c) => c
    case InDevice(c, d) => c
  }

  ghost function NextLevel(level: Level, tag: Tag, indent: nat): Level {
    match tag
    case Global => InLogger
    case NewChannel => InChannel(indent)
    case OfChannel => InChannel(ChannelIndent(level))
    case NewDevice => InDevice(ChannelIndent(level), indent)
    case OfDevice => level
  }

  /** The value is the decimal number `n`. */
  ghost predicate IsNumeral(value: string, n: nat) { value != "" && AllNumbers(value) && Value(10, value) == n }

  /** The settings of the outermost level that are only kept. */
  const GLOBAL_KEYS: set<Key> := {HotUpdate, LoggerName, LoggerDesc, ShmKey}

  const FILTER_KEYS: set<Key> :=
    {Priority, Category, CategoryExtend, CategoryWlist, CategoryBlist, CategoryWmask, CategoryBmask,
     Identify, IdentifyExtend, IdentifyWlist, IdentifyBlist, IdentifyWmask, IdentifyBmask}

  const FILE_KEYS: set<Key> :=
    {InType, OutType, Disable, LimitSize, Rollback, Rolldaily, Rollhourly, FileStuffUp, Path, File, UdpAddr}

  /** A device was enabled: `disable` has a value for false. */
  ghost predicate Enabled(values: map<Key, string>) {
    Disable in values && (values[Disable] == "" || values[Disable][0] == '0' || values[Disable][0] == 'f'
                          || values[Disable][0] == 'F')
  }

  ghost predicate ReadsUdp(values: map<Key, string>) {
    InType in values && values[InType] != "" && (values[InType][0] == 'u' || values[InType][0] == 'U')
  }

  /** A value a device takes, after those it has: a known type, and for an enabled device an address it can use. */
  ghost predicate Takes(env: Env, at: nat, values: map<Key, string>, key: Key, value: string) {
    && (key == OutType ==> value != "" && value[0] in "eEfFuUsSvV")
    && (key == UdpAddr && Enabled(values) ==>
          var (ip, port) := env.resolve(at, value);
          port != 0 && (ip != 0 || ReadsUdp(values)))
  }

  /** The configuration when the row has been read. */
  ghost function With(c: Config, tag: Tag, key: Key, value: string): Config {
    var n := |c.channels|;
    match tag
    case Global => Config(c.values[key := value], c.channels)
    case NewChannel => Config(c.values, c.channels + [Channel(n, map[], [])])
    case OfChannel =>
      if n == 0 then c
      else
        var h := c.channels[n - 1];
        Config(c.values, c.channels[..n - 1] + [Channel(h.id, h.values[key := value], h.devices)])
    case NewDevice =>
      if n == 0 then c
      else
        var h := c.channels[n - 1];
        Config(c.values, c.channels[..n - 1] + [Channel(h.id, h.values, h.devices + [Device(|h.devices|, map[])])])
    case OfDevice =>
      if n == 0 || c.channels[n - 1].devices == [] then c
      else
        var h := c.channels[n - 1];
        var m := |h.devices|;
        var d := Device(h.devices[m - 1].id, h.devices[m - 1].values[key := value]);
        Config(c.values, c.channels[..n - 1] + [Channel(h.id, h.values, h.devices[..m - 1] + [d])])
  }

  /** The row is in order: its key has its place there, and its value is one the level takes. */
  ghost predicate Suits(env: Env, at: nat, c: Config, tag: Tag, key: Key, value: string) {
    var n := |c.channels|;
    match tag
    case Global => key in GLOBAL_KEYS
    case NewChannel => key == ChannelKey && n < 2 && IsNumeral(value, n)
    case OfChannel => n > 0 && (key == Sync || key in FILTER_KEYS)
    case NewDevice => n > 0 && key == DeviceKey && |c.channels[n - 1].devices| < 20
                      && IsNumeral(value, |c.channels[n - 1].devices|)
    case OfDevice =>
      && n > 0 && c.channels[n - 1].devices != [] && (key in FILE_KEYS || key in FILTER_KEYS)
      && Takes(env, at, c.channels[n - 1].devices[|c.channels[n - 1].devices| - 1].values, key, value)
  }

  lemma LevelIs(level: Level, tag: Tag, indent: nat)
    requires Belongs(level, tag, indent) && (level.InDevice? ==> level.outer < level.indent)
    ensures var to := Dedent(level, indent);
            match tag
            case Global => to == InLogger
            case NewChannel => to == InLogger
            case OfChannel => to == InChannel(ChannelIndent(level)) && indent > ChannelIndent(level)
            case NewDevice => to == InChannel(ChannelIndent(level)) && indent > ChannelIndent(level)
            case OfDevice => to == level
  {
  }

  lemma NumeralIsRead(text: string, at: nat, w: Written, n: nat)
    requires Writable(w) && StandsAt(text, at, w) && IsNumeral(w.value, n)
    ensures AtoiAt(text, at + w.ValAt()) == n
  {
    hide AtoiAt, Value, Reserve, IsKeyName;
    AllStand(text, at, w);
    BehindValue(text, at, w);
    AtoiIs(text, at + w.ValAt(), "", "", w.value);
  }

  lemma BehindValue(text: string, at: nat, w: Written)
    requires Writable(w) && StandsAt(text, at, w) && TailStands(text, at, w)
    ensures !IsNumber(CharAt(text, at + w.ValEnd()))
  {
    hide Reserve, IsKeyName, IsValue, AllDashes, IsGap, PartAt, Written.Text;
    var p := at + w.ValEnd();
    if w.after != "" {
      FirstOf(text, p, w.after);
    } else if w.quote != Bare {
      FirstOf(text, p, w.Shut());
    } else if w.tail != "" {
      FirstOf(text, p, w.tail);
    }
  }

  /** The level is one that the pass can come to. */
  ghost predicate Nested(level: Level) { level.InDevice? ==> level.outer < level.indent }

  /** What is known of a row when its line is read. */
  ghost predicate RowAt(env: Env, s: State, tag: Tag, w: Written) {
    && Ready(s) && Nested(s.level) && Writable(w) && StandsAt(s.text, s.at, w)
    && Belongs(s.level, tag, |w.lead|) && Suits(env, s.at, s.config, tag, Reserve(w.name), w.value)
  }

  lemma GlobalRow(env: Env, s: State, w: Written)
    requires RowAt(env, s, Global, w)
    ensures s.at + w.Length() <= |s.text|
            && OneLine(env, s) == On(State(s.text, ReadOf(s.text, s.at, w).next, InLogger,
                                           With(s.config, Global, Reserve(w.name), w.value)))
  {
    hide LexAt, OneLine, Reserve, Writable, StandsAt, AtoiAt, Macro, Variables, LineOf, ReadOf, Dedent, Belongs;
    KeyIsRead(env, s, w);
    LevelIs(s.level, Global, |w.lead|);
  }

  lemma NewChannelRow(env: Env, s: State, w: Written)
    requires RowAt(env, s, NewChannel, w)
    ensures s.at + w.Length() <= |s.text|
            && OneLine(env, s) == On(State(s.text, ReadOf(s.text, s.at, w).next, InChannel(|w.lead|),
                                           With(s.config, NewChannel, ChannelKey, w.value)))
  {
    hide LexAt, OneLine, Reserve, Writable, StandsAt, AtoiAt, Macro, Variables, LineOf, ReadOf, Dedent, Belongs,
         IsNumeral;
    KeyIsRead(env, s, w);
    LevelIs(s.level, NewChannel, |w.lead|);
    NumeralIsRead(s.text, s.at, w, |s.config.channels|);
  }

  lemma OfChannelRow(env: Env, s: State, w: Written)
    requires RowAt(env, s, OfChannel, w)
    ensures s.at + w.Length() <= |s.text|
            && OneLine(env, s) == On(State(s.text, ReadOf(s.text, s.at, w).next, InChannel(ChannelIndent(s.level)),
                                           With(s.config, OfChannel, Reserve(w.name), w.value)))
  {
    hide LexAt, OneLine, Reserve, Writable, StandsAt, AtoiAt, Macro, Variables, LineOf, ReadOf, Dedent, Belongs;
    KeyIsRead(env, s, w);
    LevelIs(s.level, OfChannel, |w.lead|);
    hide ChannelIndent;
    SetChannelIs(s.config, Reserve(w.name), w.value);
    hide SetChannelValue, With;
  }

  lemma SetChannelIs(c: Config, key: Key, value: string)
    requires c.channels != []
    ensures SetChannelValue(c, key, value) == With(c, OfChannel, key, value)
  {
    var n := |c.channels|;
    assert c.channels[n - 1 := c.channels[n - 1].(values := c.channels[n - 1].values[key := value])]
        == With(c, OfChannel, key, value).channels;
  }

  lemma AddDeviceIs(c: Config, value: string)
    requires c.channels != []
    ensures AddDevice(c, |LastChannel(c).devices|) == With(c, NewDevice, DeviceKey, value)
  {
    var n := |c.channels|;
    assert AddDevice(c, |LastChannel(c).devices|).channels == With(c, NewDevice, DeviceKey, value).channels;
  }

  lemma SetDeviceIs(c: Config, key: Key, value: string)
    requires c.channels != [] && LastChannel(c).devices != []
    ensures SetDeviceValue(c, key, value) == With(c, OfDevice, key, value)
  {
    var h := LastChannel(c);
    var m := |h.devices|;
    var d := h.devices[m - 1].(values := h.devices[m - 1].values[key := value]);
    assert h.devices[m - 1 := d] == h.devices[..m - 1] + [d];
    assert SetDeviceValue(c, key, value).channels == With(c, OfDevice, key, value).channels;
  }

  lemma NewDeviceRow(env: Env, s: State, w: Written)
    requires RowAt(env, s, NewDevice, w)
    ensures s.at + w.Length() <= |s.text|
            && OneLine(env, s) == On(State(s.text, ReadOf(s.text, s.at, w).next,
                                           InDevice(ChannelIndent(s.level), |w.lead|),
                                           With(s.config, NewDevice, DeviceKey, w.value)))
  {
    hide LexAt, OneLine, Reserve, Writable, StandsAt, AtoiAt, Macro, Variables, LineOf, ReadOf, Dedent, Belongs,
         IsNumeral;
    KeyIsRead(env, s, w);
    LevelIs(s.level, NewDevice, |w.lead|);
    NumeralIsRead(s.text, s.at, w, |LastChannel(s.config).devices|);
    hide ChannelIndent;
    AddDeviceIs(s.config, w.value);
    hide AddDevice, With;
  }

  /** Which device lines are errors, and which errors. */
  lemma DeviceErrors(env: Env, at: nat, d: Device, key: Key, value: string)
    ensures var e := DeviceError(env, at, d, key, value);
            var (ip, port) := env.resolve(at, value);
            var used := key == UdpAddr && Enabled(d.values);
            && (e == NoError <==> (key in FILE_KEYS || key in FILTER_KEYS) && Takes(env, at, d.values, key, value))
            && (e == UndefinedDeviceKey <==> key !in FILE_KEYS && key !in FILTER_KEYS)
            && (e == UndefinedDeviceType <==> key == OutType && (value == "" || value[0] !in "eEfFuUsSvV"))
            && (e == IllegalAddrIp <==> used && ip == 0 && !ReadsUdp(d.values))
            && (e == IllegalAddrPort <==> used && port == 0 && (ip != 0 || ReadsUdp(d.values)))
  {
    if key == OutType && value != "" {
      assert value[0] in {'e', 'E', 'f', 'F', 'u', 'U', 's', 'S', 'v', 'V'} <==> value[0] in "eEfFuUsSvV";
    }
  }

  /** The same for the lines of a channel that has `count` devices, and for those of the outermost level. */
  lemma ChannelErrors(key: Key, number: int, count: nat)
    ensures var e := ChannelError(key, number, count);
            && (e == NoError <==>
                  (key == DeviceKey && count < 20 && number == count) || key == Sync || key in FILTER_KEYS)
            && (e == OutOfDeviceSize <==> key == DeviceKey && count >= 20)
            && (e == DeviceNotSequence <==> key == DeviceKey && count < 20 && number != count)
            && (e == UndefinedChannelKey <==> key != DeviceKey && key != Sync && key !in FILTER_KEYS)
  {
  }

  lemma LoggerErrors(key: Key, number: int, count: nat)
    ensures var e, other := LoggerError(key, number, count), {Key.Define, Key.Variable} + GLOBAL_KEYS;
            && (e == NoError <==> (key == ChannelKey && count < 2 && number == count) || key in other)
            && (e == InvalidChannelSize <==> key == ChannelKey && count >= 2)
            && (e == ChannelNotSequence <==> key == ChannelKey && count < 2 && number != count)
            && (e == UndefinedGlobalKey <==> key != ChannelKey && key !in other)
  {
  }

  lemma OfDeviceRow(env: Env, s: State, w: Written)
    requires RowAt(env, s, OfDevice, w)
    ensures s.at + w.Length() <= |s.text|
            && OneLine(env, s) == On(State(s.text, ReadOf(s.text, s.at, w).next, s.level,
                                           With(s.config, OfDevice, Reserve(w.name), w.value)))
  {
    hide LexAt, OneLine, Reserve, Writable, StandsAt, AtoiAt, Macro, Variables, LineOf, ReadOf, Dedent, Takes;
    KeyIsRead(env, s, w);
    LevelIs(s.level, OfDevice, |w.lead|);
    DeviceErrors(env, s.at, LastDevice(s.config), Reserve(w.name), w.value);
    SetDeviceIs(s.config, Reserve(w.name), w.value);
    hide SetDeviceValue, With, DeviceError;
  }

  lemma RowIsRead(env: Env, s: State, tag: Tag, w: Written)
    requires RowAt(env, s, tag, w)
    ensures s.at + w.Length() <= |s.text|
            && OneLine(env, s) == On(State(s.text, ReadOf(s.text, s.at, w).next, NextLevel(s.level, tag, |w.lead|),
                                           With(s.config, tag, Reserve(w.name), w.value)))
    ensures Nested(NextLevel(s.level, tag, |w.lead|)) && ReadOf(s.text, s.at, w).next > s.at
  {
    KeyIsRead(env, s, w);
    hide OneLine, Writable, StandsAt, With, Reserve, ReadOf, Written.Length;
    match tag
    case Global => GlobalRow(env, s, w);
    case NewChannel => NewChannelRow(env, s, w);
    case OfChannel => OfChannelRow(env, s, w);
    case NewDevice => NewDeviceRow(env, s, w);
    case OfDevice => OfDeviceRow(env, s, w);
  }

  // The same, part by part.

  /** A device line sets one value of the device it is in, and leaves everything else. */
  lemma DeviceLineIs(env: Env, s: State, w: Written)
    requires RowAt(env, s, OfDevice, w)
    ensures OneLine(env, s).On?
    ensures var c, r := s.config, OneLine(env, s).s.config;
            && r.values == c.values && |r.channels| == |c.channels| > 0 && LastDevices(c) > 0
            && (forall i :: 0 <= i < |c.channels| - 1 ==> r.channels[i] == c.channels[i])
            && LastChannel(r).id == LastChannel(c).id && LastChannel(r).values == LastChannel(c).values
            && LastDevices(r) == LastDevices(c)
            && (forall i :: 0 <= i < LastDevices(c) - 1 ==> LastChannel(r).devices[i] == LastChannel(c).devices[i])
            && LastDevice(r) == Device(LastDevice(c).id, LastDevice(c).values[Reserve(w.name) := w.value])
  {
    hide OneLine, Writable, StandsAt, Reserve, ReadOf, Belongs, Takes, LexAt;
    OfDeviceRow(env, s, w);
  }

  /** A channel line sets one value of the channel it is in. */
  lemma ChannelLineIs(env: Env, s: State, w: Written)
    requires RowAt(env, s, OfChannel, w)
    ensures OneLine(env, s).On?
    ensures var c, r := s.config, OneLine(env, s).s.config;
            && r.values == c.values && |r.channels| == |c.channels| > 0
            && (forall i :: 0 <= i < |c.channels| - 1 ==> r.channels[i] == c.channels[i])
            && LastChannel(r) == Channel(LastChannel(c).id, LastChannel(c).values[Reserve(w.name) := w.value],
                                         LastChannel(c).devices)
  {
    hide OneLine, Writable, StandsAt, Reserve, ReadOf, Belongs, Takes, LexAt;
    OfChannelRow(env, s, w);
  }

  /** A new device has the next number of its channel, and no value. */
  lemma NewDeviceIs(env: Env, s: State, w: Written)
    requires RowAt(env, s, NewDevice, w)
    ensures OneLine(env, s).On?
    ensures var c, r := s.config, OneLine(env, s).s.config;
            && r.values == c.values && |r.channels| == |c.channels| > 0
            && (forall i :: 0 <= i < |c.channels| - 1 ==> r.channels[i] == c.channels[i])
            && LastChannel(r).id == LastChannel(c).id && LastChannel(r).values == LastChannel(c).values
            && LastChannel(r).devices == LastChannel(c).devices + [Device(LastDevices(c), map[])]
  {
    hide OneLine, Writable, StandsAt, Reserve, ReadOf, Belongs, Takes, LexAt, IsNumeral;
    NewDeviceRow(env, s, w);
  }

  /** A new channel has the next number, and nothing else. */
  lemma NewChannelIs(env: Env, s: State, w: Written)
    requires RowAt(env, s, NewChannel, w)
    ensures OneLine(env, s).On?
    ensures var c, r := s.config, OneLine(env, s).s.config;
            r.values == c.values && r.channels == c.channels + [Channel(|c.channels|, map[], [])]
  {
    hide OneLine, Writable, StandsAt, Reserve, ReadOf, Belongs, Takes, LexAt, IsNumeral;
    NewChannelRow(env, s, w);
  }

  function LastDevices(c: Config): nat
    requires c.channels != []
  {
    |LastChannel(c).devices|
  }

  // Rows one after the other.

  /** A line that is to do something, or one without a key; each with its line end, which only the last may lack. */
  datatype Row = Keyed(tag: Tag, w: Written, end: string) | Empty(margin: string, comment: string, end: string)
  {
    function Line(): string {
      match this
      case Keyed(_, w, _) => w.Text()
      case Empty(margin, comment, _) => margin + comment
    }

    function Text(): string { Line() + end }
  }

  function TextOf(rows: seq<Row>): string {
    if rows == [] then "" else rows[0].Text() + TextOf(rows[1..])
  }

  ghost function After(level: Level, row: Row): Level {
    match row
    case Keyed(tag, w, _) => NextLevel(level, tag, |w.lead|)
    case Empty(_, _, _) => level
  }

  ghost function Read(c: Config, row: Row): Config {
    match row
    case Keyed(tag, w, _) => With(c, tag, Reserve(w.name), w.value)
    case Empty(_, _, _) => c
  }

  /** The rows are in order, from a place in a text, a level and what has been read before. */
  ghost predicate Ordered(env: Env, at: nat, level: Level, c: Config, rows: seq<Row>)
    decreases |rows|
  {
    if rows == [] then true
    else
      var row := rows[0];
      && RowInOrder(env, at, level, c, row, TextOf(rows[1..]))
      && Ordered(env, at + |row.Text()|, After(level, row), Read(c, row), rows[1..])
  }

  ghost function ReadAll(c: Config, rows: seq<Row>): Config
    decreases |rows|
  {
    if rows == [] then c else ReadAll(Read(c, rows[0]), rows[1..])
  }

  /** What stands in the text where a row begins. */
  lemma RowStands(text: string, at: nat, row: Row, rest: string)
    requires at <= |text| && text[at..] == row.Text() + rest
    requires if row.end == "" then rest == "" else EndsLine(row.end, rest)
    ensures var e := at + |row.Line()|;
            && e + |row.end| == at + |row.Text()| <= |text| && text[at..e] == row.Line()
            && text[e + |row.end|..] == rest
            && IsLineBound(CharAt(text, e))
            && (if IsNewline(CharAt(text, e)) then AfterEnd(text, e) else e) == e + |row.end|
  {
    hide Row.Line;
    var e := at + |row.Line()|;
    assert text[at..][..|row.Line()|] == row.Line();
    assert text[at..][|row.Line()|..] == row.end + rest;
    assert text[e..] == row.end + rest;
    if row.end == "" {
      assert e == |text|;
    } else {
      assert text[e..e + |row.end|] == row.end;
      assert text[e + |row.end|..] == rest;
      WrittenEnd(text, e, row.end);
    }
  }

  /** What it takes for a row to be in order where the pass stands. */
  ghost predicate RowInOrder(env: Env, at: nat, level: Level, c: Config, row: Row, rest: string) {
    && row.Text() != "" && (if row.end == "" then rest == "" else EndsLine(row.end, rest))
    && match row
       case Keyed(tag, w, _) =>
         Writable(w) && Belongs(level, tag, |w.lead|) && Suits(env, at, c, tag, Reserve(w.name), w.value)
       case Empty(margin, comment, _) =>
         IsMargin(margin) && OnOneLine(comment) && (comment != "" ==> comment[0] == '#')
  }

  lemma KeyedStands(text: string, at: nat, row: Row, rest: string)
    requires at <= |text| && text[at..] == row.Text() + rest && row.Keyed?
    requires if row.end == "" then rest == "" else EndsLine(row.end, rest)
    ensures StandsAt(text, at, row.w) && ReadOf(text, at, row.w).next == at + |row.Text()| <= |text|
    ensures text[at + |row.Text()|..] == rest
  {
    hide EndsLine, AfterEnd, IsLineBound, IsNewline, Reserve;
    RowStands(text, at, row, rest);
    TextLength(row.w);
    hide Written.Text;
  }

  lemma KeyedStep(env: Env, s: State, row: Row, rest: string)
    requires Ready(s) && Nested(s.level) && s.text[s.at..] == row.Text() + rest && row.Keyed?
    requires RowInOrder(env, s.at, s.level, s.config, row, rest)
    ensures var t := State(s.text, s.at + |row.Text()|, After(s.level, row), Read(s.config, row));
            && OneLine(env, s) == On(t) && t != s && Ready(t) && Nested(t.level)
            && Interpret(env, s) == Interpret(env, t) && t.text[t.at..] == rest
  {
    hide Writable, Belongs, Suits, Reserve, AfterEnd, With, LexAt, OneLine, EndsLine, Interpret, NextLevel, StandsAt,
         ReadOf, Row.Text, Written.Text;
    KeyedStands(s.text, s.at, row, rest);
    RowIsRead(env, s, row.tag, row.w);
    Then(env, s, State(s.text, s.at + |row.Text()|, After(s.level, row), Read(s.config, row)));
  }

  lemma EmptyIsRead(text: string, at: nat, row: Row, rest: string)
    requires at <= |text| && text[at..] == row.Text() + rest && row.Empty? && row.Text() != ""
    requires if row.end == "" then rest == "" else EndsLine(row.end, rest)
    requires IsMargin(row.margin) && OnOneLine(row.comment) && (row.comment != "" ==> row.comment[0] == '#')
    ensures at < |text| && text[at] != '\0' && LexAt(text, at).error == NoError && NoKey(LexAt(text, at).line)
    ensures LexAt(text, at).next == at + |row.Text()|
  {
    hide LexAt, AfterEnd;
    var margin, comment := row.margin, row.comment;
    RowStands(text, at, row, rest);
    assert PartAt(text, at, margin + comment) by {
      forall k | 0 <= k < |margin + comment| ensures text[at + k] == (margin + comment)[k] {
        assert text[at + k] == text[at..at + |row.Line()|][k];
      }
    }
    PartsOf(text, at, margin, comment);
    BareLine(text, at, margin, comment);
    assert text[at] == text[at..][0] == (row.Text() + rest)[0] == row.Text()[0];
  }

  lemma BareStep(env: Env, s: State)
    requires Ready(s) && s.at < |s.text| && s.text[s.at] != '\0'
    requires LexAt(s.text, s.at).error == NoError && NoKey(LexAt(s.text, s.at).line)
    ensures var next := LexAt(s.text, s.at).next;
            OneLine(env, s) == if next == |s.text| then Out(Parsed(s.config)) else On(s.(at := next))
  {
    hide LexAt;
  }

  lemma AtEnd(env: Env, s: State)
    requires Ready(s) && s.at == |s.text| && s.config.channels != []
    ensures Interpret(env, s) == Parsed(s.config)
  {
    hide LexAt;
  }

  /** A row without a key is passed over; or the pass ends there, as it would behind it. */
  lemma EmptyStep(env: Env, s: State, row: Row, rest: string)
    requires Ready(s) && s.text[s.at..] == row.Text() + rest && row.Empty?
    requires (rest != "" || s.config.channels != []) && RowInOrder(env, s.at, s.level, s.config, row, rest)
    ensures var t := State(s.text, s.at + |row.Text()|, s.level, s.config);
            Ready(t) && Interpret(env, s) == Interpret(env, t) && t.text[t.at..] == rest
  {
    hide LexAt, EndsLine, AfterEnd, IsMargin, OnOneLine, LineOf, Interpret, OneLine, Row.Line;
    RowStands(s.text, s.at, row, rest);
    EmptyIsRead(s.text, s.at, row, rest);
    BareStep(env, s);
    var t := State(s.text, s.at + |row.Text()|, s.level, s.config);
    if t.at == |s.text| {
      AtEnd(env, t);
      Last(env, s, Parsed(s.config));
    } else {
      Then(env, s, t);
    }
  }

  lemma NoMoreRows(env: Env, at: nat, level: Level, c: Config, rows: seq<Row>)
    requires Ordered(env, at, level, c, rows) && TextOf(rows) == ""
    ensures rows == []
  {
  }

  /** All rows. */
  lemma {:induction false} RowsAreRead(env: Env, s: State, rows: seq<Row>)
    requires Ready(s) && Nested(s.level) && s.text[s.at..] == TextOf(rows)
    requires Ordered(env, s.at, s.level, s.config, rows) && ReadAll(s.config, rows).channels != []
    ensures Interpret(env, s) == Parsed(ReadAll(s.config, rows))
    decreases |rows|
  {
    hide OneLine, RowInOrder, Interpret, NextLevel, With, Row.Text;
    if rows == [] {
      AtEnd(env, s);
    } else {
      var row, rest := rows[0], rows[1..];
      var t := State(s.text, s.at + |row.Text()|, After(s.level, row), Read(s.config, row));
      if row.Keyed? {
        KeyedStep(env, s, row, TextOf(rest));
      } else {
        if TextOf(rest) == "" { NoMoreRows(env, t.at, t.level, t.config, rest); }
        EmptyStep(env, s, row, TextOf(rest));
      }
      RowsAreRead(env, t, rest);
    }
  }

  /** A text of rows in order is parsed to what its rows say. */
  lemma TextIsParsed(env: Env, rows: seq<Row>)
    requires Ordered(env, 0, InLogger, Config(map[], []), rows) && ReadAll(Config(map[], []), rows).channels != []
    ensures Parse(env, TextOf(rows)) == Parsed(ReadAll(Config(map[], []), rows))
  {
    hide Interpret, Ordered, ReadAll;
    assert TextOf(rows)[0..] == TextOf(rows);
    RowsAreRead(env, Start(TextOf(rows)), rows);
  }
}
