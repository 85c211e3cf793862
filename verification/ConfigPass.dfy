/**
  What a configuration text means: one pass over its lines that never goes back. A line belongs to the level its
  indentation gives it; a `define` or `var` line rewrites the lines behind it before they are read.
 */
module ConfigPass {
  import opened BitArrays
  import opened ConfigLines
  import opened ConfigLexer
  import opened ConfigDefines

  const MAX_CHANNEL_SIZE: nat := 2
  const MAX_DEVICE_SIZE: nat := 20

  // What is parsed: the values by key, as written, and the order of channels and devices.

  datatype Device = Device(id: int, values: map<Key, string>)
  datatype Channel = Channel(id: int, values: map<Key, string>, devices: seq<Device>)
  datatype Config = Config(values: map<Key, string>, channels: seq<Channel>)

  /**
    What the network makes of the address on the line at a position: an IP number and a port, zero if there is
    none.
   */
  datatype Env = Env(resolve: (nat, string) -> (int, int))

  function Digits(text: string, at: nat, n: nat): nat
    decreases |text| - at
  {
    if at < |text| && IsNumber(text[at]) then Digits(text, at + 1, n * 10 + (text[at] - '0') as nat) else n
  }

  function PastSpace(text: string, at: nat): nat
    decreases |text| - at
  {
    if at < |text| && (IsBlank(text[at]) || IsNewline(text[at])) then PastSpace(text, at + 1) else at
  }

  /** atoi, which may read on into the following lines. */
  function AtoiAt(text: string, at: nat): int {
    var p := PastSpace(text, at);
    if CharAt(text, p) == '-' then 0 - Digits(text, p + 1, 0) as int
    else if CharAt(text, p) == '+' then Digits(text, p + 1, 0)
    else Digits(text, p, 0)
  }

  predicate ParseBool(value: string) { value != "" && value[0] !in {'0', 'f', 'F'} }

  /** A new device is disabled: its fields are zero until a line says otherwise. */
  predicate Able(d: Device) { Disable in d.values && !ParseBool(d.values[Disable]) }

  predicate TakesUdp(d: Device) { InType in d.values && d.values[InType] != "" && d.values[InType][0] in {'u', 'U'} }

  /** Only some first letters of `out_type` name a device type. */
  predicate OutTypeKnown(value: string) {
    value != "" && value[0] in {'e', 'E', 'f', 'F', 'u', 'U', 's', 'S', 'v', 'V'}
  }

  predicate IsFilterKey(key: Key) {
    key in {Priority, Category, CategoryExtend, CategoryWlist, CategoryBlist, CategoryWmask, CategoryBmask,
            Identify, IdentifyExtend, IdentifyWlist, IdentifyBlist, IdentifyWmask, IdentifyBmask}
  }

  predicate IsDeviceKey(key: Key) {
    || IsFilterKey(key)
    || key in {InType, OutType, Disable, LimitSize, Rollback, Rolldaily, Rollhourly, FileStuffUp, Path, File, UdpAddr}
  }

  predicate IsChannelKey(key: Key) { key == DeviceKey || key == Sync || IsFilterKey(key) }

  predicate IsLoggerKey(key: Key) {
    key in {ChannelKey, Key.Define, Key.Variable, HotUpdate, LoggerName, LoggerDesc, ShmKey}
  }

  // Levels.

  datatype Level = InLogger | InChannel(indent: nat) | InDevice(outer: nat, indent: nat)

  function LastChannel(config: Config): Channel
    requires config.channels != []
  {
    config.channels[|config.channels| - 1]
  }

  function LastDevice(config: Config): Device
    requires config.channels != [] && LastChannel(config).devices != []
  {
    var devices := LastChannel(config).devices;
    devices[|devices| - 1]
  }

  predicate Placed(level: Level, config: Config) {
    match level
    case InLogger => true
    case InChannel(_) => config.channels != []
    case InDevice(_, _) => config.channels != [] && LastChannel(config).devices != []
  }

  /** The level a line belongs to: it ends every block it is not indented into. */
  function Dedent(level: Level, blank: nat): Level {
    match level
    case InDevice(outer, indent) =>
      if blank > indent then level else if blank > outer then InChannel(outer) else InLogger
    case InChannel(indent) => if blank > indent then level else InLogger
    case InLogger => level
  }

  /** The keys a level defines. */
  predicate Admits(level: Level, key: Key) {
    match level
    case InDevice(_, _) => IsDeviceKey(key)
    case InChannel(_) => IsChannelKey(key)
    case InLogger => IsLoggerKey(key)
  }

  // What a line comes to.

  function ValueOf(text: string, line: Line): string {
    if line.valBegin <= line.valEnd <= |text| then text[line.valBegin..line.valEnd] else ""
  }

  /** What a line says to device `d`; `at` is where the line starts. */
  function DeviceError(env: Env, at: nat, d: Device, key: Key, value: string): Error {
    if !IsDeviceKey(key) then UndefinedDeviceKey
    else if key == OutType && !OutTypeKnown(value) then UndefinedDeviceType
    else if key == UdpAddr && Able(d) then
      var (ip, port) := env.resolve(at, value);
      if !TakesUdp(d) && ip == 0 then IllegalAddrIp else if port == 0 then IllegalAddrPort else NoError
    else NoError
  }

  /** What a line says to a channel that has `count` devices. */
  function ChannelError(key: Key, number: int, count: nat): Error {
    if key == DeviceKey then
      if count >= MAX_DEVICE_SIZE then OutOfDeviceSize else if number != count then DeviceNotSequence else NoError
    else if IsChannelKey(key) then NoError
    else UndefinedChannelKey
  }

  function LoggerError(key: Key, number: int, count: nat): Error {
    if key == ChannelKey then
      if count >= MAX_CHANNEL_SIZE then InvalidChannelSize else if number != count then ChannelNotSequence else NoError
    else if IsLoggerKey(key) then NoError
    else UndefinedGlobalKey
  }

  /** What a line of the outermost level does to the text behind it. */
  ghost function DefineLine(text: string, line: Line): (d: Defined)
    ensures d.Refused? ==> d.error in {NotClosure, IllegalVarValue, IllegalVarName, TargetTooLong}
  {
    if line.key == Key.Define then Macro(text, line.valEnd, ValueOf(text, line))
    else if line.key == Key.Variable then Variables(text, line.valEnd, ValueOf(text, line), 0)
    else Changed(text)
  }

  ghost function LineError(env: Env, text: string, at: nat, level: Level, line: Line, config: Config): Error
    requires Placed(level, config)
  {
    var number := AtoiAt(text, line.valBegin);
    match level
    case InDevice(_, _) => DeviceError(env, at, LastDevice(config), line.key, ValueOf(text, line))
    case InChannel(_) => ChannelError(line.key, number, |LastChannel(config).devices|)
    case InLogger =>
      var error := LoggerError(line.key, number, |config.channels|);
      var d := DefineLine(text, line);
      if error == NoError && d.Refused? then d.error else error
  }

  function InLastChannel(config: Config, channel: Channel): Config
    requires config.channels != []
  {
    config.(channels := config.channels[|config.channels| - 1 := channel])
  }

  function SetDeviceValue(config: Config, key: Key, value: string): (r: Config)
    requires config.channels != [] && LastChannel(config).devices != []
    ensures r.channels != [] && LastChannel(r).devices != []
  {
    var c := LastChannel(config);
    var d := LastDevice(config);
    InLastChannel(config, c.(devices := c.devices[|c.devices| - 1 := d.(values := d.values[key := value])]))
  }

  function SetChannelValue(config: Config, key: Key, value: string): (r: Config)
    requires config.channels != []
    ensures r.channels != []
  {
    var c := LastChannel(config);
    InLastChannel(config, c.(values := c.values[key := value]))
  }

  function AddDevice(config: Config, id: int): (r: Config)
    requires config.channels != []
    ensures r.channels != [] && LastChannel(r).devices != []
  {
    var c := LastChannel(config);
    InLastChannel(config, c.(devices := c.devices + [Device(id, map[])]))
  }

  function AddChannel(config: Config, id: int): (r: Config)
    ensures r.channels != []
  {
    config.(channels := config.channels + [Channel(id, map[], [])])
  }

  // The pass.

  datatype State = State(text: string, at: nat, level: Level, config: Config)

  /** A text fails at a line, with a line number; or the pass stands still at a line for ever; or the text is parsed. */
  datatype Result = Failed(error: Error, at: nat, line: nat) | Endless(at: nat) | Parsed(config: Config)

  datatype Progress = On(s: State) | Out(result: Result)

  ghost predicate Ready(s: State) { s.at <= |s.text| && Placed(s.level, s.config) }

  /**
    The line number an error is reported with: that of its line, but for a key its level does not define that
    of the next.
   */
  function Reported(text: string, at: nat, level: Level, key: Key): nat {
    LineOf(text, at) + if Admits(level, key) then 0 else 1
  }

  /** The line number at the end of a text: the terminating NUL counts as a line end if no other is before it. */
  function LastNumber(text: string): nat
    requires text != ""
  {
    LineOf(text, |text|) + if IsNewline(text[|text| - 1]) then 0 else 1
  }

  /** Reads one line. A line that starts with a NUL, or whose rewrite never ends, is not left. */
  ghost function OneLine(env: Env, s: State): (r: Progress)
    requires Ready(s)
    ensures r.On? ==> Ready(r.s) && SameLines(s.text, r.s.text) && (r.s == s || s.at < r.s.at)
    ensures r.Out? ==> !r.result.Endless?
  {
    if s.at == |s.text| then
      Out(if s.config.channels == [] && s.text != "" then Failed(InvalidChannelSize, s.at, LastNumber(s.text))
          else Parsed(s.config))
    else
      var l := LexAt(s.text, s.at);
      if l.error != NoError then Out(Failed(l.error, s.at, LineOf(s.text, s.at)))
      else if s.text[s.at] == '\0' then On(s)
      else if NoKey(l.line) then (if l.next == |s.text| then Out(Parsed(s.config)) else On(s.(at := l.next)))
      else KeyLine(env, s, Dedent(s.level, l.line.blank), l)
  }

  /** Reads a line with a key, which belongs to level `level`. */
  ghost function KeyLine(env: Env, s: State, level: Level, l: Lexed): (r: Progress)
    requires Ready(s) && Placed(level, s.config) && s.at < |s.text| && l == LexAt(s.text, s.at) && l.error == NoError
    requires s.text[s.at] != '\0' && !NoKey(l.line)
    ensures r.On? ==> Ready(r.s) && SameLines(s.text, r.s.text) && (r.s == s || s.at < r.s.at)
    ensures r.Out? ==> !r.result.Endless?
  {
    var key, value, number := l.line.key, ValueOf(s.text, l.line), AtoiAt(s.text, l.line.valBegin);
    var error := LineError(env, s.text, s.at, level, l.line, s.config);
    if error != NoError then Out(Failed(error, s.at, Reported(s.text, s.at, level, key)))
    else
      match level
      case InDevice(_, _) => On(State(s.text, l.next, level, SetDeviceValue(s.config, key, value)))
      case InChannel(indent) =>
        if key == DeviceKey then On(State(s.text, l.next, InDevice(indent, l.line.blank), AddDevice(s.config, number)))
        else On(State(s.text, l.next, level, SetChannelValue(s.config, key, value)))
      case InLogger =>
        if key == ChannelKey then On(State(s.text, l.next, InChannel(l.line.blank), AddChannel(s.config, number)))
        else
          DefineLineKeeps(s.text, s.at);
          match DefineLine(s.text, l.line)
          case Changed(t) => On(State(t, l.next, level, s.config.(values := s.config.values[key := value])))
          case _ => On(s)
  }

  /** A define or var line leaves all line ends where they are, and everything up to the end of its value. */
  lemma DefineLineKeeps(text: string, at: nat)
    requires at < |text| && LexAt(text, at).error == NoError && !NoKey(LexAt(text, at).line)
    ensures Kept(text, LexAt(text, at).line.valEnd, DefineLine(text, LexAt(text, at).line))
  {
    var e := WholeLine(text, at);
    var line := LexAt(text, at).line;
    hide LexAt, Variables, Macro;
    var value := ValueOf(text, line);
    assert value == text[line.valBegin..line.valEnd];
    forall k | 0 <= k < |value| ensures !IsLineBound(value[k]) {
      assert value[k] == text[line.valBegin + k] == CharAt(text, line.valBegin + k);
    }
    MacroKeeps(text, line.valEnd, value);
    VariablesKeep(text, line.valEnd, value, 0);
    KeepsSelf(text, line.valEnd);
  }

  ghost function Interpret(env: Env, s: State): Result
    requires Ready(s)
    decreases |s.text| - s.at
  {
    match OneLine(env, s)
    case Out(result) => result
    case On(t) => if t == s then Endless(s.at) else Interpret(env, t)
  }

  lemma Then(env: Env, s: State, t: State)
    requires Ready(s) && OneLine(env, s) == On(t) && t != s
    ensures Ready(t) && Interpret(env, s) == Interpret(env, t)
  {
    hide OneLine;
  }

  lemma Last(env: Env, s: State, r: Result)
    requires Ready(s) && OneLine(env, s) == Out(r)
    ensures Interpret(env, s) == r
  {
    hide OneLine;
  }

  function Start(text: string): State { State(text, 0, InLogger, Config(map[], [])) }

  /** A whole text. */
  ghost function Parse(env: Env, text: string): Result { Interpret(env, Start(text)) }

  // When the pass ends.

  ghost function Pass(env: Env, s: State, n: nat): Progress
    requires Ready(s)
    decreases n
  {
    if n == 0 then On(s)
    else
      match OneLine(env, s)
      case Out(result) => Out(result)
      case On(t) => Pass(env, t, n - 1)
  }

  lemma {:induction false} PassReaches(env: Env, s: State) returns (n: nat)
    requires Ready(s) && !Interpret(env, s).Endless?
    ensures Pass(env, s, n) == Out(Interpret(env, s))
    decreases |s.text| - s.at
  {
    hide OneLine, Placed;
    match OneLine(env, s)
    case Out(_) => n := 1;
    case On(t) =>
      var m := PassReaches(env, t);
      n := m + 1;
  }

  lemma {:induction false} PassStays(env: Env, s: State, n: nat)
    requires Ready(s) && Interpret(env, s).Endless?
    ensures Pass(env, s, n).On?
    decreases n
  {
    hide OneLine, Placed;
    if n > 0 {
      assert OneLine(env, s).On?;
      PassStays(env, OneLine(env, s).s, n - 1);
    }
  }

  /** The pass comes to an end exactly if its meaning is not a standstill. */
  lemma PassEnds(env: Env, s: State)
    requires Ready(s)
    ensures (exists n: nat :: Pass(env, s, n).Out?) <==> !Interpret(env, s).Endless?
  {
    if Interpret(env, s).Endless? {
      forall n: nat ensures !Pass(env, s, n).Out? { PassStays(env, s, n); }
    } else {
      var n := PassReaches(env, s);
    }
  }

  lemma DefineKeys(text: string, line: Line)
    ensures !DefineLine(text, line).Changed? ==> line.key == Key.Define || line.key == Key.Variable
  {
  }

  /** The line at which the pass stands starts with a NUL. */
  ghost predicate AtNul(s: State) { s.at < |s.text| && s.text[s.at] == '\0' }

  /** The line at which the pass stands is a define or var line of the outermost level whose rewrite never ends. */
  ghost predicate Hangs(s: State) {
    && s.at < |s.text| && LexAt(s.text, s.at).error == NoError
    && var line := LexAt(s.text, s.at).line;
       !NoKey(line) && Dedent(s.level, line.blank) == InLogger && DefineLine(s.text, line) == Forever
  }

  /** A line is never left exactly in these two cases. */
  lemma Standstill(env: Env, s: State)
    requires Ready(s)
    ensures OneLine(env, s) == On(s) <==> AtNul(s) || Hangs(s)
  {
    if AtNul(s) { NulStops(s.text, s.at); }
    if s.at < |s.text| && LexAt(s.text, s.at).error == NoError && s.text[s.at] != '\0'
      && !NoKey(LexAt(s.text, s.at).line) {
      var l := LexAt(s.text, s.at);
      KeyStandstill(env, s, Dedent(s.level, l.line.blank), l);
    }
    hide KeyLine, DefineLine;
  }

  lemma KeyStandstill(env: Env, s: State, level: Level, l: Lexed)
    requires Ready(s) && Placed(level, s.config) && s.at < |s.text| && l == LexAt(s.text, s.at) && l.error == NoError
    requires s.text[s.at] != '\0' && !NoKey(l.line)
    ensures KeyLine(env, s, level, l) == On(s) <==> level == InLogger && DefineLine(s.text, l.line) == Forever
  {
    assert l.next > s.at;
    DefineKeys(s.text, l.line);
    hide LexAt, DefineLine, SetDeviceValue, SetChannelValue, AddDevice, AddChannel, AtoiAt, ValueOf, DeviceError,
         ChannelError;
  }

  /** For a whole pass: it does not end exactly if it comes to a line that it never leaves. */
  lemma EndlessIs(env: Env, s: State)
    requires Ready(s)
    ensures Interpret(env, s).Endless?
       <==> exists n: nat :: Pass(env, s, n).On? && (AtNul(Pass(env, s, n).s) || Hangs(Pass(env, s, n).s))
  {
    hide OneLine, AtNul, Hangs, Placed, Interpret, Pass;
    if Interpret(env, s).Endless? { var n := Comes(env, s); }
    forall n: nat | Pass(env, s, n).On? && (AtNul(Pass(env, s, n).s) || Hangs(Pass(env, s, n).s))
      ensures Interpret(env, s).Endless?
    {
      Stays(env, s, n);
    }
  }

  lemma {:induction false} Comes(env: Env, s: State) returns (n: nat)
    requires Ready(s) && Interpret(env, s).Endless?
    ensures Pass(env, s, n).On? && (AtNul(Pass(env, s, n).s) || Hangs(Pass(env, s, n).s))
    decreases |s.text| - s.at
  {
    hide OneLine, AtNul, Hangs, Placed;
    Standstill(env, s);
    if OneLine(env, s) == On(s) {
      n := 0;
    } else {
      var m := Comes(env, OneLine(env, s).s);
      n := m + 1;
    }
  }

  lemma {:induction false} Stays(env: Env, s: State, n: nat)
    requires Ready(s) && Pass(env, s, n).On? && (AtNul(Pass(env, s, n).s) || Hangs(Pass(env, s, n).s))
    ensures Interpret(env, s).Endless?
    decreases n
  {
    hide OneLine, AtNul, Hangs, Placed;
    if n == 0 {
      Standstill(env, s);
    } else {
      Stays(env, OneLine(env, s).s, n - 1);
    }
  }
}
