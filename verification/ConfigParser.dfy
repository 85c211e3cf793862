/**
  The parser of the configuration: three levels told apart by indentation, each of which reads a line and, if
  it belongs to an outer level, goes back to its start. It is proved against a single pass over the lines that
  never goes back.
 */
module ConfigParser {
  import opened ConfigLines
  import opened ConfigLexer
  import opened ConfigDefines
  import opened ConfigPass

  // What reading one line comes to, for a pass that ends.

  /** A line without a key, or none at all. */
  lemma BareStep(env: Env, s: State)
    requires Ready(s) && s.at < |s.text| && !Interpret(env, s).Endless?
    ensures s.text[s.at] != '\0'
    ensures var l := LexAt(s.text, s.at);
            && (l.error != NoError ==> Interpret(env, s) == Failed(l.error, s.at, LineOf(s.text, s.at)))
            && (l.error == NoError && NoKey(l.line) ==>
                  Interpret(env, s)
                  == if l.next == |s.text| then Parsed(s.config) else Interpret(env, s.(at := l.next)))
            && (l.error == NoError ==> l.next > s.at)
  {
    var l := LexAt(s.text, s.at);
    if s.text[s.at] == '\0' { NulStops(s.text, s.at); }
    hide LexAt, KeyLine, LineOf;
  }

  /** What the line with a key at `s` leads to, if it belongs to `level`. */
  lemma KeyStep(env: Env, s: State, level: Level)
    requires Ready(s) && s.at < |s.text| && !Interpret(env, s).Endless?
    requires LexAt(s.text, s.at).error == NoError && !NoKey(LexAt(s.text, s.at).line)
    requires Dedent(s.level, LexAt(s.text, s.at).line.blank) == level
    ensures s.text[s.at] != '\0' && Placed(level, s.config)
    ensures var p := KeyLine(env, s, level, LexAt(s.text, s.at));
            && (p.Out? ==> Interpret(env, s) == p.result)
            && (p.On? ==> p.s != s && Ready(p.s) && Interpret(env, s) == Interpret(env, p.s))
  {
    BareStep(env, s);
    hide LexAt, KeyLine;
  }

  lemma DeviceStep(env: Env, s: State, outer: nat, indent: nat)
    requires Ready(s) && s.level == InDevice(outer, indent) && s.at < |s.text| && !Interpret(env, s).Endless?
    requires LexAt(s.text, s.at).error == NoError && !NoKey(LexAt(s.text, s.at).line)
    requires LexAt(s.text, s.at).line.blank > indent
    ensures var l := LexAt(s.text, s.at);
            var value := ValueOf(s.text, l.line);
            var error := DeviceError(env, s.at, LastDevice(s.config), l.line.key, value);
            Interpret(env, s)
            == if error != NoError then Failed(error, s.at, Reported(s.text, s.at, s.level, l.line.key))
               else Interpret(env, s.(at := l.next, config := SetDeviceValue(s.config, l.line.key, value)))
  {
    KeyStep(env, s, s.level);
    hide LexAt, Interpret, OneLine, ValueOf, DeviceError, SetDeviceValue, LineOf, LastDevice;
  }

  lemma ChannelStep(env: Env, s: State, indent: nat)
    requires Ready(s) && s.level == InChannel(indent) && s.at < |s.text| && !Interpret(env, s).Endless?
    requires LexAt(s.text, s.at).error == NoError && !NoKey(LexAt(s.text, s.at).line)
    requires LexAt(s.text, s.at).line.blank > indent
    ensures var l := LexAt(s.text, s.at);
            var number := AtoiAt(s.text, l.line.valBegin);
            var error := ChannelError(l.line.key, number, |LastChannel(s.config).devices|);
            Interpret(env, s)
            == if error != NoError then Failed(error, s.at, Reported(s.text, s.at, s.level, l.line.key))
               else if l.line.key == DeviceKey then
                 Interpret(env, State(s.text, l.next, InDevice(indent, l.line.blank), AddDevice(s.config, number)))
               else
                 Interpret(env, s.(at := l.next,
                                   config := SetChannelValue(s.config, l.line.key, ValueOf(s.text, l.line))))
  {
    KeyStep(env, s, s.level);
    hide LexAt, Interpret, OneLine, ValueOf, ChannelError, SetChannelValue, AddDevice, LineOf, AtoiAt;
  }

  /** A line of the outermost level: an error, the next channel, or a value, before which the text may be rewritten. */
  lemma LoggerStep(env: Env, s: State)
    requires Ready(s) && s.level == InLogger && s.at < |s.text| && !Interpret(env, s).Endless?
    requires LexAt(s.text, s.at).error == NoError && !NoKey(LexAt(s.text, s.at).line)
    ensures var l := LexAt(s.text, s.at);
            var key, number := l.line.key, AtoiAt(s.text, l.line.valBegin);
            var error, d := LoggerError(key, number, |s.config.channels|), DefineLine(s.text, l.line);
            var config := s.config.(values := s.config.values[key := ValueOf(s.text, l.line)]);
            if error != NoError then Interpret(env, s) == Failed(error, s.at, Reported(s.text, s.at, s.level, key))
            else if key == ChannelKey then
              Interpret(env, s) == Interpret(env, State(s.text, l.next, InChannel(l.line.blank),
                                                        AddChannel(s.config, number)))
            else
              && !d.Forever?
              && (d.Refused? ==> Interpret(env, s) == Failed(d.error, s.at, LineOf(s.text, s.at)))
              && (d.Changed? ==> Keeps(s.text, d.text, l.line.valEnd)
                                 && Interpret(env, s) == Interpret(env, State(d.text, l.next, InLogger, config)))
  {
    KeyStep(env, s, s.level);
    DefineLineKeeps(s.text, s.at);
    hide LexAt, Interpret, OneLine, ValueOf, AddChannel, LineOf, AtoiAt, Macro, Variables;
  }

  lemma AtTextEnd(env: Env, s: State)
    requires Ready(s) && s.at == |s.text|
    ensures s.config.channels != [] || s.text == "" ==> Interpret(env, s) == Parsed(s.config)
    ensures s.config.channels == [] && s.text != "" ==>
              Interpret(env, s) == Failed(InvalidChannelSize, s.at, LastNumber(s.text))
  {
  }

  // Going back.

  /** Where a line belongs does not depend on which of the levels it ends looks at it. */
  lemma SameLine(env: Env, s: State, t: State)
    requires Ready(s) && Ready(t) && t == s.(level := t.level)
    requires s.at < |s.text| ==> LexAt(s.text, s.at).error == NoError && !NoKey(LexAt(s.text, s.at).line)
                                 && Dedent(s.level, LexAt(s.text, s.at).line.blank)
                                      == Dedent(t.level, LexAt(s.text, s.at).line.blank)
    ensures Interpret(env, s) == Interpret(env, t)
  {
    if s.at < |s.text| && s.text[s.at] != '\0' {
      var l := LexAt(s.text, s.at);
      SameKeyLine(env, s, t, Dedent(s.level, l.line.blank), l);
    }
    hide LexAt, KeyLine;
  }

  lemma SameKeyLine(env: Env, s: State, t: State, level: Level, l: Lexed)
    requires Ready(s) && Ready(t) && t == s.(level := t.level) && Placed(level, s.config) && s.at < |s.text|
    requires l == LexAt(s.text, s.at) && l.error == NoError && s.text[s.at] != '\0' && !NoKey(l.line)
    ensures var p, q := KeyLine(env, s, level, l), KeyLine(env, t, level, l); q == p || (p == On(s) && q == On(t))
    ensures KeyLine(env, s, level, l) == On(t) ==> t == s
  {
    assert l.next > s.at;
    hide LexAt, LineError, DefineLine, AtoiAt, ValueOf, SetDeviceValue, SetChannelValue, AddDevice, AddChannel, LineOf;
  }

  /** A line that does not belong to the inner level is read the same at the outer one. */
  lemma DedentOnce(env: Env, s: State, outer: nat, indent: nat)
    requires Ready(s) && s.level == InDevice(outer, indent)
    requires s.at < |s.text| ==> LexAt(s.text, s.at).error == NoError && !NoKey(LexAt(s.text, s.at).line)
                                 && LexAt(s.text, s.at).line.blank <= indent
    ensures Interpret(env, s) == Interpret(env, s.(level := InChannel(outer)))
  {
    hide Interpret, LexAt;
    SameLine(env, s, s.(level := InChannel(outer)));
  }

  lemma LeaveChannel(env: Env, s: State, indent: nat)
    requires Ready(s) && s.level == InChannel(indent)
    requires s.at < |s.text| ==> LexAt(s.text, s.at).error == NoError && !NoKey(LexAt(s.text, s.at).line)
                                 && LexAt(s.text, s.at).line.blank <= indent
    ensures Interpret(env, s) == Interpret(env, s.(level := InLogger))
  {
    hide Interpret, LexAt;
    SameLine(env, s, s.(level := InLogger));
  }

  class Parser {
    const env: Env
    var text: string
    var current: nat
    var lineNo: int
    var line: Line
    var config: Config
    ghost var stopped: bool      // the lexer has met the end of the text, or a NUL in it
    ghost var failedAt: nat      // where the line an error was found in starts

    /** The line number is that of the current position, and one more where the lexer stopped. */
    ghost predicate Tracks()
      reads this
    {
      && current <= |text| && Reaches(text, 0, current) && (stopped ==> CharAt(text, current) == '\0')
      && lineNo == LineOf(text, current) + (if stopped then 1 else 0)
      && (current == |text| && text != "" ==> (stopped <==> !IsNewline(text[|text| - 1])))
    }

    /** Where the pass stands, if the rest is read at `level`. */
    ghost function At(level: Level): State
      reads this
    {
      State(text, current, level, config)
    }

    /** The rest of the pass, which has an end. */
    ghost predicate Ends(level: Level)
      reads this
    {
      Tracks() && Placed(level, config) && !Interpret(env, At(level)).Endless?
    }

    ghost predicate Fails(r: Result, error: Error)
      reads this
    {
      lineNo >= 0 && r == Failed(error, failedAt, lineNo)
    }

    /** The rest of the pass came to an error, which is the one returned, or went on to where the parser is. */
    ghost predicate Went(before: Result, error: Error, level: Level)
      requires error == NoError ==> Ready(At(level))
      reads this
    {
      if error == NoError then before == Interpret(env, At(level)) else Fails(before, error)
    }

    constructor (env: Env, text: string)
      ensures Tracks() && current == 0 && lineNo == 1 && config == Config(map[], [])
      ensures this.env == env && this.text == text
    {
      this.env, this.text := env, text;
      current, lineNo, line, config, stopped, failedAt := 0, 1, EMPTY_LINE, Config(map[], []), false, 0;
    }

    /** Reads one line. */
    method Lex() returns (error: Error)
      requires Tracks() && (current < |text| ==> text[current] != '\0')
      modifies `current, `lineNo, `line, `stopped
      ensures old(current) == |text| ==>
                error == NoError && line == EMPTY_LINE && current == old(current) && lineNo == old(lineNo)
                  && stopped == old(stopped)
      ensures old(current) < |text| ==>
                && error == LexAt(text, old(current)).error && old(!stopped)
                && (error == NoError ==>
                      && line == LexAt(text, old(current)).line && current == LexAt(text, old(current)).next
                      && lineNo == LineOf(text, old(current)) + 1)
      ensures error == NoError ==> Tracks()
      ensures error != NoError ==> lineNo == old(lineNo)
    {
      line := EMPTY_LINE;
      if current >= |text| {
        return NoError;
      }
      ghost var start := current;
      assert Unbroken(text, start, start);
      hide LexAt, LexFrom, LineOf, Reaches, Unbroken, AfterEnd;
      assert LexAt(text, start) == LexFrom(text, start, EMPTY_LINE) by { LexAtIs(text, start); }
      var done := false;
      error := NoError;
      while !done
        invariant start <= current <= |text| && start < |text| && text[start] != '\0'
        invariant !done ==> Unbroken(text, start, current) && lineNo == old(lineNo) && stopped == old(stopped)
                            && error == NoError
        invariant !done ==> LexFrom(text, current, line) == LexAt(text, start)
        invariant done ==> error == LexAt(text, start).error
        invariant done && error == NoError ==>
                    line == LexAt(text, start).line && current == LexAt(text, start).next && Tracks()
                      && lineNo == old(lineNo) + 1
        invariant done && error != NoError ==> lineNo == old(lineNo)
        decreases |text| - current, !done
      {
        done, error := LexChar(start);
      }
    }

    /** Reads one character. */
    method LexChar(ghost start: nat) returns (done: bool, error: Error)
      requires start <= current <= |text| && Reaches(text, 0, start) && Unbroken(text, start, current)
               && start < |text| && text[start] != '\0'
      requires lineNo == LineOf(text, start) && !stopped
      modifies `current, `lineNo, `line, `stopped
      ensures old(current) <= current <= |text|
      ensures var r := LexFrom(text, old(current), old(line));
              if !done then
                && error == NoError && current == old(current) + 1 && Unbroken(text, start, current)
                && r == LexFrom(text, current, line) && lineNo == old(lineNo) && !stopped
              else
                && error == r.error && (error == NoError ==>
                                        line == r.line && current == r.next && Tracks() && lineNo == old(lineNo) + 1)
                && (error != NoError ==> lineNo == old(lineNo) && !stopped)
    {
      hide Close, Advance, TrimEnd, LineOf, Reaches, Unbroken, AfterEnd;
      done, error := false, NoError;
      var ch := CharAt(text, current);
      ghost var was := line;
      UnbrokenOn(text, start, current);
      line := line.(chars := line.chars + 1);
      if line.block == Clean && !IsLineBound(ch) {
        current := current + 1;
        return;
      }
      if IsSoftLineBound(ch) {
        done, error := LexBound(start, was);
        return;
      }
      var next := Advance(line, ch, current + 1, text);
      if next.Fail? {
        return true, next.error;
      }
      line := next.line;
      current := current + 1;
    }

    /** A line bound or a comment: the line is done, unless it goes on with the comment. */
    method LexBound(ghost start: nat, ghost was: Line) returns (done: bool, error: Error)
      requires start <= current <= |text| && Reaches(text, 0, start) && Unbroken(text, start, current)
               && start < |text| && text[start] != '\0'
      requires lineNo == LineOf(text, start) && !stopped && line == was.(chars := was.chars + 1)
               && IsSoftLineBound(CharAt(text, current))
      requires was.block == Clean ==> IsLineBound(CharAt(text, current))
      modifies `current, `lineNo, `line, `stopped
      ensures var r := LexFrom(text, old(current), was);
              if !done then
                && error == NoError && current == old(current) + 1 && Unbroken(text, start, current)
                && r == LexFrom(text, current, line) && lineNo == old(lineNo) && !stopped
              else
                && error == r.error && (error == NoError ==>
                                        line == r.line && current == r.next && Tracks() && lineNo == old(lineNo) + 1)
                && (error != NoError ==> lineNo == old(lineNo) && !stopped)
      ensures old(current) <= current <= |text|
    {
      hide TrimEnd, LineOf, Reaches, Unbroken, AfterEnd;
      UnbrokenOn(text, start, current);
      done, error := true, NoError;
      var ch := CharAt(text, current);
      var closed := Close(line, current + 1);
      hide Close;
      if closed.Fail? {
        error := closed.error;
        return;
      }
      line := closed.line.(valEnd := TrimEnd(text, closed.line.valBegin, closed.line.valEnd));
      if IsNewline(ch) {
        NextLine(text, start, current);
        AfterEndIs(text, current);
        current := AfterEnd(text, current);
        lineNo := lineNo + 1;
        return;
      }
      if ch == '\0' {
        LastLine(text, start, current);
        UnbrokenEnd(text, start, current);
        lineNo := lineNo + 1;
        stopped := true;
        return;
      }
      line := line.(block := Clean);
      current := current + 1;
      done := false;
    }

    /** Goes back to the start of the line just read. */
    method GoBack(start: nat)
      requires start < |text| && Reaches(text, 0, start) && lineNo == LineOf(text, start) + 1
      modifies `current, `lineNo, `stopped
      ensures Tracks() && current == start && lineNo == LineOf(text, start)
    {
      current := start;
      lineNo := lineNo - 1;
      stopped := false;
    }

    /** Reads the lines of the last device of the last channel. */
    method ParseDevice(indent: nat, ghost outer: nat) returns (error: Error)
      requires Ends(InDevice(outer, indent))
      modifies `current, `lineNo, `line, `config, `stopped, `failedAt
      ensures error == NoError ==> Ends(InChannel(outer)) && old(current) <= current
      ensures Went(old(Interpret(env, At(InDevice(outer, indent)))), error, InChannel(outer))
    {
      hide LexAt, LineOf, Reaches, Interpret, DeviceError, SetDeviceValue, LastDevice;
      error := NoError;
      ghost var level, all := InDevice(outer, indent), Interpret(env, At(InDevice(outer, indent)));
      var more := true;
      while more
        invariant Ends(level) && old(current) <= current && all == Interpret(env, At(level))
        invariant error == NoError && (!more ==> current == |text|)
        decreases |text| - current, more
      {
        if current == |text| { AtTextEnd(env, At(level)); AtTextEnd(env, At(InChannel(outer))); }
        var start := current;
        ghost var s := At(level);
        if start < |text| { BareStep(env, s); }
        error := Lex();
        if error != NoError {
          current := start;
          failedAt := start;
          return;
        }
        if NoKey(line) {
          if current >= |text| {
            AtTextEnd(env, At(InChannel(outer)));
            return;
          }
          continue;
        }
        if line.blank <= indent {
          GoBack(start);
          DedentOnce(env, s, outer, indent);
          return;
        }
        DeviceStep(env, s, outer, indent);
        error := DeviceLine(start, outer, indent);
        if error != NoError {
          return;
        }
        more := current < |text|;
      }
      AtTextEnd(env, At(level));
      AtTextEnd(env, At(InChannel(outer)));
    }

    /** One line of a device. */
    method DeviceLine(start: nat, ghost outer: nat, ghost indent: nat) returns (error: Error)
      requires Tracks() && start < |text| && Reaches(text, 0, start) && lineNo == LineOf(text, start) + 1
      requires config.channels != [] && LastChannel(config).devices != []
      modifies `current, `lineNo, `config, `stopped, `failedAt
      ensures error == DeviceError(env, start, LastDevice(old(config)), line.key, ValueOf(text, line))
      ensures error == NoError ==> Tracks() && current == old(current)
                                   && config == SetDeviceValue(old(config), line.key, ValueOf(text, line))
      ensures error != NoError ==> failedAt == start
                                   && lineNo == Reported(text, start, InDevice(outer, indent), line.key)
    {
      hide LineOf, Reaches, ValueOf, SetDeviceValue, LastDevice, Able, TakesUdp, IsDeviceKey, OutTypeKnown, CharAt;
      failedAt := start;
      var value := ValueOf(text, line);
      if !IsDeviceKey(line.key) {
        return UndefinedDeviceKey;
      }
      if line.key == OutType && !OutTypeKnown(value) {
        GoBack(start);
        return UndefinedDeviceType;
      }
      if line.key == UdpAddr {
        var device := LastDevice(config);
        var (ip, port) := env.resolve(start, value);
        if Able(device) {
          if !TakesUdp(device) && ip == 0 {
            GoBack(start);
            return IllegalAddrIp;
          }
          if port == 0 {
            GoBack(start);
            return IllegalAddrPort;
          }
        }
      }
      config := SetDeviceValue(config, line.key, value);
      return NoError;
    }

    /** Reads the lines of the last channel. */
    method ParseChannel(indent: nat) returns (error: Error)
      requires Ends(InChannel(indent))
      modifies `current, `lineNo, `line, `config, `stopped, `failedAt
      ensures error == NoError ==> Ends(InLogger) && old(current) <= current && config.channels != []
      ensures Went(old(Interpret(env, At(InChannel(indent)))), error, InLogger)
    {
      hide LexAt, LineOf, Reaches, Interpret, ChannelError, SetChannelValue, AddDevice, AtoiAt, LastChannel;
      error := NoError;
      ghost var level, all := InChannel(indent), Interpret(env, At(InChannel(indent)));
      var more := true;
      while more
        invariant Ends(level) && old(current) <= current && all == Interpret(env, At(level))
        invariant error == NoError && (!more ==> current == |text|)
        decreases |text| - current, more
      {
        if current == |text| { AtTextEnd(env, At(level)); AtTextEnd(env, At(InLogger)); }
        var start := current;
        ghost var s := At(level);
        if start < |text| { BareStep(env, s); }
        error := Lex();
        if error != NoError {
          current := start;
          failedAt := start;
          return;
        }
        if NoKey(line) {
          if current >= |text| {
            AtTextEnd(env, At(InLogger));
            return;
          }
          continue;
        }
        if line.blank <= indent {
          GoBack(start);
          LeaveChannel(env, s, indent);
          return;
        }
        ChannelStep(env, s, indent);
        error := ChannelLine(start, indent);
        if error != NoError {
          return;
        }
        if line.key == DeviceKey {
          error := ParseDevice(line.blank, indent);
          if error != NoError {
            return;
          }
        }
        more := current < |text|;
      }
      AtTextEnd(env, At(level));
      AtTextEnd(env, At(InLogger));
    }

    /** One line of a channel; a device line opens the next device. */
    method ChannelLine(start: nat, ghost indent: nat) returns (error: Error)
      requires Tracks() && start < |text| && Reaches(text, 0, start) && lineNo == LineOf(text, start) + 1
      requires config.channels != []
      modifies `current, `lineNo, `config, `stopped, `failedAt
      ensures error == ChannelError(line.key, AtoiAt(text, line.valBegin), |LastChannel(old(config)).devices|)
      ensures error == NoError ==> Tracks() && current == old(current)
      ensures error == NoError ==>
                config == (if line.key == DeviceKey then AddDevice(old(config), AtoiAt(text, line.valBegin))
                           else SetChannelValue(old(config), line.key, ValueOf(text, line)))
      ensures error != NoError ==> failedAt == start && lineNo == Reported(text, start, InChannel(indent), line.key)
    {
      hide LineOf, Reaches, AtoiAt;
      failedAt := start;
      if line.key == DeviceKey {
        var id := AtoiAt(text, line.valBegin);
        if |LastChannel(config).devices| >= MAX_DEVICE_SIZE {
          GoBack(start);
          return OutOfDeviceSize;
        }
        if id != |LastChannel(config).devices| {
          GoBack(start);
          return DeviceNotSequence;
        }
        config := AddDevice(config, id);
        return NoError;
      }
      if !IsChannelKey(line.key) {
        return UndefinedChannelKey;
      }
      config := SetChannelValue(config, line.key, ValueOf(text, line));
      return NoError;
    }

    /** A channel line of the outermost level. */
    method OpenChannel(start: nat) returns (error: Error)
      requires Tracks() && start < |text| && Reaches(text, 0, start) && lineNo == LineOf(text, start) + 1
      modifies `current, `lineNo, `config, `stopped
      ensures error == LoggerError(ChannelKey, AtoiAt(text, line.valBegin), |old(config).channels|)
      ensures error == NoError ==> Tracks() && current == old(current)
                                   && config == AddChannel(old(config), AtoiAt(text, line.valBegin))
      ensures error != NoError ==> lineNo == LineOf(text, start)
    {
      hide LineOf, Reaches, AtoiAt;
      var id := AtoiAt(text, line.valBegin);
      if |config.channels| >= MAX_CHANNEL_SIZE {
        GoBack(start);
        return InvalidChannelSize;
      }
      if |config.channels| != id {
        GoBack(start);
        return ChannelNotSequence;
      }
      config := AddChannel(config, id);
      return NoError;
    }

    /** One line of the outermost level; a channel line opens the next channel, and a definition rewrites the text. */
    method LoggerLine(start: nat) returns (error: Error)
      requires Tracks() && start < |text| && Reaches(text, 0, start) && lineNo == LineOf(text, start) + 1
               && current > start
      requires LexAt(text, start).error == NoError && line == LexAt(text, start).line
               && current == LexAt(text, start).next && !NoKey(line)
      requires !Interpret(env, State(text, start, InLogger, config)).Endless?
      modifies `text, `current, `lineNo, `config, `stopped, `failedAt
      ensures |text| == |old(text)|
      ensures error == NoError ==> Tracks() && current == old(current)
                                   && (line.key == ChannelKey ==> config.channels != [])
      ensures Went(old(Interpret(env, State(text, start, InLogger, config))), error,
                   if line.key == ChannelKey then InChannel(line.blank) else InLogger)
    {
      hide LexAt, LineOf, Reaches, Interpret, AtoiAt, ValueOf, Macro, Variables, CharAt, IsNewline, AddChannel,
           Keeps, Dedent;
      LoggerStep(env, State(text, start, InLogger, config));
      failedAt := start;
      if line.key == ChannelKey {
        error := OpenChannel(start);
      } else {
        error := ValueLine(start);
      }
    }

    /** Any other line of the outermost level. */
    method ValueLine(start: nat) returns (error: Error)
      requires Tracks() && start < |text| && Reaches(text, 0, start) && lineNo == LineOf(text, start) + 1
      requires line.key != ChannelKey && (IsLoggerKey(line.key) ==> !DefineLine(text, line).Forever?)
      requires IsLoggerKey(line.key) && DefineLine(text, line).Changed? ==>
                 Keeps(text, DefineLine(text, line).text, line.valEnd)
      modifies `text, `current, `lineNo, `config, `stopped
      ensures |text| == |old(text)|
      ensures var d := DefineLine(old(text), line);
              && error == (if !IsLoggerKey(line.key) then UndefinedGlobalKey else if d.Refused? then d.error
                           else NoError)
              && (error == NoError ==>
                    && d == Changed(text) && Tracks() && current == old(current)
                    && config == old(config).(values := old(config).values[line.key := ValueOf(old(text), line)]))
      ensures error != NoError ==> lineNo == Reported(old(text), start, InLogger, line.key)
    {
      hide LineOf, Reaches, ValueOf, Macro, Variables, CharAt, IsNewline, Keeps;
      error := NoError;
      var value := ValueOf(text, line);
      if line.key == Key.Define || line.key == Key.Variable {
        error := Predefine(start, value);
      } else if !IsLoggerKey(line.key) {
        error := UndefinedGlobalKey;
      }
      if error == NoError {
        config := config.(values := config.values[line.key := value]);
      }
    }

    /** Rewrites the text behind the value of a define or var line. */
    method Predefine(start: nat, value: string) returns (error: Error)
      requires Tracks() && start < |text| && Reaches(text, 0, start) && lineNo == LineOf(text, start) + 1
      requires line.key == Key.Define || line.key == Key.Variable
      requires value == ValueOf(text, line) && !DefineLine(text, line).Forever?
      requires DefineLine(text, line).Changed? ==> Keeps(text, DefineLine(text, line).text, line.valEnd)
      modifies `text, `current, `lineNo, `stopped
      ensures |text| == |old(text)|
      ensures DefineLine(old(text), line) == if error == NoError then Changed(text) else Refused(error)
      ensures if error == NoError then Tracks() && current == old(current) && lineNo == old(lineNo)
              else lineNo == LineOf(old(text), start)
    {
      hide ValueOf, Macro, Variables, LineOf, Reaches;
      var r;
      if line.key == Key.Define {
        error, r := DefineMacro(text, line.valEnd, value);
      } else {
        error, r := DefineVariables(text, line.valEnd, value);
      }
      if error != NoError {
        GoBack(start);
      } else {
        SameTracking(text, r, current);
      }
      text := r;
    }

    /** Reads a whole text, if the pass over it has an end: the result is that of the pass. */
    method ParseLogger() returns (error: Error)
      requires Tracks() && current == 0 && config == Config(map[], []) && !Parse(env, text).Endless?
      modifies this
      ensures if error == NoError then Parse(env, old(text)) == Parsed(config) else Fails(Parse(env, old(text)), error)
      ensures |text| == |old(text)| && (error == NoError ==> Tracks() && current == |text|)
    {
      hide LexAt, LineOf, Reaches, Interpret, LoggerError, AddChannel, AtoiAt;
      error := NoError;
      ghost var all := Parse(env, text);
      assert all == Interpret(env, At(InLogger));
      var more := true;
      while more
        invariant Tracks() && |text| == |old(text)| && !all.Endless? && all == Interpret(env, At(InLogger))
        invariant error == NoError && (!more ==> current == |text| && text != "")
        invariant more ==> current < |text| || (text == "" && config.channels == [])
        decreases |text| - current, more
      {
        var start := current;
        ghost var s := At(InLogger);
        if start < |text| { BareStep(env, s); } else { AtTextEnd(env, s); }
        error := Lex();
        if error != NoError {
          current := start;
          failedAt := start;
          return;
        }
        if NoKey(line) {
          if current >= |text| {
            return;
          }
          continue;
        }
        error := LoggerLine(start);
        if error != NoError {
          return;
        }
        if line.key == ChannelKey {
          error := ParseChannel(line.blank);
          if error != NoError {
            return;
          }
        }
        more := current < |text|;
      }
      AtTextEnd(env, At(InLogger));
      if config.channels == [] {
        failedAt := |text|;
        return InvalidChannelSize;
      }
      return NoError;
    }
  }

  lemma UnbrokenOn(text: string, from: nat, at: nat)
    requires Unbroken(text, from, at) && at <= |text|
    ensures !IsLineBound(CharAt(text, at)) ==> Unbroken(text, from, at + 1) && at < |text|
    ensures Plain(text, from, at)
  {
  }

  lemma UnbrokenEnd(text: string, from: nat, at: nat)
    requires Unbroken(text, from, at) && from < |text| && from <= at <= |text| && CharAt(text, at) == '\0'
             && text[from] != '\0'
    ensures at == |text| ==> !IsNewline(text[|text| - 1])
  {
    if at == |text| { assert !IsLineBound(CharAt(text, |text| - 1)); }
  }

  lemma AfterEndIs(text: string, at: nat)
    requires at <= |text| && IsNewline(CharAt(text, at))
    ensures at < AfterEnd(text, at) <= |text| && (AfterEnd(text, at) == |text| ==> IsNewline(text[|text| - 1]))
  {
  }

  lemma LexAtIs(text: string, at: nat)
    requires at < |text|
    ensures LexAt(text, at) == LexFrom(text, at, EMPTY_LINE)
  {
  }

  /** A rewrite changes no line number. */
  lemma SameTracking(text: string, r: string, at: nat)
    requires SameLines(text, r) && at <= |text|
    ensures LineOf(r, at) == LineOf(text, at) && (Reaches(r, 0, at) <==> Reaches(text, 0, at))
    ensures CharAt(text, at) == '\0' ==> CharAt(r, at) == '\0'
    ensures text != "" ==> (IsNewline(r[|r| - 1]) <==> IsNewline(text[|text| - 1]))
  {
    SameLineNumbers(text, r, 0, at);
    hide Ends, Reaches;
  }
}
