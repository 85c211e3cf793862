/** What the single pass guarantees for every text, and what becomes of some texts. */
module ConfigResults {
  import opened ConfigLines
  import opened ConfigLexer
  import opened ConfigPass

  // What is parsed is in order.

  /** Channels and devices are numbered from zero in the order they are written, and there are not too many. */
  ghost predicate ChannelInOrder(c: Channel) {
    |c.devices| <= MAX_DEVICE_SIZE && forall i :: 0 <= i < |c.devices| ==> c.devices[i].id == i
  }

  ghost predicate InOrder(config: Config) {
    && |config.channels| <= MAX_CHANNEL_SIZE
    && forall i :: 0 <= i < |config.channels| ==> config.channels[i].id == i && ChannelInOrder(config.channels[i])
  }

  lemma SetInLast(config: Config, channel: Channel)
    requires InOrder(config) && config.channels != [] && channel.id == LastChannel(config).id && ChannelInOrder(channel)
    ensures InOrder(InLastChannel(config, channel))
  {
  }

  lemma KeyLineInOrder(env: Env, s: State, level: Level, l: Lexed)
    requires Ready(s) && Placed(level, s.config) && s.at < |s.text| && l == LexAt(s.text, s.at) && l.error == NoError
    requires s.text[s.at] != '\0' && !NoKey(l.line) && InOrder(s.config)
    ensures var r := KeyLine(env, s, level, l); if r.On? then InOrder(r.s.config) else !r.result.Parsed?
  {
    hide LexAt, AtoiAt, ValueOf, DeviceError, DefineLine;
    var key, value, number := l.line.key, ValueOf(s.text, l.line), AtoiAt(s.text, l.line.valBegin);
    if level != InLogger {
      var c := LastChannel(s.config);
      assert ChannelInOrder(c);
      if level.InDevice? {
        var d := LastDevice(s.config);
        SetInLast(s.config, c.(devices := c.devices[|c.devices| - 1 := d.(values := d.values[key := value])]));
      } else if key == DeviceKey {
        if ChannelError(key, number, |c.devices|) == NoError {
          SetInLast(s.config, c.(devices := c.devices + [Device(number, map[])]));
        }
      } else {
        SetInLast(s.config, c.(values := c.values[key := value]));
      }
    }
  }

  /** Whatever text parses, parses to a configuration in order. */
  lemma {:induction false} ParsedInOrder(env: Env, s: State)
    requires Ready(s) && InOrder(s.config) && Interpret(env, s).Parsed?
    ensures InOrder(Interpret(env, s).config)
    decreases |s.text| - s.at
  {
    if s.at < |s.text| && LexAt(s.text, s.at).error == NoError && s.text[s.at] != '\0'
      && !NoKey(LexAt(s.text, s.at).line) {
      var l := LexAt(s.text, s.at);
      KeyLineInOrder(env, s, Dedent(s.level, l.line.blank), l);
    }
    hide KeyLine, LexAt, InOrder;
    var r := OneLine(env, s);
    if r.On? {
      hide OneLine;
      ParsedInOrder(env, r.s);
    }
  }

  // The line numbers of errors.

  predicate Undefined(error: Error) { error in {UndefinedDeviceKey, UndefinedChannelKey, UndefinedGlobalKey} }

  /** An error is one of an undefined key exactly if the level of the line does not define its key. */
  lemma UndefinedIs(env: Env, text: string, at: nat, level: Level, line: Line, config: Config)
    requires Placed(level, config)
    ensures Undefined(LineError(env, text, at, level, line, config)) <==> !Admits(level, line.key)
  {
    hide AtoiAt, ValueOf, DefineLine, Placed;
  }

  /**
    An error is reported with the number of its line in the text as it was written, but for that of an undefined key,
    which is reported with the next. A text without a channel is reported with the last line number.
   */
  lemma {:induction false} FailureLine(env: Env, s: State)
    requires Ready(s) && Interpret(env, s).Failed?
    ensures var r := Interpret(env, s);
            && s.at <= r.at <= |s.text| && s.text != ""
            && r.line == if r.at == |s.text| then LastNumber(s.text)
                         else LineOf(s.text, r.at) + if Undefined(r.error) then 1 else 0
    ensures Interpret(env, s).at == |s.text| ==> Interpret(env, s).error == InvalidChannelSize
    decreases |s.text| - s.at
  {
    var p := OneLine(env, s);
    if p.On? {
      hide OneLine, LastNumber, LineOf, Undefined, Placed;
      if p.s != s {
        Then(env, s, p.s);
        hide Interpret;
        FailureLine(env, p.s);
        SameNumbers(s.text, p.s.text, Interpret(env, s).at);
      }
    } else {
      Last(env, s, p.result);
      hide Interpret;
      if s.at < |s.text| && LexAt(s.text, s.at).error == NoError {
        var l := LexAt(s.text, s.at);
        UndefinedIs(env, s.text, s.at, Dedent(s.level, l.line.blank), l.line, s.config);
        hide LexAt, LineError;
      }
    }
  }

  lemma SameNumbers(text: string, r: string, at: nat)
    requires SameLines(text, r)
    ensures LineOf(r, at) == LineOf(text, at) && (text != "" ==> r != "" && LastNumber(r) == LastNumber(text))
  {
    SameLineNumbers(text, r, 0, at);
    SameLineNumbers(text, r, 0, |text|);
  }

  // Embedded NULs.

  lemma LineBeforeNul(text: string, at: nat, p: nat)
    requires at <= p < |text| && text[p] == '\0' && LexAt(text, at).error == NoError
    ensures at <= LexAt(text, at).next <= p
  {
    var e := WholeLine(text, at);
    hide LexAt, LineRead;
    assert CharAt(text, p) == '\0';
    if e + 1 < |text| { assert CharAt(text, e + 1) == text[e + 1]; }
  }

  /** A text with a NUL is never parsed: it fails at a line that starts before the NUL, or the pass never ends. */
  lemma {:induction false} NulNeverParsed(env: Env, s: State, p: nat)
    requires Ready(s) && s.at <= p < |s.text| && s.text[p] == '\0'
    ensures var r := Interpret(env, s); r.Endless? || (r.Failed? && r.at < p)
    decreases |s.text| - s.at
  {
    if LexAt(s.text, s.at).error == NoError {
      LineBeforeNul(s.text, s.at, p);
      var r := OneLine(env, s);
      OneLineNext(env, s);
      hide OneLine, LexAt;
      if r.On? && r.s != s {
        assert r.s.text[p] == '\0' by { assert IsLineBound(s.text[p]); }
        NulNeverParsed(env, r.s, p);
      }
    }
  }

  /** Where a step of the pass leads. */
  lemma OneLineNext(env: Env, s: State)
    requires Ready(s) && s.at < |s.text| && LexAt(s.text, s.at).error == NoError
    ensures var r, l := OneLine(env, s), LexAt(s.text, s.at);
            && (r.On? ==> r.s == s || r.s.at == l.next)
            && (r.Out? ==> (r.result.Failed? && r.result.at == s.at) || (r.result.Parsed? && l.next == |s.text|))
            && (s.text[s.at] == '\0' ==> r == On(s))
  {
    hide LexAt, LineError, DefineLine, SetDeviceValue, SetChannelValue, AddDevice, AddChannel, AtoiAt, ValueOf, LineOf;
  }

  // Texts without a NUL.

  lemma {:induction false} PassKeepsLines(env: Env, s: State, n: nat)
    requires Ready(s) && Pass(env, s, n).On?
    ensures SameLines(s.text, Pass(env, s, n).s.text)
    decreases n
  {
    hide OneLine, Placed;
    if n > 0 { PassKeepsLines(env, OneLine(env, s).s, n - 1); }
  }

  lemma NoNewNul(text: string, r: string)
    requires SameLines(text, r) && '\0' !in text
    ensures '\0' !in r
  {
    forall k | 0 <= k < |r| ensures r[k] != '\0' {
      assert text[k] != '\0' && (IsLineBound(r[k]) ==> r[k] == text[k]);
    }
  }

  /** Without a NUL the pass ends exactly if the rewrite of every define and var line it comes to ends. */
  lemma EndsUnlessHung(env: Env, s: State)
    requires Ready(s) && '\0' !in s.text
    ensures Interpret(env, s).Endless? <==> exists n: nat :: Pass(env, s, n).On? && Hangs(Pass(env, s, n).s)
  {
    hide OneLine, Hangs, Placed, Interpret, Pass;
    EndlessIs(env, s);
    forall n: nat | Pass(env, s, n).On? ensures !AtNul(Pass(env, s, n).s) {
      PassKeepsLines(env, s, n);
      NoNewNul(s.text, Pass(env, s, n).s.text);
    }
  }

  // Texts without a channel.

  /** The lines the pass reads, in their order. */
  ghost function Read(env: Env, s: State): seq<Line>
    requires Ready(s)
    decreases |s.text| - s.at
  {
    if s.at == |s.text| || LexAt(s.text, s.at).error != NoError then []
    else
      var r := OneLine(env, s);
      [LexAt(s.text, s.at).line] + if r.On? && r.s != s then Read(env, r.s) else []
  }

  /** None of these lines defines anything. */
  ghost predicate NoDefineLine(lines: seq<Line>) {
    forall i :: 0 <= i < |lines| ==> NoKey(lines[i]) || lines[i].key !in {Key.Define, Key.Variable}
  }

  lemma HangsAtDefine(env: Env, s: State)
    requires Ready(s) && Hangs(s)
    ensures Read(env, s) != [] && !NoDefineLine(Read(env, s))
  {
    DefineKeys(s.text, LexAt(s.text, s.at).line);
    hide OneLine, LexAt, DefineLine, Placed;
    assert Read(env, s)[0] == LexAt(s.text, s.at).line;
  }

  /** So without a NUL and without a define or var line among those it reads, the pass always ends. */
  lemma {:induction false} EndsUndefined(env: Env, s: State)
    requires Ready(s) && '\0' !in s.text && NoDefineLine(Read(env, s))
    ensures !Interpret(env, s).Endless?
    decreases |s.text| - s.at
  {
    hide OneLine, Hangs, Placed, Read, NoDefineLine, LexAt;
    var r := OneLine(env, s);
    if r.On? {
      Standstill(env, s);
      if Hangs(s) { HangsAtDefine(env, s); }
      RestDefines(env, s);
      NoNewNul(s.text, r.s.text);
      EndsUndefined(env, r.s);
    }
  }

  lemma RestDefines(env: Env, s: State)
    requires Ready(s) && OneLine(env, s).On? && OneLine(env, s).s != s && NoDefineLine(Read(env, s))
    ensures NoDefineLine(Read(env, OneLine(env, s).s))
  {
    hide Placed, LexAt, KeyLine;
    var t := OneLine(env, s).s;
    hide OneLine;
    ReadOn(env, s);
    hide Read;
    assert forall i :: 0 <= i < |Read(env, t)| ==> Read(env, t)[i] == Read(env, s)[i + 1];
  }

  /** For whole texts, as ParseLogger is given them. */
  lemma TextsEnd(env: Env, text: string)
    requires '\0' !in text
    ensures Parse(env, text).Endless?
       <==> exists n: nat :: Pass(env, Start(text), n).On? && Hangs(Pass(env, Start(text), n).s)
    ensures NoDefineLine(Read(env, Start(text))) ==> !Parse(env, text).Endless?
  {
    hide Interpret, Hangs, Pass, Read, NoDefineLine;
    EndsUnlessHung(env, Start(text));
    if NoDefineLine(Read(env, Start(text))) { EndsUndefined(env, Start(text)); }
  }

  ghost predicate NoChannelLine(lines: seq<Line>) {
    forall i :: 0 <= i < |lines| ==> NoKey(lines[i]) || lines[i].key != ChannelKey
  }

  /** The last of these lines has no key; `before` says so of what was read before. */
  ghost predicate EndsBare(lines: seq<Line>, before: bool) {
    if lines == [] then before else NoKey(lines[|lines| - 1])
  }

  ghost predicate ReadThrough(r: Result, text: string) { r.Parsed? || (r.Failed? && r.at == |text|) }

  lemma OneLineChannels(env: Env, s: State)
    requires Ready(s) && s.at < |s.text| && LexAt(s.text, s.at).error == NoError
    ensures var r, line := OneLine(env, s), LexAt(s.text, s.at).line;
            && (r.On? && r.s != s ==>
                  (r.s.config.channels == [] <==> s.config.channels == [] && (NoKey(line) || line.key != ChannelKey)))
            && (r.Out? && r.result.Parsed? ==> NoKey(line) && r.result.config == s.config)
            && (r.On? && NoKey(line) ==> r.s.at < |s.text|)
  {
    hide LexAt, DefineLine, AtoiAt, ValueOf, LineOf, DeviceError;
    var l := LexAt(s.text, s.at);
    if !NoKey(l.line) && s.text[s.at] != '\0' {
      KeyLineChannels(env, s, Dedent(s.level, l.line.blank), l);
    }
  }

  lemma KeyLineChannels(env: Env, s: State, level: Level, l: Lexed)
    requires Ready(s) && Placed(level, s.config) && s.at < |s.text| && l == LexAt(s.text, s.at) && l.error == NoError
    requires s.text[s.at] != '\0' && !NoKey(l.line)
    ensures var r := KeyLine(env, s, level, l);
            && (r.On? && r.s != s ==>
                  (r.s.config.channels == [] <==> s.config.channels == [] && l.line.key != ChannelKey))
            && (r.Out? ==> !r.result.Parsed?)
  {
    hide LexAt, DefineLine, AtoiAt, ValueOf, LineOf;
  }

  lemma ReadOn(env: Env, s: State)
    requires Ready(s) && s.at < |s.text| && LexAt(s.text, s.at).error == NoError
    ensures var r := OneLine(env, s);
            && (r.On? && r.s != s ==> Read(env, s) == [LexAt(s.text, s.at).line] + Read(env, r.s)
                                      && Interpret(env, s) == Interpret(env, r.s))
            && (r.Out? || r.s == s ==> Read(env, s) == [LexAt(s.text, s.at).line] + [])
  {
    hide OneLine, LexAt;
  }

  lemma OneMore(line: Line, rest: seq<Line>)
    ensures NoChannelLine([line] + rest) <==> (NoKey(line) || line.key != ChannelKey) && NoChannelLine(rest)
  {
    if NoChannelLine([line] + rest) {
      assert forall i :: 0 <= i < |rest| ==> rest[i] == ([line] + rest)[i + 1];
      assert ([line] + rest)[0] == line;
    }
  }

  /**
    A text that is read to its end is accepted exactly if it has a channel line or its last line has no key, or if
    it is empty; and it defines no channel exactly if it has no channel line.
   */
  lemma {:induction false} ChannelsRead(env: Env, s: State)
    requires Ready(s) && (s.at > 0 || s == Start(s.text))
    ensures var r, lines := Interpret(env, s), Read(env, s);
            ReadThrough(r, s.text) ==>
              && var none := s.config.channels == [] && NoChannelLine(lines);
                 && (r.Parsed? <==> !none || EndsBare(lines, s.text == ""))
                 && (r.Parsed? ==> (r.config.channels == [] <==> none))
    decreases |s.text| - s.at
  {
    if s.at < |s.text| && LexAt(s.text, s.at).error == NoError {
      OneLineChannels(env, s);
      OneLineNext(env, s);
      var r := OneLine(env, s);
      hide OneLine, LexAt;
      if r.On? && r.s != s {
        ChannelsRead(env, r.s);
        hide Read;
        ReadOn(env, s);
        OneMore(LexAt(s.text, s.at).line, Read(env, r.s));
      }
    } else {
      hide LexAt;
    }
  }

  /** For whole texts. */
  lemma TextsWithoutChannel(env: Env, text: string)
    requires ReadThrough(Parse(env, text), text)
    ensures var r, lines := Parse(env, text), Read(env, Start(text));
            var bare := text == "" || (lines != [] && NoKey(lines[|lines| - 1]));
            && (r.Parsed? <==> !NoChannelLine(lines) || bare)
            && (r.Parsed? ==> (r.config.channels == [] <==> NoChannelLine(lines)))
  {
    ChannelsRead(env, Start(text));
    hide OneLine, LexAt;
  }
}
