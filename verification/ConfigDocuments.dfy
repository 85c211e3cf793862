/** Documents: channels, their devices and all their values, written down and parsed again. */
module ConfigDocuments {
  import opened ConfigLexer
  import opened ConfigWritten
  import opened ConfigPass
  import opened ConfigRows

  // Documents: channels with their values and devices, devices with theirs.

  datatype Entry = Given(w: Written, end: string) | Blank(margin: string, comment: string, end: string)

  datatype DeviceDoc = DeviceDoc(head: Written, end: string, lines: seq<Entry>)

  datatype Part = Line(entry: Entry) | Dev(device: DeviceDoc)

  datatype ChannelDoc = ChannelDoc(head: Written, end: string, parts: seq<Part>)

  datatype Section = Setting(entry: Entry) | Chan(channel: ChannelDoc)

  ghost function Give(values: map<Key, string>, e: Entry): map<Key, string> {
    if e.Given? then values[Reserve(e.w.name) := e.w.value] else values
  }

  /** The values some lines give: the last one of a key counts. */
  ghost function ValuesOf(lines: seq<Entry>): map<Key, string> {
    if lines == [] then map[] else Give(ValuesOf(lines[..|lines| - 1]), lines[|lines| - 1])
  }

  function LinesOf(parts: seq<Part>): seq<Entry> {
    if parts == [] then []
    else
      var last := parts[|parts| - 1];
      LinesOf(parts[..|parts| - 1]) + if last.Line? then [last.entry] else []
  }

  ghost function DeviceOf(id: nat, d: DeviceDoc): Device { Device(id, ValuesOf(d.lines)) }

  ghost function DevicesOf(parts: seq<Part>): seq<Device> {
    if parts == [] then []
    else
      var before := DevicesOf(parts[..|parts| - 1]);
      match parts[|parts| - 1]
      case Line(_) => before
      case Dev(d) => before + [DeviceOf(|before|, d)]
  }

  ghost function ChannelOf(id: nat, c: ChannelDoc): Channel {
    Channel(id, ValuesOf(LinesOf(c.parts)), DevicesOf(c.parts))
  }

  function SettingsOf(doc: seq<Section>): seq<Entry> {
    if doc == [] then []
    else
      var last := doc[|doc| - 1];
      SettingsOf(doc[..|doc| - 1]) + if last.Setting? then [last.entry] else []
  }

  ghost function ChannelsOf(doc: seq<Section>): seq<Channel> {
    if doc == [] then []
    else
      var before := ChannelsOf(doc[..|doc| - 1]);
      match doc[|doc| - 1]
      case Setting(_) => before
      case Chan(c) => before + [ChannelOf(|before|, c)]
  }

  /** What a document says. */
  ghost function ConfigOf(doc: seq<Section>): Config { Config(ValuesOf(SettingsOf(doc)), ChannelsOf(doc)) }

  // Its rows.

  function EntryRow(tag: Tag, e: Entry): Row {
    match e
    case Given(w, end) => Keyed(tag, w, end)
    case Blank(margin, comment, end) => Empty(margin, comment, end)
  }

  function EntryRows(tag: Tag, lines: seq<Entry>): seq<Row> {
    if lines == [] then [] else EntryRows(tag, lines[..|lines| - 1]) + [EntryRow(tag, lines[|lines| - 1])]
  }

  function PartRows(part: Part): seq<Row> {
    match part
    case Line(e) => [EntryRow(OfChannel, e)]
    case Dev(d) => [Keyed(NewDevice, d.head, d.end)] + EntryRows(OfDevice, d.lines)
  }

  function PartsRows(parts: seq<Part>): seq<Row> {
    if parts == [] then [] else PartsRows(parts[..|parts| - 1]) + PartRows(parts[|parts| - 1])
  }

  function SectionRows(section: Section): seq<Row> {
    match section
    case Setting(e) => [EntryRow(Global, e)]
    case Chan(c) => [Keyed(NewChannel, c.head, c.end)] + PartsRows(c.parts)
  }

  function RowsOf(doc: seq<Section>): seq<Row> {
    if doc == [] then [] else RowsOf(doc[..|doc| - 1]) + SectionRows(doc[|doc| - 1])
  }

  lemma {:induction false} ReadBoth(c: Config, a: seq<Row>, b: seq<Row>)
    ensures ReadAll(c, a + b) == ReadAll(ReadAll(c, a), b)
    decreases |a|
  {
    hide Read;
    if a == [] {
      assert a + b == b;
    } else {
      assert (a + b)[0] == a[0] && (a + b)[1..] == a[1..] + b;
      ReadBoth(Read(c, a[0]), a[1..], b);
    }
  }

  lemma ReadOne(c: Config, row: Row)
    ensures ReadAll(c, [row]) == Read(c, row)
  {
    hide Read;
    assert [row][1..] == [];
    assert ReadAll(Read(c, row), []) == Read(c, row);
  }

  function InDeviceOf(values: map<Key, string>, before: seq<Channel>, id: int, own: map<Key, string>,
                      devices: seq<Device>, device: Device): Config
  {
    Config(values, before + [Channel(id, own, devices + [device])])
  }

  lemma DeviceValue(values: map<Key, string>, before: seq<Channel>, id: int, own: map<Key, string>,
                    devices: seq<Device>, device: Device, key: Key, value: string)
    ensures With(InDeviceOf(values, before, id, own, devices, device), OfDevice, key, value)
         == InDeviceOf(values, before, id, own, devices, Device(device.id, device.values[key := value]))
  {
    var h := Channel(id, own, devices + [device]);
    assert (before + [h])[..|before|] == before;
    assert h.devices[..|devices|] == devices;
  }

  lemma {:induction false} DeviceLinesRead(values: map<Key, string>, before: seq<Channel>, id: int,
                                           own: map<Key, string>, devices: seq<Device>, n: int, lines: seq<Entry>)
    ensures ReadAll(InDeviceOf(values, before, id, own, devices, Device(n, map[])), EntryRows(OfDevice, lines))
         == InDeviceOf(values, before, id, own, devices, Device(n, ValuesOf(lines)))
    decreases |lines|
  {
    hide With, InDeviceOf, Reserve;
    var c := InDeviceOf(values, before, id, own, devices, Device(n, map[]));
    if lines != [] {
      var init, last := lines[..|lines| - 1], lines[|lines| - 1];
      DeviceLinesRead(values, before, id, own, devices, n, init);
      ReadBoth(c, EntryRows(OfDevice, init), [EntryRow(OfDevice, last)]);
      ReadOne(ReadAll(c, EntryRows(OfDevice, init)), EntryRow(OfDevice, last));
      if last.Given? {
        DeviceValue(values, before, id, own, devices, Device(n, ValuesOf(init)), Reserve(last.w.name), last.w.value);
      }
    }
  }

  lemma ValuesWith(lines: seq<Entry>, e: Entry)
    ensures ValuesOf(lines + [e])
         == Give(ValuesOf(lines), e)
  {
    hide Reserve;
    assert (lines + [e])[..|lines|] == lines;
  }

  lemma PartRead(values: map<Key, string>, before: seq<Channel>, id: int, lines: seq<Entry>, devices: seq<Device>,
                 part: Part)
    ensures ReadAll(Config(values, before + [Channel(id, ValuesOf(lines), devices)]), PartRows(part))
         == Config(values,
                   before + [if part.Line? then Channel(id, ValuesOf(lines + [part.entry]), devices)
                             else Channel(id, ValuesOf(lines), devices + [DeviceOf(|devices|, part.device)])])
  {
    hide Reserve, ValuesOf;
    var h := Channel(id, ValuesOf(lines), devices);
    var c := Config(values, before + [h]);
    assert c.channels[..|before|] == before;
    match part
    case Line(e) =>
      ReadOne(c, EntryRow(OfChannel, e));
      ValuesWith(lines, e);
    case Dev(d) =>
      var head := Keyed(NewDevice, d.head, d.end);
      ReadBoth(c, [head], EntryRows(OfDevice, d.lines));
      ReadOne(c, head);
      DeviceLinesRead(values, before, id, ValuesOf(lines), devices, |devices|, d.lines);
  }

  lemma {:induction false} PartsRead(values: map<Key, string>, before: seq<Channel>, id: int, parts: seq<Part>)
    ensures ReadAll(Config(values, before + [Channel(id, map[], [])]), PartsRows(parts))
         == Config(values, before + [Channel(id, ValuesOf(LinesOf(parts)), DevicesOf(parts))])
    decreases |parts|
  {
    hide Read;
    var c := Config(values, before + [Channel(id, map[], [])]);
    if parts != [] {
      var init, last := parts[..|parts| - 1], parts[|parts| - 1];
      PartsRead(values, before, id, init);
      ReadBoth(c, PartsRows(init), PartRows(last));
      hide ReadAll, PartRows, ValuesOf;
      PartRead(values, before, id, LinesOf(init), DevicesOf(init), last);
      assert LinesOf(init) + [] == LinesOf(init);
    }
  }

  lemma SectionRead(settings: seq<Entry>, channels: seq<Channel>, section: Section)
    ensures ReadAll(Config(ValuesOf(settings), channels), SectionRows(section))
         == if section.Setting? then Config(ValuesOf(settings + [section.entry]), channels)
            else Config(ValuesOf(settings), channels + [ChannelOf(|channels|, section.channel)])
  {
    hide Reserve, ValuesOf;
    var c := Config(ValuesOf(settings), channels);
    match section
    case Setting(e) =>
      ReadOne(c, EntryRow(Global, e));
      ValuesWith(settings, e);
    case Chan(d) =>
      var head := Keyed(NewChannel, d.head, d.end);
      ReadBoth(c, [head], PartsRows(d.parts));
      ReadOne(c, head);
      PartsRead(ValuesOf(settings), channels, |channels|, d.parts);
  }

  /** Reading the rows of a document gives what the document says. */
  lemma {:induction false} DocumentRead(doc: seq<Section>)
    ensures ReadAll(Config(map[], []), RowsOf(doc)) == ConfigOf(doc)
    decreases |doc|
  {
    hide Read;
    if doc != [] {
      var init, last := doc[..|doc| - 1], doc[|doc| - 1];
      DocumentRead(init);
      ReadBoth(Config(map[], []), RowsOf(init), SectionRows(last));
      hide ReadAll, SectionRows, ValuesOf;
      SectionRead(SettingsOf(init), ChannelsOf(init), last);
      assert SettingsOf(init) + [] == SettingsOf(init);
    }
  }

  /**
    A document whose lines are in order is parsed to what it says: its settings, its channels and devices with their
    numbers, and every value of each of them.
   */
  lemma DocumentIsParsed(env: Env, doc: seq<Section>)
    requires ChannelsOf(doc) != [] && Ordered(env, 0, InLogger, Config(map[], []), RowsOf(doc))
    ensures Parse(env, TextOf(RowsOf(doc))) == Parsed(ConfigOf(doc))
  {
    hide Parse, Ordered, ReadAll, RowsOf, ChannelsOf, TextOf;
    DocumentRead(doc);
    TextIsParsed(env, RowsOf(doc));
  }
}
