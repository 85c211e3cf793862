/** The bit lists of the configuration, like `1, 3-5, 60`: a scan that looks at the end of a range twice. */
module BitArrays {
  import opened Bits
  import opened NumberWriters

  predicate IsNumber(c: char) { '0' <= c <= '9' }

  predicate IsBlank(c: char) { c == ' ' || c == '\t' || c == '\U{000b}' || c == '\U{000c}' }

  /** atoi at a digit. */
  function Atoi(s: string): nat {
    Value(10, s[..Run(s)])
  }

  /** How many digits `s` starts with. */
  function Run(s: string): (n: nat)
    ensures n <= |s|
  {
    if s == "" || !IsNumber(s[0]) then 0 else 1 + Run(s[1..])
  }

  function ToNumber(s: string): (t: string)
    ensures |t| <= |s| && (t == "" || IsNumber(t[0]))
  {
    if s == "" || IsNumber(s[0]) then s else ToNumber(s[1..])
  }

  function PastNumber(s: string): (t: string)
    ensures |t| <= |s| && (s != "" && IsNumber(s[0]) ==> |t| < |s|)
  {
    if s == "" || !(IsNumber(s[0]) || IsBlank(s[0])) then s else PastNumber(s[1..])
  }

  function ToNumberOrComma(s: string): (t: string)
    ensures |t| <= |s|
  {
    if s == "" || IsNumber(s[0]) || s[0] == ',' then s else ToNumberOrComma(s[1..])
  }

  function Min(a: nat, b: nat): nat { if a < b then a else b }

  predicate Between(a: nat, b: nat, i: nat) { Min(a, b) <= i <= Max(a, b) }

  ghost function Span(a: nat, b: nat): set<nat> {
    set i: nat | i <= a + b && Between(a, b, i)
  }

  /** The bits the scan sets. */
  ghost function Scan(s: string): set<nat>
    decreases |s|
  {
    var a := ToNumber(s);
    if a == "" then {} else
      var first := Atoi(a);
      var b := PastNumber(a);
      if b == "" || b[0] != '-' then {first} + Scan(b)
      else
        var c := ToNumberOrComma(b);
        if c == "" || !IsNumber(c[0]) then {first} + Scan(c)
        else Span(first, Atoi(c)) + Scan(c)
  }

  // Lists of items, and what they denote.

  /** An item of a list: one index or a range in either order, with the blanks around it as written. */
  datatype Item = One(pre: string, num: string, post: string)
                | Range(pre: string, first: string, mid: string, mid': string, last: string, post: string)

  ghost predicate Blanks(s: string) { forall i :: 0 <= i < |s| ==> IsBlank(s[i]) }

  ghost predicate Number(s: string) { s != "" && forall i :: 0 <= i < |s| ==> IsNumber(s[i]) }

  ghost predicate ItemOk(item: Item) {
    match item
    case One(pre, num, post) => Blanks(pre) && Number(num) && Blanks(post)
    case Range(pre, first, mid, mid', last, post) =>
      Blanks(pre) && Number(first) && Blanks(mid) && Blanks(mid') && Number(last) && Blanks(post)
  }

  function Written(item: Item): string {
    match item
    case One(pre, num, post) => pre + (num + post)
    case Range(pre, first, mid, mid', last, post) => pre + (first + (mid + ("-" + (mid' + (last + post)))))
  }

  ghost function Denoted(item: Item): set<nat> {
    match item
    case One(_, num, _) => {Value(10, num)}
    case Range(_, first, _, _, last, _) => Span(Value(10, first), Value(10, last))
  }

  /** The items joined by commas. */
  function List(items: seq<Item>): string {
    if items == [] then "" else Written(items[0]) + Rest(items[1..])
  }

  function Rest(items: seq<Item>): string {
    if items == [] then "" else "," + (Written(items[0]) + Rest(items[1..]))
  }

  ghost function AllDenoted(items: seq<Item>): set<nat> {
    if items == [] then {} else Denoted(items[0]) + AllDenoted(items[1..])
  }

  // Scanning a written text.

  /** The text ends here, or goes on with the comma before the next item. */
  predicate AtItemEnd(s: string) { s == "" || s[0] == ',' }

  lemma {:induction false} ToNumberSkips(b: string, s: string)
    requires forall i :: 0 <= i < |b| ==> !IsNumber(b[i])
    ensures ToNumber(b + s) == ToNumber(s)
  {
    if b == "" {
      assert b + s == s;
    } else {
      assert (b + s)[1..] == b[1..] + s;
      ToNumberSkips(b[1..], s);
    }
  }

  lemma {:induction false} RunOf(num: string, s: string)
    requires (forall i :: 0 <= i < |num| ==> IsNumber(num[i])) && (s == "" || !IsNumber(s[0]))
    ensures Run(num + s) == |num|
  {
    if num == "" {
      assert num + s == s;
    } else {
      assert (num + s)[1..] == num[1..] + s;
      RunOf(num[1..], s);
    }
  }

  lemma AtoiOf(num: string, s: string)
    requires Number(num) && (s == "" || !IsNumber(s[0]))
    ensures Atoi(num + s) == Value(10, num)
  {
    RunOf(num, s);
    assert (num + s)[..|num|] == num;
  }

  lemma {:induction false} PastNumberSkips(b: string, s: string)
    requires forall i :: 0 <= i < |b| ==> IsNumber(b[i]) || IsBlank(b[i])
    requires s == "" || !(IsNumber(s[0]) || IsBlank(s[0]))
    ensures PastNumber(b + s) == s
  {
    if b == "" {
      assert b + s == s;
    } else {
      assert (b + s)[1..] == b[1..] + s;
      PastNumberSkips(b[1..], s);
    }
  }

  lemma {:induction false} ToNumberOrCommaSkips(b: string, s: string)
    requires forall i :: 0 <= i < |b| ==> !IsNumber(b[i]) && b[i] != ','
    requires s != "" && IsNumber(s[0])
    ensures ToNumberOrComma(b + s) == s
  {
    if b == "" {
      assert b + s == s;
    } else {
      assert (b + s)[1..] == b[1..] + s;
      ToNumberOrCommaSkips(b[1..], s);
    }
  }

  /** One number up to the end of its item. */
  lemma ScanNumber(num: string, post: string, s: string)
    requires Number(num) && Blanks(post) && AtItemEnd(s)
    ensures Scan((num + post) + s) == {Value(10, num)} + Scan(s)
  {
    var a := (num + post) + s;
    assert a == num + (post + s);
    assert ToNumber(a) == a;
    AtoiOf(num, post + s);
    PastNumberSkips(num + post, s);
  }

  lemma ScanPre(pre: string, s: string)
    requires Blanks(pre)
    ensures Scan(pre + s) == Scan(s)
  {
    ToNumberSkips(pre, s);
  }

  lemma ScanComma(s: string)
    ensures Scan("," + s) == Scan(s)
  {
    ToNumberSkips(",", s);
  }

  /** One step of the scan over a range. */
  lemma ScanStep(a: string, b: string, c: string)
    requires a != "" && ToNumber(a) == a && PastNumber(a) == b && b != "" && b[0] == '-'
    requires ToNumberOrComma(b) == c && c != "" && IsNumber(c[0])
    ensures Scan(a) == Span(Atoi(a), Atoi(c)) + Scan(c)
  {
  }

  lemma Regroup(first: string, mid: string, mid': string, tail: string)
    ensures first + (mid + ("-" + (mid' + tail))) == (first + mid) + (("-" + mid') + tail)
  {
  }

  lemma RegroupEnd(first: string, mid: string, mid': string, end: string, s: string)
    ensures (first + (mid + ("-" + (mid' + end)))) + s == first + (mid + ("-" + (mid' + (end + s))))
  {
    assert (mid + ("-" + (mid' + end))) + s == mid + ("-" + (mid' + (end + s)));
  }

  /** A range: its end is read as the other bound, and then scanned again as an item of its own. */
  lemma ScanRange(first: string, mid: string, mid': string, last: string, post: string, s: string)
    requires Number(first) && Blanks(mid) && Blanks(mid') && Number(last) && Blanks(post) && AtItemEnd(s)
    ensures Scan((first + (mid + ("-" + (mid' + (last + post))))) + s)
            == Span(Value(10, first), Value(10, last)) + Scan(s)
  {
    var tail := (last + post) + s;
    var dash := ("-" + mid') + tail;
    var a := first + (mid + ("-" + (mid' + tail)));
    RegroupEnd(first, mid, mid', last + post, s);
    Regroup(first, mid, mid', tail);
    ScanRangeFrom(first, mid, mid', last, post, s, a, dash, tail);
  }

  lemma ScanRangeFrom(first: string, mid: string, mid': string, last: string, post: string, s: string,
                      a: string, dash: string, tail: string)
    requires Number(first) && Blanks(mid) && Blanks(mid') && Number(last) && Blanks(post) && AtItemEnd(s)
    requires a == (first + mid) + dash && dash == ("-" + mid') + tail && tail == (last + post) + s
    ensures Scan(a) == Span(Value(10, first), Value(10, last)) + Scan(s)
  {
    hide Scan, Value, Run;
    assert dash[0] == '-' && a[0] == first[0] && tail[0] == last[0];
    assert ToNumber(a) == a;
    assert a == first + (mid + dash);
    AtoiOf(first, mid + dash);
    PastNumberSkips(first + mid, dash);
    ToNumberOrCommaSkips("-" + mid', tail);
    assert tail == last + (post + s);
    AtoiOf(last, post + s);
    hide Atoi;
    ScanNumber(last, post, s);
    ScanStep(a, dash, tail);
    assert Value(10, last) in Span(Value(10, first), Value(10, last));
  }

  lemma ScanItem(item: Item, s: string)
    requires ItemOk(item) && AtItemEnd(s)
    ensures Scan(Written(item) + s) == Denoted(item) + Scan(s)
  {
    hide Scan, Span, Value;
    match item
    case One(pre, num, post) =>
      ScanNumber(num, post, s);
      ScanPre(pre, (num + post) + s);
      assert Written(item) + s == pre + ((num + post) + s);
    case Range(pre, first, mid, mid', last, post) =>
      var body := first + (mid + ("-" + (mid' + (last + post))));
      ScanRange(first, mid, mid', last, post, s);
      ScanPre(pre, body + s);
      assert Written(item) + s == pre + (body + s);
  }

  lemma {:induction false} ScanRest(items: seq<Item>)
    requires forall i :: 0 <= i < |items| ==> ItemOk(items[i])
    ensures Scan(Rest(items)) == AllDenoted(items) && AtItemEnd(Rest(items))
  {
    if items == [] {
      assert Scan("") == {};
    } else {
      ScanRest(items[1..]);
      ScanItem(items[0], Rest(items[1..]));
      ScanComma(Written(items[0]) + Rest(items[1..]));
    }
  }

  /** The scan of a list of items gives exactly the bits the items denote. */
  lemma ListIsUnion(items: seq<Item>)
    requires forall i :: 0 <= i < |items| ==> ItemOk(items[i])
    ensures Scan(List(items)) == AllDenoted(items)
  {
    if items == [] {
      assert Scan("") == {};
    } else {
      ScanRest(items[1..]);
      ScanItem(items[0], Rest(items[1..]));
    }
  }

  // The scan itself.

  lemma BitsOfZero()
    ensures 0 < Pow2(64) && forall i: nat :: !Bit(0, i)
  {
    forall i: nat ensures !Bit(0, i) { BitOfZero(i); }
  }

  lemma ScanSkips(s: string)
    ensures Scan(s) == Scan(ToNumber(s)) && (ToNumber(s) == "" ==> Scan(s) == {})
  {
    ToNumberTwice(s);
  }

  lemma {:induction false} ToNumberTwice(s: string)
    ensures ToNumber(ToNumber(s)) == ToNumber(s)
  {
    if s != "" && !IsNumber(s[0]) { ToNumberTwice(s[1..]); }
  }

  lemma ScanSingle(a: string, b: string)
    requires a != "" && ToNumber(a) == a && PastNumber(a) == b && (b == "" || b[0] != '-')
    ensures Scan(a) == {Atoi(a)} + Scan(b)
  {
  }

  lemma ScanOpen(a: string, b: string, c: string)
    requires a != "" && ToNumber(a) == a && PastNumber(a) == b && b != "" && b[0] == '-'
    requires ToNumberOrComma(b) == c && (c == "" || !IsNumber(c[0]))
    ensures Scan(a) == {Atoi(a)} + Scan(c)
  {
  }

  lemma EmptyScan()
    ensures Scan("") == {}
  {
  }

  method SkipToNumber(text: string, from: nat) returns (offset: nat)
    requires from <= |text|
    ensures from <= offset <= |text| && text[offset..] == ToNumber(text[from..])
    ensures offset < |text| ==> IsNumber(text[offset])
  {
    offset := from;
    while offset < |text| && !IsNumber(text[offset])
      invariant from <= offset <= |text| && ToNumber(text[offset..]) == ToNumber(text[from..])
    {
      assert text[offset..][1..] == text[offset + 1..];
      offset := offset + 1;
    }
  }

  method SkipPastNumber(text: string, from: nat) returns (offset: nat)
    requires from < |text| && IsNumber(text[from])
    ensures from < offset <= |text| && text[offset..] == PastNumber(text[from..])
  {
    offset := from;
    while offset < |text| && (IsNumber(text[offset]) || IsBlank(text[offset]))
      invariant from <= offset <= |text| && PastNumber(text[offset..]) == PastNumber(text[from..])
    {
      assert text[offset..][1..] == text[offset + 1..];
      offset := offset + 1;
    }
  }

  method SkipToNumberOrComma(text: string, from: nat) returns (offset: nat)
    requires from <= |text|
    ensures from <= offset <= |text| && text[offset..] == ToNumberOrComma(text[from..])
  {
    offset := from;
    while offset < |text| && !IsNumber(text[offset]) && text[offset] != ','
      invariant from <= offset <= |text| && ToNumberOrComma(text[offset..]) == ToNumberOrComma(text[from..])
    {
      assert text[offset..][1..] == text[offset + 1..];
      offset := offset + 1;
    }
  }

  method SetOne(bitmap: nat, bit: nat) returns (r: nat)
    requires bitmap < Pow2(64) && bit < 64
    ensures r < Pow2(64) && forall i: nat :: Bit(r, i) <==> Bit(bitmap, i) || i == bit
  {
    hide Bit, Pow2;
    BitOfSetBit(bitmap, bit, 64);
    r := SetBit(bitmap, bit);
  }

  method SetRange(bitmap: nat, first: nat, last: nat) returns (r: nat)
    requires bitmap < Pow2(64) && first < 64 && last < 64
    ensures r < Pow2(64) && forall i: nat :: Bit(r, i) <==> Bit(bitmap, i) || i in Span(first, last)
  {
    hide Bit, Pow2;
    r := bitmap;
    var i := Min(first, last);
    while i <= Max(first, last)
      invariant Min(first, last) <= i <= Max(first, last) + 1 && r < Pow2(64)
      invariant forall k: nat :: Bit(r, k) <==> Bit(bitmap, k) || Min(first, last) <= k < i
    {
      r := SetOne(r, i);
      i := i + 1;
    }
    assert forall k: nat :: k in Span(first, last) <==> Min(first, last) <= k < i;
  }

  /** The scan over the characters from `begin` to `end`; what follows them is not a digit. */
  method ParseBitArray(text: string) returns (bitmap: nat)
    requires forall i: nat :: i in Scan(text) ==> i < 64
    ensures bitmap < Pow2(64) && forall i: nat :: Bit(bitmap, i) <==> i in Scan(text)
  {
    hide Bit, Pow2, Scan, Value, Atoi;
    bitmap := 0;
    BitsOfZero();
    var offset := 0;
    while offset < |text|
      invariant 0 <= offset <= |text| && bitmap < Pow2(64)
      invariant forall i: nat :: Bit(bitmap, i) || i in Scan(text[offset..]) <==> i in Scan(text)
      invariant forall i: nat :: Bit(bitmap, i) ==> i in Scan(text)
      decreases |text| - offset
    {
      ghost var s := text[offset..];
      offset := SkipToNumber(text, offset);
      ScanSkips(s);
      assert forall i: nat :: Bit(bitmap, i) || i in Scan(text[offset..]) <==> i in Scan(text);
      if offset == |text| {
        break;
      }
      var first := Atoi(text[offset..]);
      ghost var a := text[offset..];
      offset := SkipPastNumber(text, offset);
      if offset == |text| || text[offset] != '-' {
        ScanSingle(a, text[offset..]);
        bitmap := SetOne(bitmap, first);
        continue;
      }
      ghost var b := text[offset..];
      offset := SkipToNumberOrComma(text, offset);
      if offset == |text| || !IsNumber(text[offset]) {
        ScanOpen(a, b, text[offset..]);
        bitmap := SetOne(bitmap, first);
        continue;
      }
      var last := Atoi(text[offset..]);
      ScanStep(a, b, text[offset..]);
      assert first in Span(first, last) && last in Span(first, last);
      bitmap := SetRange(bitmap, first, last);
    }
    assert text[offset..] == "";
    EmptyScan();
  }
}
