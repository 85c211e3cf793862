/** Lines of a configuration text: what ends one, and how many ends lie before a position. */
module ConfigLines {

  /** The character at a position; behind the text stands the terminating NUL. */
  function CharAt(text: string, i: nat): char {
    if i < |text| then text[i] else '\0'
  }

  predicate IsNewline(c: char) { c == '\r' || c == '\n' }

  predicate IsLineBound(c: char) { c == '\0' || IsNewline(c) }

  predicate IsSoftLineBound(c: char) { IsLineBound(c) || c == '#' }

  /** Behind the line end at `i`: a carriage return and a line feed, in either order, are one line end. */
  function AfterEnd(text: string, i: nat): nat {
    if IsNewline(CharAt(text, i + 1)) && CharAt(text, i + 1) != CharAt(text, i) then i + 2 else i + 1
  }

  /** Where a reader that takes line ends whole goes on after position `i`. */
  function Onward(text: string, i: nat): (j: nat)
    ensures j > i
  {
    if IsNewline(CharAt(text, i)) then AfterEnd(text, i) else i + 1
  }

  /** The line ends that start in `[from, to)`. */
  function Ends(text: string, from: nat, to: nat): nat
    decreases if from <= to then to - from else 0
  {
    if from >= to then 0
    else (if IsNewline(CharAt(text, from)) then 1 else 0) + Ends(text, Onward(text, from), to)
  }

  /** No line end is split by going from `from` to `to`. */
  predicate Reaches(text: string, from: nat, to: nat)
    decreases if from <= to then to - from else 0
  {
    from == to || (from < to && Reaches(text, Onward(text, from), to))
  }

  lemma {:induction false} EndsSplit(text: string, from: nat, mid: nat, to: nat)
    requires Reaches(text, from, mid) && mid <= to
    ensures Ends(text, from, to) == Ends(text, from, mid) + Ends(text, mid, to)
    decreases if from <= mid then mid - from else 0
  {
    if from < mid {
      EndsSplit(text, Onward(text, from), mid, to);
    }
  }

  lemma {:induction false} ReachesOn(text: string, from: nat, mid: nat, to: nat)
    requires Reaches(text, from, mid) && Reaches(text, mid, to)
    ensures Reaches(text, from, to)
    decreases if from <= mid then mid - from else 0
  {
    if from < mid {
      ReachesOn(text, Onward(text, from), mid, to);
      ReachesForward(text, Onward(text, from), mid);
      ReachesForward(text, mid, to);
    }
  }

  lemma {:induction false} ReachesForward(text: string, from: nat, to: nat)
    requires Reaches(text, from, to)
    ensures from <= to
    decreases if from <= to then to - from else 0
  {
    if from != to { ReachesForward(text, Onward(text, from), to); }
  }

  /** A stretch without line ends. */
  ghost predicate Plain(text: string, from: nat, to: nat) {
    forall i :: from <= i < to ==> !IsNewline(CharAt(text, i))
  }

  lemma {:induction false} PlainStretch(text: string, from: nat, to: nat)
    requires from <= to && Plain(text, from, to)
    ensures Reaches(text, from, to) && Ends(text, from, to) == 0
    decreases if from <= to then to - from else 0
  {
    if from < to { PlainStretch(text, from + 1, to); }
  }

  /** The number of the line a position is in. */
  function LineOf(text: string, i: nat): nat { 1 + Ends(text, 0, i) }

  lemma OneEnd(text: string, at: nat)
    requires IsNewline(CharAt(text, at))
    ensures var to := AfterEnd(text, at); Reaches(text, at, to) && Ends(text, at, to) == 1 && at < to
  {
    var to := AfterEnd(text, at);
    assert Onward(text, at) == to && at < to;
    assert Reaches(text, to, to) && Ends(text, to, to) == 0;
    assert Ends(text, at, to) == 1 + Ends(text, to, to);
  }

  /** One line further: the rest of a line and its end. */
  lemma NextLine(text: string, from: nat, at: nat)
    requires Reaches(text, 0, from) && from <= at && Plain(text, from, at) && IsNewline(CharAt(text, at))
    ensures Reaches(text, 0, AfterEnd(text, at)) && LineOf(text, AfterEnd(text, at)) == LineOf(text, from) + 1
  {
    var to := AfterEnd(text, at);
    PlainStretch(text, from, at);
    OneEnd(text, at);
    hide Ends, Reaches;
    ReachesOn(text, from, at, to);
    ReachesOn(text, 0, from, to);
    EndsSplit(text, from, at, to);
    EndsSplit(text, 0, from, to);
  }

  /** The rest of a last line without an end. */
  lemma LastLine(text: string, from: nat, to: nat)
    requires Reaches(text, 0, from) && from <= to && Plain(text, from, to)
    ensures Reaches(text, 0, to) && LineOf(text, to) == LineOf(text, from)
  {
    PlainStretch(text, from, to);
    ReachesOn(text, 0, from, to);
    EndsSplit(text, 0, from, to);
  }

  /** A stretch of one line. */
  ghost predicate Unbroken(text: string, from: nat, to: nat) {
    forall i :: from <= i < to ==> !IsLineBound(CharAt(text, i))
  }

  /** The same lines: what ends a line stays in place, and nothing else becomes the end of one. */
  ghost predicate SameLines(text: string, r: string) {
    |r| == |text| && forall k :: 0 <= k < |text| && (IsLineBound(text[k]) || IsLineBound(r[k])) ==> r[k] == text[k]
  }

  lemma {:induction false} SameLineNumbers(text: string, r: string, from: nat, to: nat)
    requires SameLines(text, r)
    ensures Ends(r, from, to) == Ends(text, from, to) && (Reaches(r, from, to) <==> Reaches(text, from, to))
    decreases if from <= to then to - from else 0
  {
    if from < to {
      assert Onward(r, from) == Onward(text, from);
      SameLineNumbers(text, r, Onward(text, from), to);
    }
  }

  // Lines as they are written.

  /** A line end as it is written, in front of what follows it: a pair is not taken for two, nor two for a pair. */
  ghost predicate EndsLine(end: string, rest: string) {
    && end in {"\n", "\r", "\r\n", "\n\r"}
    && (|end| == 1 && rest != "" ==> rest[0] == end[0] || rest[0] !in {'\n', '\r'})
  }

  lemma WrittenEnd(text: string, e: nat, end: string)
    requires e + |end| <= |text| && text[e..e + |end|] == end && EndsLine(end, text[e + |end|..])
    ensures IsNewline(CharAt(text, e)) && AfterEnd(text, e) == e + |end|
  {
    assert text[e] == text[e..e + |end|][0];
    if |end| == 2 {
      assert text[e + 1] == text[e..e + 2][1];
    } else if e + 1 < |text| {
      assert text[e + 1] == text[e + 1..][0];
    }
  }

  /** A piece of a text: a line and its end. */
  datatype Piece = Piece(line: string, end: string)

  function Joined(pieces: seq<Piece>): string {
    if pieces == [] then "" else pieces[0].line + pieces[0].end + Joined(pieces[1..])
  }

  /** No line has a line end inside, and each is closed. */
  ghost predicate Closed(pieces: seq<Piece>, rest: string) {
    pieces == [] ||
    (&& (forall k :: 0 <= k < |pieces[0].line| ==> pieces[0].line[k] !in {'\n', '\r'})
     && EndsLine(pieces[0].end, Joined(pieces[1..]) + rest) && Closed(pieces[1..], rest))
  }

  /** The lines are numbered from one: the number of a position is one more than the pieces before it. */
  lemma LinesAre(pieces: seq<Piece>, rest: string, at: nat)
    requires Closed(pieces, rest) && at <= |rest| && forall k :: 0 <= k < at ==> rest[k] !in {'\n', '\r'}
    ensures var text, p := Joined(pieces) + rest, |Joined(pieces)| + at;
            LineOf(text, p) == |pieces| + 1 && Reaches(text, 0, p)
  {
    hide LineOf, Reaches, Closed, Joined;
    var text, start := Joined(pieces) + rest, |Joined(pieces)|;
    FirstNumber(text);
    assert text[0..] == text;
    PiecesFrom(text, 0, pieces, rest);
    PlainBehind(text, Joined(pieces), rest, at);
    LastLine(text, start, start + at);
  }

  lemma FirstNumber(text: string)
    ensures Reaches(text, 0, 0) && LineOf(text, 0) == 1
  {
  }

  lemma PlainBehind(text: string, before: string, rest: string, at: nat)
    requires text == before + rest && at <= |rest| && forall k :: 0 <= k < at ==> rest[k] !in {'\n', '\r'}
    ensures Plain(text, |before|, |before| + at)
  {
    forall k | |before| <= k < |before| + at ensures !IsNewline(CharAt(text, k)) {
      assert text[k] == rest[k - |before|];
    }
  }

  lemma {:induction false} PiecesFrom(text: string, from: nat, pieces: seq<Piece>, rest: string)
    requires Closed(pieces, rest) && from <= |text| && text[from..] == Joined(pieces) + rest && Reaches(text, 0, from)
    ensures Reaches(text, 0, from + |Joined(pieces)|)
    ensures LineOf(text, from + |Joined(pieces)|) == LineOf(text, from) + |pieces|
    decreases |pieces|
  {
    hide LineOf, Reaches;
    if pieces != [] {
      var line, end := pieces[0].line, pieces[0].end;
      var e, next := from + |line|, from + |line| + |end|;
      var others := Joined(pieces[1..]) + rest;
      assert text[from..] == line + end + others;
      assert text[e..next] == text[from..][|line|..|line| + |end|] == end;
      assert text[next..] == text[from..][|line| + |end|..] == others;
      forall k | from <= k < e
        ensures !IsNewline(CharAt(text, k))
      {
        assert text[k] == text[from..][k - from] == line[k - from]; 
      }
      WrittenEnd(text, e, end);
      NextLine(text, from, e);
      PiecesFrom(text, next, pieces[1..], rest);
    }
  }

  lemma {:induction false} CutAt(pieces: seq<Piece>, rest: string, k: nat)
    requires Closed(pieces, rest) && k <= |pieces|
    ensures Joined(pieces) == Joined(pieces[..k]) + Joined(pieces[k..])
    ensures Closed(pieces[..k], Joined(pieces[k..]) + rest)
    decreases k
  {
    hide EndsLine;
    if k == 0 {
      assert pieces[..0] == [] && pieces[0..] == pieces;
    } else {
      var front, back := pieces[..k], pieces[k..];
      CutAt(pieces[1..], rest, k - 1);
      assert pieces[1..][..k - 1] == front[1..] && pieces[1..][k - 1..] == back && front[0] == pieces[0];
      assert Joined(pieces[1..]) + rest == Joined(front[1..]) + (Joined(back) + rest);
      assert Joined(pieces) == (front[0].line + front[0].end) + (Joined(front[1..]) + Joined(back));
    }
  }

  /** In a text of lines, each closed, line `k` has number `k + 1`. */
  lemma LineNumbers(pieces: seq<Piece>, rest: string, k: nat)
    requires Closed(pieces, rest) && k <= |pieces|
    ensures LineOf(Joined(pieces) + rest, |Joined(pieces[..k])|) == k + 1
  {
    hide Closed, Joined, LineOf, Reaches;
    CutAt(pieces, rest, k);
    var front, back := Joined(pieces[..k]), Joined(pieces[k..]);
    assert front + (back + rest) == Joined(pieces) + rest;
    LinesAre(pieces[..k], back + rest, 0);
  }
}
