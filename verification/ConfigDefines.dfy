/**
  `define` and `var`: a name and what it stands for. The rest of the text is rewritten in place, without changing
  its length, before the lines behind are read.
 */
module ConfigDefines {
  import opened BitArrays
  import opened ConfigLines
  import opened ConfigLexer

  predicate IsValidName(c: char) { IsValidNameFirst(c) || '0' <= c <= '9' }

  predicate IsValidNameFirst(c: char) { 'a' <= c <= 'z' || 'A' <= c <= 'Z' || c == '_' }

  const SMALL_LETTERS: string := "abcdefghijklmnopqrstuvwxyz"
  const CAPITALS: string := "ABCDEFGHIJKLMNOPQRSTUVWXYZ"
  const NUMERALS: string := "0123456789"

  lemma LettersAre(c: char)
    ensures c in SMALL_LETTERS <==> 'a' <= c <= 'z'
    ensures c in CAPITALS <==> 'A' <= c <= 'Z'
    ensures c in NUMERALS <==> '0' <= c <= '9'
  {
  }

  /** The characters of each kind, one by one. */
  lemma CharactersAre(c: char)
    ensures IsNumber(c) <==> c in NUMERALS
    ensures IsValidNameFirst(c) <==> c in SMALL_LETTERS || c in CAPITALS || c in "_"
    ensures IsValidName(c) <==> c in SMALL_LETTERS || c in CAPITALS || c in "_" || c in NUMERALS
    ensures IsKeyChar(c) <==> c in SMALL_LETTERS || c in "_" || c in NUMERALS
    ensures IsBlank(c) <==> c in " \t\U{000b}\U{000c}"
    ensures IsLineBound(c) <==> c in "\0\r\n"
    ensures IsSoftLineBound(c) <==> c in "\0\r\n#"
  {
    LettersAre(c);
    hide SMALL_LETTERS, CAPITALS, NUMERALS;
  }

  // Replacing one name.

  /** Where to look: which key, what to put in its place, and at which ends no name may go on. */
  datatype Order = Order(key: string, val: string, pre: bool, suffix: bool) {
    predicate Fits() { key != "" && |val| == |key| }
  }

  predicate OccursAt(text: string, key: string, i: nat) {
    i + |key| <= |text| && text[i..i + |key|] == key
  }

  /** No name goes on before or behind the `n` characters at `i`, where that matters. */
  predicate AtBounds(text: string, o: Order, i: nat) {
    && (o.pre && 0 < i <= |text| ==> !IsValidName(text[i - 1]))
    && (o.suffix && i + |o.val| < |text| ==> !IsValidName(text[i + |o.val|]))
  }

  predicate Replaceable(text: string, o: Order, i: nat) {
    OccursAt(text, o.key, i) && AtBounds(text, o, i)
  }

  /** The first occurrence at or behind `i`; the length of the text if there is none. */
  function Find(text: string, key: string, i: nat): (j: nat)
    requires key != ""
    ensures j <= |text| && (j < |text| ==> i <= j && j + |key| <= |text| && OccursAt(text, key, j))
            && (OccursAt(text, key, i) ==> j <= i)
    decreases |text| - i
  {
    if i >= |text| then |text| else if OccursAt(text, key, i) then i else Find(text, key, i + 1)
  }

  lemma {:induction false} FindIs(text: string, key: string, i: nat)
    requires key != ""
    ensures var j := Find(text, key, i);
            forall k: nat :: i <= k && (k < j || j == |text|) ==> !OccursAt(text, key, k)
    decreases |text| - i
  {
    if i < |text| && !OccursAt(text, key, i) { FindIs(text, key, i + 1); }
  }

  function Put(text: string, i: nat, val: string): (r: string)
    requires i + |val| <= |text|
    ensures |r| == |text|
  {
    text[..i] + val + text[i + |val|..]
  }

  lemma PutIs(text: string, i: nat, val: string)
    requires i + |val| <= |text|
    ensures forall k :: 0 <= k < |text| ==> Put(text, i, val)[k] == if i <= k < i + |val| then val[k - i] else text[k]
  {
  }

  /** One round of the loop of PredefinedInplace. It goes on from the place of the replacement itself. */
  datatype Search = Going(text: string, i: nat) | Finished(text: string)

  function Round(text: string, i: nat, o: Order): (r: Search)
    requires o.Fits()
    ensures |r.text| == |text|
  {
    var j := Find(text, o.key, i);
    if j == |text| then Finished(text)
    else if AtBounds(text, o, j) then Going(Put(text, j, o.val), j)
    else Going(text, j + 1)
  }

  function Rounds(text: string, i: nat, o: Order, n: nat): Search
    requires o.Fits()
    decreases n
  {
    if n == 0 then Going(text, i)
    else
      var r := Round(text, i, o);
      if r.Finished? then r else Rounds(r.text, r.i, o, n - 1)
  }

  /** The value is the key itself, and there is something to replace: the loop finds the same place for ever. */
  ghost predicate Stuck(text: string, i: nat, o: Order) {
    o.val == o.key && exists k: nat :: i <= k && Replaceable(text, o, k)
  }

  /** A replacement is not found again, so the search gets on. */
  lemma Gone(text: string, j: nat, o: Order)
    requires o.Fits() && Replaceable(text, o, j)
    ensures o.val != o.key ==> !OccursAt(Put(text, j, o.val), o.key, j)
  {
    PutIs(text, j, o.val);
    var t := Put(text, j, o.val);
    assert t[j..j + |o.val|] == o.val;
  }

  /** What the loop leaves. */
  ghost function Rewrite(text: string, i: nat, o: Order): (r: string)
    requires o.Fits() && !Stuck(text, i, o)
    ensures |r| == |text|
    decreases |text| - i, if OccursAt(text, o.key, i) then 1 else 0
  {
    var j := Find(text, o.key, i);
    if j == |text| then text
    else if AtBounds(text, o, j) then
      FindIs(text, o.key, i);
      assert Replaceable(text, o, j);
      Gone(text, j, o);
      Rewrite(Put(text, j, o.val), j, o)
    else Rewrite(text, j + 1, o)
  }

  /** The places of the replacements. */
  ghost function Places(text: string, i: nat, o: Order): set<nat>
    requires o.Fits() && !Stuck(text, i, o)
    decreases |text| - i, if OccursAt(text, o.key, i) then 1 else 0
  {
    var j := Find(text, o.key, i);
    if j == |text| then {}
    else if AtBounds(text, o, j) then
      FindIs(text, o.key, i);
      assert Replaceable(text, o, j);
      Gone(text, j, o);
      {j} + Places(Put(text, j, o.val), j, o)
    else Places(text, j + 1, o)
  }

  lemma TurnPut(text: string, i: nat, o: Order)
    requires o.Fits() && !Stuck(text, i, o) && Find(text, o.key, i) < |text| && AtBounds(text, o, Find(text, o.key, i))
    ensures var j := Find(text, o.key, i);
            var t := Put(text, j, o.val);
            && Replaceable(text, o, j) && o.val != o.key && !OccursAt(t, o.key, j) && !Stuck(t, j, o) && |t| == |text|
            && Round(text, i, o) == Going(t, j)
            && Rewrite(text, i, o) == Rewrite(t, j, o) && Places(text, i, o) == {j} + Places(t, j, o)
  {
    var j := Find(text, o.key, i);
    FindIs(text, o.key, i);
    assert Replaceable(text, o, j);
    Gone(text, j, o);
    hide Put, OccursAt, Find, AtBounds;
  }

  lemma TurnSkip(text: string, i: nat, o: Order)
    requires o.Fits() && !Stuck(text, i, o) && Find(text, o.key, i) < |text| && !AtBounds(text, o, Find(text, o.key, i))
    ensures var j := Find(text, o.key, i);
            && !Stuck(text, j + 1, o) && Round(text, i, o) == Going(text, j + 1)
            && Rewrite(text, i, o) == Rewrite(text, j + 1, o) && Places(text, i, o) == Places(text, j + 1, o)
  {
    hide Put, OccursAt, AtBounds;
  }

  /** One turn of the two. */
  lemma Turn(text: string, i: nat, o: Order)
    requires o.Fits() && !Stuck(text, i, o)
    ensures var j := Find(text, o.key, i);
            if j == |text|
            then Round(text, i, o) == Finished(text) && Rewrite(text, i, o) == text && Places(text, i, o) == {}
            else if AtBounds(text, o, j) then
              var t := Put(text, j, o.val);
              && Replaceable(text, o, j) && i <= j && o.val != o.key && !OccursAt(t, o.key, j) && !Stuck(t, j, o)
              && |t| == |text|
              && Round(text, i, o) == Going(t, j)
              && Rewrite(text, i, o) == Rewrite(t, j, o) && Places(text, i, o) == {j} + Places(t, j, o)
            else
              && i <= j && !Stuck(text, j + 1, o) && Round(text, i, o) == Going(text, j + 1)
              && Rewrite(text, i, o) == Rewrite(text, j + 1, o) && Places(text, i, o) == Places(text, j + 1, o)
    ensures var j := Find(text, o.key, i); (OccursAt(text, o.key, i) ==> j <= i) && j <= |text|
  {
    var j := Find(text, o.key, i);
    if j < |text| {
      if AtBounds(text, o, j) { TurnPut(text, i, o); } else { TurnSkip(text, i, o); }
    }
    hide Put, AtBounds, Stuck;
  }

  /** The loop ends exactly unless it is stuck, and then with the rewritten text. */
  lemma {:induction false} RoundsEnd(text: string, i: nat, o: Order) returns (n: nat)
    requires o.Fits() && !Stuck(text, i, o)
    ensures Rounds(text, i, o, n) == Finished(Rewrite(text, i, o))
    decreases |text| - i, if OccursAt(text, o.key, i) then 1 else 0
  {
    hide Stuck, Replaceable, OccursAt, AtBounds, Put, Round, Rounds, Rewrite, Places, OnlyMade, MadeBy, Find;
    Turn(text, i, o);
    var j := Find(text, o.key, i);
    if j == |text| {
      RoundsOne(text, i, o, 0);
      n := 1;
    } else {
      var m;
      if AtBounds(text, o, j) { m := RoundsEnd(Put(text, j, o.val), j, o); } else { m := RoundsEnd(text, j + 1, o); }
      RoundsOne(text, i, o, m);
      n := m + 1;
    }
  }

  lemma RoundsOne(text: string, i: nat, o: Order, m: nat)
    requires o.Fits()
    ensures var r := Round(text, i, o);
            Rounds(text, i, o, m + 1) == if r.Finished? then r else Rounds(r.text, r.i, o, m)
  {
  }

  /** A round of a stuck loop changes nothing: it finds the key, and the key is what it puts there. */
  lemma StuckRound(text: string, i: nat, o: Order)
    requires o.Fits() && Stuck(text, i, o)
    ensures Round(text, i, o).Going? && Round(text, i, o).text == text && Stuck(text, Round(text, i, o).i, o)
  {
    FindIs(text, o.key, i);
    var j := Find(text, o.key, i);
    var k: nat :| i <= k && Replaceable(text, o, k);
    assert j <= k;
    if AtBounds(text, o, j) {
      assert text == text[..j] + text[j..j + |o.val|] + text[j + |o.val|..];
      assert Replaceable(text, o, j);
    } else {
      assert k != j;
    }
    hide AtBounds, OccursAt;
  }

  lemma {:induction false} StuckStays(text: string, i: nat, o: Order, n: nat)
    requires o.Fits() && Stuck(text, i, o)
    ensures Rounds(text, i, o, n).Going?
    decreases n
  {
    hide Stuck, Round;
    if n > 0 {
      StuckRound(text, i, o);
      StuckStays(text, Round(text, i, o).i, o, n - 1);
    }
  }

  lemma LoopEnds(text: string, i: nat, o: Order)
    requires o.Fits()
    ensures (exists n: nat :: Rounds(text, i, o, n).Finished?) <==> !Stuck(text, i, o)
  {
    if Stuck(text, i, o) {
      forall n: nat ensures !Rounds(text, i, o, n).Finished? { StuckStays(text, i, o, n); }
    } else {
      var n := RoundsEnd(text, i, o);
    }
  }

  // What a rewrite leaves alone.

  ghost predicate NoBound(s: string) { forall k :: 0 <= k < |s| ==> !IsLineBound(s[k]) }

  /** The lines stay, and so does everything before `from`. */
  ghost predicate Keeps(text: string, r: string, from: nat) {
    SameLines(text, r) && forall k :: 0 <= k < from && k < |text| ==> r[k] == text[k]
  }

  lemma KeepsOn(text: string, t: string, r: string, from: nat, j: nat)
    requires from <= j && Keeps(text, t, j) && Keeps(t, r, j)
    ensures Keeps(text, r, from)
  {
  }

  lemma {:induction false} RewriteKeeps(text: string, i: nat, o: Order)
    requires o.Fits() && !Stuck(text, i, o) && NoBound(o.key) && NoBound(o.val)
    ensures Keeps(text, Rewrite(text, i, o), i)
    decreases |text| - i, if OccursAt(text, o.key, i) then 1 else 0
  {
    Turn(text, i, o);
    var j := Find(text, o.key, i);
    if j == |text| {
      hide Rewrite;
    } else if AtBounds(text, o, j) {
      var t := Put(text, j, o.val);
      PutKeeps(text, j, o);
      hide *;
      RewriteKeeps(t, j, o);
      KeepsOn(text, t, Rewrite(t, j, o), i, j);
    } else {
      hide *;
      RewriteKeeps(text, j + 1, o);
      KeepsSelf(text, j + 1);
      KeepsOn(text, text, Rewrite(text, j + 1, o), i, j + 1);
    }
  }

  lemma KeepsSelf(text: string, from: nat)
    ensures Keeps(text, text, from)
  {
  }

  lemma PutKeeps(text: string, j: nat, o: Order)
    requires o.Fits() && OccursAt(text, o.key, j) && NoBound(o.key) && NoBound(o.val)
    ensures Keeps(text, Put(text, j, o.val), j)
  {
    PutIs(text, j, o.val);
    forall k | j <= k < j + |o.key| ensures !IsLineBound(text[k]) {
      assert text[k] == text[j..j + |o.key|][k - j];
    }
  }

  // What it replaces.

  /**
    Whatever is replaceable in `r` between `from` and `to` was made so by a replacement over or right behind
    its end.
   */
  ghost predicate OnlyMade(r: string, o: Order, from: nat, to: nat, places: set<nat>) {
    forall k: nat :: from <= k < to && Replaceable(r, o, k) ==> MadeBy(k, o, places)
  }

  ghost predicate MadeBy(k: nat, o: Order, places: set<nat>) {
    exists j: nat :: j in places && k < j <= k + |o.key|
  }

  lemma PutMakes(text: string, o: Order, from: nat, i: nat, j: nat, places: set<nat>)
    requires o.Fits() && OccursAt(text, o.key, j) && i <= j == Find(text, o.key, i)
    requires OnlyMade(text, o, from, i, places)
    ensures OnlyMade(Put(text, j, o.val), o, from, j, places + {j})
  {
    var t := Put(text, j, o.val);
    PutIs(text, j, o.val);
    FindIs(text, o.key, i);
    forall k: nat | from <= k < j && Replaceable(t, o, k) ensures MadeBy(k, o, places + {j}) {
      if j <= k + |o.key| {
        assert j in places + {j};
      } else {
        assert text[k..k + |o.key|] == t[k..k + |o.key|];
        assert Replaceable(text, o, k);
        assert !OccursAt(text, o.key, k) || k < i;
        var j0: nat :| j0 in places && k < j0 <= k + |o.key|;
        assert j0 in places + {j};
      }
    }
  }

  lemma {:induction false} RewriteMakes(text: string, i: nat, o: Order, from: nat, places: set<nat>)
    requires o.Fits() && !Stuck(text, i, o) && OnlyMade(text, o, from, i, places)
    ensures OnlyMade(Rewrite(text, i, o), o, from, |text|, places + Places(text, i, o))
    decreases |text| - i, if OccursAt(text, o.key, i) then 1 else 0
  {
    hide Stuck, Replaceable, OccursAt, AtBounds, Put, Round, Rounds, Rewrite, Places, OnlyMade, MadeBy, Find;
    Turn(text, i, o);
    var j := Find(text, o.key, i);
    if j == |text| {
      assert places + {} == places;
      SkipMakes(text, o, from, i, places, |text|);
    } else if AtBounds(text, o, j) {
      PutMakes(text, o, from, i, j, places);
      RewriteMakes(Put(text, j, o.val), j, o, from, places + {j});
      assert places + {j} + Places(Put(text, j, o.val), j, o) == places + Places(text, i, o);
    } else {
      SkipMakes(text, o, from, i, places, j + 1);
      RewriteMakes(text, j + 1, o, from, places);
    }
  }

  /** What the search passes over is not replaceable. */
  lemma SkipMakes(text: string, o: Order, from: nat, i: nat, places: set<nat>, to: nat)
    requires o.Fits() && OnlyMade(text, o, from, i, places)
    requires var j := Find(text, o.key, i); to == |text| == j || (j < |text| && to == j + 1 && !AtBounds(text, o, j))
    ensures OnlyMade(text, o, from, to, places)
  {
    FindIs(text, o.key, i);
    hide OccursAt, AtBounds, MadeBy;
    forall k: nat | from <= k < to && Replaceable(text, o, k) ensures MadeBy(k, o, places) {
      assert k < i;
    }
  }

  /**
    Every occurrence at its bounds behind `i` is replaced: one that is left was made by a replacement that
    covers its end or follows right behind it, for the search never goes back.
   */
  lemma LeftBehind(text: string, i: nat, o: Order, k: nat)
    requires o.Fits() && !Stuck(text, i, o) && i <= k && Replaceable(Rewrite(text, i, o), o, k)
    ensures MadeBy(k, o, Places(text, i, o))
  {
    RewriteMakes(text, i, o, i, {});
    assert {} + Places(text, i, o) == Places(text, i, o);
  }

  // What it leaves.

  predicate Covers(o: Order, j: nat, k: nat) { j <= k < j + |o.key| }

  /** The search only goes forward, and a place is inside the text. */
  lemma {:induction false} PlacesFrom(text: string, i: nat, o: Order)
    requires o.Fits() && !Stuck(text, i, o)
    ensures forall j :: j in Places(text, i, o) ==> i <= j && Find(text, o.key, i) <= j && j + |o.key| <= |text|
    decreases |text| - i, if OccursAt(text, o.key, i) then 1 else 0
  {
    hide Stuck, Replaceable, AtBounds, Put, Round, Rewrite, Places, Find;
    Turn(text, i, o);
    var j := Find(text, o.key, i);
    if j < |text| {
      if AtBounds(text, o, j) { PlacesFrom(Put(text, j, o.val), j, o); } else { PlacesFrom(text, j + 1, o); }
    }
  }

  /** Behind a replacement the search goes on for good. */
  lemma PlacesOn(text: string, j: nat, o: Order)
    requires o.Fits() && !Stuck(text, j, o) && !OccursAt(text, o.key, j)
    ensures forall j' :: j' in Places(text, j, o) ==> j < j' && j' + |o.key| <= |text|
  {
    hide Stuck, Places;
    PlacesFrom(text, j, o);
  }

  /** A character no replacement covers stays; any other is the one the last replacement over it has put there. */
  lemma {:induction false} RewriteIs(text: string, i: nat, o: Order, k: nat)
    requires o.Fits() && !Stuck(text, i, o) && k < |text|
    ensures (forall j :: j in Places(text, i, o) ==> !Covers(o, j, k)) ==> Rewrite(text, i, o)[k] == text[k]
    ensures forall j :: j in Places(text, i, o) && Covers(o, j, k)
                        && (forall j' :: j' in Places(text, i, o) && Covers(o, j', k) ==> j' <= j) ==>
                          Rewrite(text, i, o)[k] == o.val[k - j]
    decreases |text| - i, if OccursAt(text, o.key, i) then 1 else 0
  {
    hide Stuck, Replaceable, OccursAt, AtBounds, Put, Round, Rewrite, Places, Find;
    Turn(text, i, o);
    var j := Find(text, o.key, i);
    if j < |text| {
      if AtBounds(text, o, j) {
        var t := Put(text, j, o.val);
        PutIs(text, j, o.val);
        PlacesOn(t, j, o);
        RewriteIs(t, j, o, k);
        assert j in Places(text, i, o);
        assert forall j' :: j' in Places(t, j, o) ==> j' in Places(text, i, o);
      } else {
        RewriteIs(text, j + 1, o, k);
      }
    }
  }

  /** The value stands wherever no later replacement overlaps. */
  lemma ValueStands(text: string, i: nat, o: Order, j: nat)
    requires o.Fits() && !Stuck(text, i, o) && j in Places(text, i, o)
    requires forall j' :: j' in Places(text, i, o) && j < j' ==> j + |o.key| <= j'
    ensures OccursAt(Rewrite(text, i, o), o.val, j)
  {
    hide Stuck, Rewrite, Places, Find;
    PlacesFrom(text, i, o);
    var r := Rewrite(text, i, o);
    forall n | 0 <= n < |o.val| ensures r[j..j + |o.val|][n] == o.val[n] {
      assert Covers(o, j, j + n);
      RewriteIs(text, i, o, j + n);
    }
  }

  /** Two texts that agree around a place agree on whether the key can be replaced there. */
  lemma SameAround(text: string, r: string, o: Order, k: nat)
    requires o.Fits() && |r| == |text|
    requires forall n: nat :: n < |text| && k <= n + 1 && n <= k + |o.key| ==> r[n] == text[n]
    ensures Replaceable(r, o, k) <==> Replaceable(text, o, k)
  {
    if k + |o.key| <= |text| {
      assert r[k..k + |o.key|] == text[k..k + |o.key|];
    }
  }

  predicate IsWordChar(c: char) { c in SMALL_LETTERS || c in CAPITALS || c in NUMERALS || c in "_" }

  /** The key is written there, and where it matters no letter, digit or underscore touches it. */
  ghost predicate WordAt(text: string, o: Order, k: nat) {
    && k + |o.key| <= |text| && (forall n :: 0 <= n < |o.key| ==> text[k + n] == o.key[n])
    && (o.pre && k > 0 ==> !IsWordChar(text[k - 1]))
    && (o.suffix && k + |o.key| < |text| ==> !IsWordChar(text[k + |o.key|]))
  }

  lemma ReplaceableIs(text: string, o: Order, k: nat)
    requires o.Fits()
    ensures Replaceable(text, o, k) <==> WordAt(text, o, k)
  {
    if k + |o.key| <= |text| {
      var part := text[k..k + |o.key|];
      if part == o.key {
        forall n | 0 <= n < |o.key| ensures text[k + n] == o.key[n] { assert part[n] == text[k + n]; }
      }
      if forall n :: 0 <= n < |o.key| ==> text[k + n] == o.key[n] {
        forall n | 0 <= n < |o.key| ensures part[n] == o.key[n] { assert part[n] == text[k + n]; }
        assert part == o.key;
      }
      if k > 0 { CharactersAre(text[k - 1]); }
      if k + |o.key| < |text| { CharactersAre(text[k + |o.key|]); }
    }
    hide IsValidName, SMALL_LETTERS, CAPITALS, NUMERALS;
  }

  ghost predicate Isolated(k: nat, o: Order, places: set<nat>) {
    forall j :: j in places && j != k ==> j + |o.key| < k || k + |o.key| < j
  }

  lemma {:induction false} PlaceWas(text: string, i: nat, o: Order, k: nat)
    requires o.Fits() && !Stuck(text, i, o) && k in Places(text, i, o) && Isolated(k, o, Places(text, i, o))
    ensures i <= k && Replaceable(text, o, k)
    decreases |text| - i, if OccursAt(text, o.key, i) then 1 else 0
  {
    hide Stuck, Replaceable, OccursAt, AtBounds, Put, Round, Rewrite, Places, Find;
    Turn(text, i, o);
    var j := Find(text, o.key, i);
    assert j < |text|;
    if !AtBounds(text, o, j) {
      PlaceWas(text, j + 1, o, k);
    } else if k != j {
      var t := Put(text, j, o.val);
      PutIs(text, j, o.val);
      PlacesOn(t, j, o);
      assert j in Places(text, i, o);
      PlaceWas(t, j, o, k);
      SameAround(text, t, o, k);
    }
  }

  /** What is replaced: away from other replacements, exactly the occurrences at their bounds. */
  lemma PlacesAre(text: string, i: nat, o: Order, k: nat)
    requires o.Fits() && !Stuck(text, i, o) && Isolated(k, o, Places(text, i, o))
    ensures k in Places(text, i, o) <==> i <= k && WordAt(text, o, k)
  {
    hide Stuck, Replaceable, Rewrite, Places, Find, WordAt;
    ReplaceableIs(text, o, k);
    if k in Places(text, i, o) {
      PlaceWas(text, i, o, k);
    } else if i <= k && Replaceable(text, o, k) {
      var r := Rewrite(text, i, o);
      forall n: nat | n < |text| && k <= n + 1 && n <= k + |o.key| ensures r[n] == text[n] {
        RewriteIs(text, i, o, n);
      }
      SameAround(text, r, o, k);
      LeftBehind(text, i, o, k);
    }
  }

  /** Nothing is replaced exactly if there is nothing to replace; the text is the same then. */
  lemma NothingToReplace(text: string, i: nat, o: Order)
    requires o.Fits() && !Stuck(text, i, o)
    ensures Places(text, i, o) == {} <==> forall k: nat :: i <= k ==> !WordAt(text, o, k)
    ensures Places(text, i, o) == {} ==> Rewrite(text, i, o) == text
  {
    hide Stuck, Replaceable, Rewrite, Places, WordAt;
    if Places(text, i, o) == {} {
      forall k: nat | i <= k ensures !WordAt(text, o, k) { PlacesAre(text, i, o, k); }
      forall k: nat | k < |text| ensures Rewrite(text, i, o)[k] == text[k] { RewriteIs(text, i, o, k); }
    } else {
      SomethingReplaced(text, i, o);
      var k: nat :| i <= k && Replaceable(text, o, k);
      ReplaceableIs(text, o, k);
    }
  }

  /** The first replacement is one of what was written. */
  lemma {:induction false} SomethingReplaced(text: string, i: nat, o: Order)
    requires o.Fits() && !Stuck(text, i, o) && Places(text, i, o) != {}
    ensures exists k: nat :: i <= k && Replaceable(text, o, k)
    decreases |text| - i, if OccursAt(text, o.key, i) then 1 else 0
  {
    hide Stuck, Replaceable, OccursAt, AtBounds, Put, Round, Rewrite, Places, Find;
    Turn(text, i, o);
    var j := Find(text, o.key, i);
    if j < |text| && !AtBounds(text, o, j) { SomethingReplaced(text, j + 1, o); }
  }

  // The two kinds of lines.

  /** What becomes of a text: it is rewritten, or the line is refused, or the rewrite never ends. */
  datatype Defined = Changed(text: string) | Refused(error: Error) | Forever

  function Pad(val: string, n: nat): (r: string)
    requires |val| <= n
    ensures |r| == n && r[..|val|] == val && forall k :: |val| <= k < n ==> r[k] == ' '
    decreases n - |val|
  {
    if |val| == n then val else
      var r := Pad(val + " ", n);
      assert r[..|val|] == r[..|val| + 1][..|val|];
      r
  }

  /** PredefinedInplace. */
  ghost function Inplace(text: string, from: nat, key: string, val: string, pre: bool, suffix: bool): (d: Defined)
    requires key != ""
    ensures d.Refused? ==> d.error == TargetTooLong
  {
    if |val| > |key| then Refused(TargetTooLong) else
      var o := Order(key, Pad(val, |key|), pre, suffix);
      if Stuck(text, from, o) then Forever else Changed(Rewrite(text, from, o))
  }

  function IndexOf(s: string, c: char, i: nat): (j: nat)
    ensures j <= |s| && (i <= |s| ==> i <= j) && (j < |s| ==> s[j] == c)
    ensures forall k :: i <= k < j ==> s[k] != c
    decreases |s| - i
  {
    if i >= |s| then |s| else if s[i] == c then i else IndexOf(s, c, i + 1)
  }

  function PastBlanks(s: string, i: nat): (j: nat)
    requires i <= |s|
    ensures i <= j <= |s|
    decreases |s| - i
  {
    if i < |s| && IsBlank(s[i]) then PastBlanks(s, i + 1) else i
  }

  function TrimBack(s: string): (r: string)
    ensures r <= s && (r == "" || !IsBlank(r[|r| - 1]))
  {
    if s != "" && IsBlank(s[|s| - 1]) then TrimBack(s[..|s| - 1]) else s
  }

  /** PredefinedMacro: the name up to the first space, then its content. */
  ghost function Macro(text: string, from: nat, line: string): (d: Defined)
    ensures d.Refused? ==> d.error in {NotClosure, TargetTooLong}
  {
    var sep := IndexOf(line, ' ', 0);
    if sep == |line| || sep == 0 then Refused(NotClosure)
    else Inplace(text, from, line[..sep], line[PastBlanks(line, sep)..], true, true)
  }

  /** PredefinedVar: `name = value` between commas; a value keeps the blanks before it. */
  ghost function Variables(text: string, from: nat, line: string, offset: nat): (d: Defined)
    ensures d.Refused? ==> d.error in {IllegalVarValue, IllegalVarName, TargetTooLong}
    decreases |line| - offset
  {
    if offset >= |line| then Changed(text)
    else if line[offset] == ' ' || line[offset] == '\t' then Variables(text, from, line, offset + 1)
    else
      var dot, sep := IndexOf(line, ',', offset), IndexOf(line, '=', offset);
      if sep >= dot then Refused(IllegalVarValue)
      else
        var name, val := TrimBack(line[offset..sep]), TrimBack(line[sep + 1..dot]);
        if name == "" then Refused(TargetTooLong)
        else if !IsValidNameFirst(name[0]) then Refused(IllegalVarName)
        else
          match OneVariable(text, from, name, val)
          case Changed(t) => Variables(t, from, line, dot + 1)
          case other => other
  }

  /** One variable, first with its braces and then without. */
  ghost function OneVariable(text: string, from: nat, name: string, val: string): (d: Defined)
    ensures d.Refused? ==> d.error == TargetTooLong
  {
    match Inplace(text, from, "${" + name + "}", val, false, false)
    case Changed(t) => Inplace(t, from, "$" + name, val, false, true)
    case other => other
  }

  // All of them leave the lines alone, and everything before `from`.

  ghost predicate Kept(text: string, from: nat, d: Defined) {
    d.Changed? ==> Keeps(text, d.text, from)
  }

  lemma InplaceKeeps(text: string, from: nat, key: string, val: string, pre: bool, suffix: bool)
    requires key != "" && NoBound(key) && NoBound(val)
    ensures Kept(text, from, Inplace(text, from, key, val, pre, suffix))
  {
    if |val| <= |key| {
      var o := Order(key, Pad(val, |key|), pre, suffix);
      forall k | 0 <= k < |o.val| ensures !IsLineBound(o.val[k]) {
        if k < |val| { assert o.val[k] == o.val[..|val|][k]; }
      }
      if !Stuck(text, from, o) { RewriteKeeps(text, from, o); }
    }
  }

  lemma MacroKeeps(text: string, from: nat, line: string)
    requires NoBound(line)
    ensures Kept(text, from, Macro(text, from, line))
  {
    var sep := IndexOf(line, ' ', 0);
    if 0 < sep < |line| {
      InplaceKeeps(text, from, line[..sep], line[PastBlanks(line, sep)..], true, true);
    }
  }

  lemma VariableKeeps(text: string, from: nat, name: string, val: string)
    requires NoBound(name) && NoBound(val)
    ensures Kept(text, from, OneVariable(text, from, name, val))
  {
    InplaceKeeps(text, from, "${" + name + "}", val, false, false);
    match Inplace(text, from, "${" + name + "}", val, false, false)
    case Changed(t) => InplaceKeeps(t, from, "$" + name, val, false, true);
    case other =>
  }

  lemma {:induction false} VariablesKeep(text: string, from: nat, line: string, offset: nat)
    requires NoBound(line)
    ensures Kept(text, from, Variables(text, from, line, offset))
    decreases |line| - offset
  {
    hide OneVariable, NoBound, TrimBack, IsValidNameFirst;
    if offset < |line| {
      if line[offset] == ' ' || line[offset] == '\t' {
        VariablesKeep(text, from, line, offset + 1);
      } else {
        var dot, sep := IndexOf(line, ',', offset), IndexOf(line, '=', offset);
        if sep < dot {
          var name, val := TrimBack(line[offset..sep]), TrimBack(line[sep + 1..dot]);
          if name != "" && IsValidNameFirst(name[0]) {
            PartsKeep(line, offset, sep, name);
            PartsKeep(line, sep + 1, dot, val);
            VariableKeeps(text, from, name, val);
            match OneVariable(text, from, name, val)
            case Changed(t) => VariablesKeep(t, from, line, dot + 1);
            case other =>
          }
        }
      }
    }
  }

  lemma PartsKeep(line: string, lo: nat, hi: nat, part: string)
    requires NoBound(line) && lo <= hi <= |line| && part <= line[lo..hi]
    ensures NoBound(part)
  {
    forall k | 0 <= k < |part| ensures !IsLineBound(part[k]) {
      assert part[k] == line[lo..hi][k] == line[lo + k];
    }
  }

  // The loops.

  /** PredefinedInplace, for a rewrite that ends. */
  method ReplaceAll(text: string, from: nat, key: string, val: string, pre: bool, suffix: bool)
    returns (error: Error, r: string)
    requires key != "" && Inplace(text, from, key, val, pre, suffix) != Forever
    ensures Inplace(text, from, key, val, pre, suffix) == if error == NoError then Changed(r) else Refused(error)
    ensures |r| == |text|
  {
    r := text;
    if |val| > |key| {
      return TargetTooLong, r;
    }
    var padded := FillUp(val, |key|);
    hide Pad;
    r := ReplaceEach(text, from, Order(key, padded, pre, suffix));
    error := NoError;
  }

  method FillUp(val: string, n: nat) returns (padded: string)
    requires |val| <= n
    ensures padded == Pad(val, n)
  {
    padded := val;
    while |padded| < n
      invariant |padded| <= n && Pad(padded, n) == Pad(val, n)
    {
      padded := padded + " ";
    }
  }

  /** Its loop. */
  method ReplaceEach(text: string, from: nat, o: Order) returns (r: string)
    requires o.Fits() && !Stuck(text, from, o)
    ensures r == Rewrite(text, from, o) && |r| == |text|
  {
    hide Rewrite, Stuck, OccursAt, AtBounds, Put, Find, Places, Rounds, Round, Replaceable;
    r := text;
    var i := from;
    while true
      invariant |r| == |text| && !Stuck(r, i, o) && Rewrite(r, i, o) == Rewrite(text, from, o)
      decreases |text| - i, if OccursAt(r, o.key, i) then 1 else 0
    {
      Turn(r, i, o);
      var j := Find(r, o.key, i);
      if j == |r| {
        break;
      }
      i := j;
      if AtBounds(r, o, j) {
        r := Put(r, i, o.val);
      } else {
        i := i + 1;
      }
    }
  }

  /** PredefinedMacro, for a rewrite that ends. */
  method DefineMacro(text: string, from: nat, line: string) returns (error: Error, r: string)
    requires Macro(text, from, line) != Forever
    ensures Macro(text, from, line) == if error == NoError then Changed(r) else Refused(error)
    ensures |r| == |text|
  {
    r := text;
    var sep := IndexOf(line, ' ', 0);
    if sep == |line| {
      return NotClosure, r;
    }
    var symbol := line[..sep];
    if symbol == "" {
      return NotClosure, r;
    }
    ghost var first := sep;
    while sep < |line| && IsBlank(line[sep])
      invariant sep <= |line| && PastBlanks(line, sep) == PastBlanks(line, first)
    {
      sep := sep + 1;
    }
    error, r := ReplaceAll(text, from, symbol, line[sep..], true, true);
  }

  /** Meant to skip the blanks before a value; it tests the first character of the name instead. */
  method SkipBlanks(line: string, offset: nat, sep: nat, dot: nat) returns (r: nat)
    requires offset < |line|
    ensures r == if sep < dot && IsBlank(line[offset]) then dot else sep
  {
    r := sep;
    while r < dot && IsBlank(line[offset])
      invariant sep <= r && (r > sep ==> r <= dot && IsBlank(line[offset]))
    {
      r := r + 1;
    }
  }

  /** One variable of PredefinedVar. */
  method DefineVariable(text: string, from: nat, name: string, val: string) returns (error: Error, r: string)
    requires OneVariable(text, from, name, val) != Forever
    ensures OneVariable(text, from, name, val) == if error == NoError then Changed(r) else Refused(error)
    ensures |r| == |text|
  {
    hide Inplace;
    error, r := ReplaceAll(text, from, "${" + name + "}", val, false, false);
    if error == NoError {
      error, r := ReplaceAll(r, from, "$" + name, val, false, true);
    }
  }

  /** The next definition of a line, from its first character on. */
  method DefineNext(text: string, from: nat, line: string, offset: nat) returns (error: Error, r: string, next: nat)
    requires offset < |line| && line[offset] != ' ' && line[offset] != '\t'
             && Variables(text, from, line, offset) != Forever
    ensures next > offset && |r| == |text|
    ensures Variables(text, from, line, offset)
            == if error == NoError then Variables(r, from, line, next) else Refused(error)
  {
    hide OneVariable;
    r := text;
    var dot, sep := IndexOf(line, ',', offset), IndexOf(line, '=', offset);
    next := dot + 1;
    if sep >= dot {
      return IllegalVarValue, r, next;
    }
    var name := TrimBack(line[offset..sep]);
    if name == "" {
      return TargetTooLong, r, next;
    }
    if !IsValidNameFirst(name[0]) {
      return IllegalVarName, r, next;
    }
    assert name[0] == line[offset] && !IsBlank(line[offset]);
    sep := SkipBlanks(line, offset, sep + 1, dot);
    var val := TrimBack(line[sep..dot]);
    error, r := DefineVariable(r, from, name, val);
  }

  /** PredefinedVar, for rewrites that end. */
  method DefineVariables(text: string, from: nat, line: string) returns (error: Error, r: string)
    requires Variables(text, from, line, 0) != Forever
    ensures Variables(text, from, line, 0) == if error == NoError then Changed(r) else Refused(error)
    ensures |r| == |text|
  {
    r := text;
    var offset := 0;
    while offset < |line|
      invariant |r| == |text| && Variables(r, from, line, offset) == Variables(text, from, line, 0)
      decreases |line| - offset
    {
      if line[offset] == ' ' || line[offset] == '\t' {
        offset := offset + 1;
        continue;
      }
      error, r, offset := DefineNext(r, from, line, offset);
      if error != NoError {
        return;
      }
    }
    error := NoError;
  }

  lemma {:induction false} TrimGap(name: string, gap: string)
    requires name != "" && !IsBlank(name[|name| - 1]) && forall k :: 0 <= k < |gap| ==> IsBlank(gap[k])
    ensures TrimBack(name + gap) == name
    decreases |gap|
  {
    if gap == "" {
      assert name + gap == name;
    } else {
      var rest := gap[..|gap| - 1];
      assert (name + gap)[..|name + gap| - 1] == name + rest;
      TrimGap(name, rest);
    }
  }

  /** One definition of a var line as it is written, with blanks before it and before its equals sign. */
  datatype Definition = Definition(lead: string, name: string, gap: string, val: string) {
    predicate WellFormed() {
      && (forall k :: 0 <= k < |lead| ==> lead[k] in {' ', '\t'})
      && name != "" && IsValidNameFirst(name[0]) && !IsBlank(name[|name| - 1]) && '=' !in name && ',' !in name
      && (forall k :: 0 <= k < |gap| ==> IsBlank(gap[k])) && ',' !in val
    }

    function Text(): string { lead + name + gap + "=" + val }

    /** The value fits where `$name` stands, with the blanks before it but without those behind it. */
    predicate Fits() { |TrimBack(val)| <= |name| + 1 }
  }

  /** From `at` on the line is these definitions, with commas between them and perhaps one behind them. */
  ghost predicate Lists(line: string, at: nat, vs: seq<Definition>)
    decreases |vs|
  {
    if vs == [] then forall k :: at <= k < |line| ==> line[k] in {' ', '\t'}
    else
      var e := at + |vs[0].Text()|;
      && vs[0].WellFormed() && e <= |line| && line[at..e] == vs[0].Text() && (e == |line| || line[e] == ',')
      && Lists(line, e + 1, vs[1..])
  }

  ghost predicate AllFit(vs: seq<Definition>) { forall n :: 0 <= n < |vs| ==> vs[n].Fits() }

  lemma {:induction false} OverLead(text: string, from: nat, line: string, at: nat, to: nat)
    requires at <= to <= |line| && forall k :: at <= k < to ==> line[k] in {' ', '\t'}
    ensures Variables(text, from, line, at) == Variables(text, from, line, to)
    decreases |line| - at
  {
    hide OneVariable, TrimBack, IndexOf;
    if at < to { OverLead(text, from, line, at + 1, to); }
  }

  lemma IndexIs(s: string, c: char, i: nat, j: nat)
    requires i <= j <= |s| && (j < |s| ==> s[j] == c) && forall k :: i <= k < j ==> s[k] != c
    ensures IndexOf(s, c, i) == j
  {
    hide IndexOf;
  }

  /** Where the parts of a definition are, from the first character of its name on. */
  lemma PartsAt(line: string, at: nat, v: Definition, e: nat)
    requires v.WellFormed() && at <= e <= |line| && line[at..e] == v.name + v.gap + "=" + v.val
    requires e == |line| || line[e] == ','
    ensures var sep := at + |v.name| + |v.gap|;
            && sep < e && IndexOf(line, '=', at) == sep && IndexOf(line, ',', at) == e && line[at] == v.name[0]
            && TrimBack(line[at..sep]) == v.name && line[sep + 1..e] == v.val
  {
    hide TrimBack, IndexOf, IsValidNameFirst;
    var w := v.name + v.gap + "=" + v.val;
    var sep := at + |v.name| + |v.gap|;
    assert forall k :: at <= k < e ==> line[k] == line[at..e][k - at] == w[k - at];
    assert line[at..sep] == v.name + v.gap;
    assert line[sep + 1..e] == v.val;
    TrimGap(v.name, v.gap);
    forall k | at <= k < e ensures line[k] != ',' {
      if k == sep { assert w[k - at] == '='; }
    }
    IndexIs(line, '=', at, sep);
    IndexIs(line, ',', at, e);
  }

  /** A definition is put in force, and then the rest of the line is read. */
  lemma DefinitionAt(text: string, from: nat, line: string, at: nat, v: Definition, e: nat)
    requires v.WellFormed() && at <= e <= |line| && line[at..e] == v.Text() && (e == |line| || line[e] == ',')
    ensures var d := OneVariable(text, from, v.name, TrimBack(v.val));
            Variables(text, from, line, at) == if d.Changed? then Variables(d.text, from, line, e + 1) else d
  {
    var to := at + |v.lead|;
    hide TrimBack, OneVariable, IndexOf, Variables;
    forall k | at <= k < to ensures line[k] in {' ', '\t'} {
      assert line[k] == line[at..e][k - at] == v.lead[k - at];
    }
    OverLead(text, from, line, at, to);
    assert line[to..e] == line[at..e][|v.lead|..] == v.name + v.gap + "=" + v.val;
    PartsAt(line, to, v, e);
    FirstPart(text, from, line, to, v.name, v.val, to + |v.name| + |v.gap|, e);
  }

  lemma FirstPart(text: string, from: nat, line: string, at: nat, name: string, val: string, sep: nat, dot: nat)
    requires at < |line| && IsValidNameFirst(line[at]) && name != "" && name[0] == line[at]
    requires IndexOf(line, '=', at) == sep < dot == IndexOf(line, ',', at)
    requires TrimBack(line[at..sep]) == name && line[sep + 1..dot] == val
    ensures var d := OneVariable(text, from, name, TrimBack(val));
            Variables(text, from, line, at) == if d.Changed? then Variables(d.text, from, line, dot + 1) else d
  {
    hide TrimBack, OneVariable, IndexOf;
  }

  /** A definition of a name is refused exactly if the value does not fit, unless a rewrite never ends. */
  lemma OneFits(text: string, from: nat, v: Definition)
    ensures var d := OneVariable(text, from, v.name, TrimBack(v.val));
            d == Forever || (if v.Fits() then d.Changed? else d == Refused(TargetTooLong))
  {
    hide Stuck, Rewrite, TrimBack;
  }

  lemma {:induction false} ListedAccepted(text: string, from: nat, line: string, at: nat, vs: seq<Definition>)
    requires Lists(line, at, vs)
    ensures var d := Variables(text, from, line, at);
            d == Forever || (if AllFit(vs) then d.Changed? else d == Refused(TargetTooLong))
    decreases |vs|
  {
    hide OneVariable, TrimBack, Variables;
    if vs == [] {
      if at < |line| { OverLead(text, from, line, at, |line|); }
      PastLine(text, from, line, if at < |line| then |line| else at);
    } else {
      var v, e := vs[0], at + |vs[0].Text()|;
      DefinitionAt(text, from, line, at, v, e);
      OneFits(text, from, v);
      var d := OneVariable(text, from, v.name, TrimBack(v.val));
      if d.Changed? { ListedAccepted(d.text, from, line, e + 1, vs[1..]); }
      assert AllFit(vs) <==> v.Fits() && AllFit(vs[1..]) by {
        if v.Fits() && AllFit(vs[1..]) {
          forall n | 0 <= n < |vs| ensures vs[n].Fits() { if n > 0 { assert vs[n] == vs[1..][n - 1]; } }
        }
      }
    }
  }

  lemma PastLine(text: string, from: nat, line: string, at: nat)
    requires at >= |line|
    ensures Variables(text, from, line, at) == Changed(text)
  {
  }

  /** Whatever is accepted is such a list. */
  lemma {:induction false} AcceptedListed(text: string, from: nat, line: string, at: nat) returns (vs: seq<Definition>)
    requires Variables(text, from, line, at).Changed?
    ensures Lists(line, at, vs)
    decreases |line| - at
  {
    hide OneVariable, TrimBack;
    if at >= |line| {
      vs := [];
    } else if line[at] == ' ' || line[at] == '\t' {
      vs := AcceptedListed(text, from, line, at + 1);
      vs := Indented(line, at, vs);
    } else {
      var e, sep := IndexOf(line, ',', at), IndexOf(line, '=', at);
      var name := TrimBack(line[at..sep]);
      NextAccepted(text, from, line, at, sep, e, name);
      hide Variables, IndexOf;
      PartIsWellFormed(line, at, sep, e, name);
      var v := Definition("", name, line[at + |name|..sep], line[sep + 1..e]);
      var rest := AcceptedListed(OneVariable(text, from, name, TrimBack(v.val)).text, from, line, e + 1);
      vs := [v] + rest;
      assert vs[1..] == rest;
    }
  }

  lemma NextAccepted(text: string, from: nat, line: string, at: nat, sep: nat, e: nat, name: string)
    requires Variables(text, from, line, at).Changed? && at < |line| && line[at] != ' ' && line[at] != '\t'
    requires e == IndexOf(line, ',', at) && sep == IndexOf(line, '=', at) && name == TrimBack(line[at..sep])
    ensures at <= sep < e <= |line| && name != "" && IsValidNameFirst(name[0])
    ensures var d := OneVariable(text, from, name, TrimBack(line[sep + 1..e]));
            d.Changed? && Variables(d.text, from, line, e + 1).Changed?
  {
    hide OneVariable, TrimBack, IndexOf, IsValidNameFirst;
  }

  lemma Indented(line: string, at: nat, vs: seq<Definition>) returns (ws: seq<Definition>)
    requires at < |line| && line[at] in {' ', '\t'} && Lists(line, at + 1, vs)
    ensures Lists(line, at, ws)
  {
    if vs == [] {
      ws := [];
    } else {
      var v := vs[0].(lead := [line[at]] + vs[0].lead);
      var e := at + 1 + |vs[0].Text()|;
      assert line[at..e] == [line[at]] + line[at + 1..e] == v.Text();
      ws := [v] + vs[1..];
      assert ws[1..] == vs[1..];
    }
  }

  lemma PartIsWellFormed(line: string, at: nat, sep: nat, e: nat, name: string)
    requires at <= sep < e <= |line| && IndexOf(line, '=', at) == sep && IndexOf(line, ',', at) == e
    requires name == TrimBack(line[at..sep]) && name != "" && IsValidNameFirst(name[0])
    ensures at + |name| <= sep
    ensures var v := Definition("", name, line[at + |name|..sep], line[sep + 1..e]);
            v.WellFormed() && v.Text() == line[at..e]
  {
    hide IndexOf, IsValidNameFirst, IsBlank;
    TrimmedAreBlank(line[at..sep]);
    hide TrimBack;
    Cut(line, at, at + |name|, sep, e);
    assert name == line[at..sep][..|name|] == line[at..at + |name|];
    var gap := line[at + |name|..sep];
    forall k | 0 <= k < |gap| ensures IsBlank(gap[k]) {
      assert gap[k] == line[at..sep][|name| + k];
    }
  }

  lemma Cut(line: string, at: nat, mid: nat, sep: nat, e: nat)
    requires at <= mid <= sep < e <= |line|
    ensures line[at..e] == line[at..mid] + line[mid..sep] + [line[sep]] + line[sep + 1..e]
  {
  }

  lemma {:induction false} TrimmedAreBlank(s: string)
    ensures forall k :: |TrimBack(s)| <= k < |s| ==> IsBlank(s[k])
    decreases |s|
  {
    if s != "" && IsBlank(s[|s| - 1]) {
      TrimmedAreBlank(s[..|s| - 1]);
      assert forall k :: 0 <= k < |s| - 1 ==> s[k] == s[..|s| - 1][k];
    }
  }

  /**
    The blanks before a value count: a var line is accepted exactly if it is a list of definitions each of whose
    values, from the equals sign on, is at most one character longer than its name; unless a rewrite never ends.
   */
  lemma BlanksCount(text: string, from: nat, line: string)
    ensures var d := Variables(text, from, line, 0);
            d == Forever || (d.Changed? <==> exists vs: seq<Definition> :: Lists(line, 0, vs) && AllFit(vs))
    ensures forall vs: seq<Definition> :: Lists(line, 0, vs) && !AllFit(vs) ==>
              Variables(text, from, line, 0) in {Forever, Refused(TargetTooLong)}
  {
    hide Variables, Lists, AllFit;
    forall vs: seq<Definition> | Lists(line, 0, vs)
      ensures var d := Variables(text, from, line, 0);
              d == Forever || (if AllFit(vs) then d.Changed? else d == Refused(TargetTooLong))
    {
      ListedAccepted(text, from, line, 0, vs);
    }
    if Variables(text, from, line, 0).Changed? {
      var vs := AcceptedListed(text, from, line, 0);
    }
  }

  // When a rewrite never ends.

  lemma PadsItself(key: string, val: string)
    requires |val| <= |key| && key != "" && key[|key| - 1] != ' '
    ensures Pad(val, |key|) == key <==> val == key
  {
    hide Pad;
    assert |val| < |key| ==> Pad(val, |key|)[|key| - 1] == ' ';
  }

  lemma InplaceForever(text: string, from: nat, key: string, val: string, pre: bool, suffix: bool)
    requires key != "" && key[|key| - 1] != ' '
    ensures Inplace(text, from, key, val, pre, suffix) == Forever
       <==> val == key && exists k: nat :: from <= k && WordAt(text, Order(key, key, pre, suffix), k)
  {
    hide Pad, Rewrite, Replaceable, WordAt;
    var o := Order(key, key, pre, suffix);
    if k: nat :| from <= k && WordAt(text, o, k) { ReplaceableIs(text, o, k); }
    if k: nat :| from <= k && Replaceable(text, o, k) { ReplaceableIs(text, o, k); }
    if |val| <= |key| { PadsItself(key, val); }
  }

  /**
    A define line: a name, a space, perhaps more blanks, and the content. Content that is longer than the name is
    refused; any other is filled up with spaces and put in the place of the name, where that stands as a word.
   */
  lemma DefineIs(text: string, from: nat, name: string, gap: string, content: string)
    requires name != "" && ' ' !in name && (forall k :: 0 <= k < |gap| ==> IsBlank(gap[k]))
    requires content != "" ==> !IsBlank(content[0])
    ensures var d := Macro(text, from, name + " " + gap + content);
            if |content| > |name| then d == Refused(TargetTooLong)
            else
              var o := Order(name, Pad(content, |name|), true, true);
              if Stuck(text, from, o) then d == Forever else d == Changed(Rewrite(text, from, o))
  {
    hide Stuck, Rewrite, Pad, IsBlank, IndexOf;
    var line := name + " " + gap + content;
    forall k | 0 <= k < |name| ensures line[k] != ' ' { assert line[k] == name[k]; }
    IndexIs(line, ' ', 0, |name|);
    assert line[|name|] == ' ' && line[..|name|] == name;
    var to := |name| + 1 + |gap|;
    assert line[to..] == content;
    forall k | |name| <= k < to ensures IsBlank(line[k]) {
      if k == |name| { SpaceIsBlank(); } else { assert line[k] == gap[k - |name| - 1]; }
    }
    assert to < |line| ==> line[to] == content[0];
    PastBlanksIs(line, |name|, to);
  }

  lemma SpaceIsBlank()
    ensures IsBlank(' ')
  {
  }

  lemma {:induction false} PastBlanksIs(s: string, i: nat, to: nat)
    requires i <= to <= |s| && (forall k :: i <= k < to ==> IsBlank(s[k])) && (to < |s| ==> !IsBlank(s[to]))
    ensures PastBlanks(s, i) == to
    decreases |s| - i
  {
    if i < to { PastBlanksIs(s, i + 1, to); }
  }

  /** A define line without a space behind a name is refused. */
  lemma NoDefinition(text: string, from: nat, line: string)
    ensures Macro(text, from, line) == Refused(NotClosure) <==> line == "" || line[0] == ' ' || ' ' !in line
  {
    hide Stuck, Rewrite, Pad;
    var sep := IndexOf(line, ' ', 0);
    if ' ' in line { assert sep < |line|; }
    if line != "" && line[0] == ' ' { assert sep == 0; }
  }

  /** A define never ends exactly if it defines a name as itself and the name is used behind it. */
  lemma MacroForever(text: string, from: nat, line: string)
    ensures Macro(text, from, line) == Forever
       <==> var sep := IndexOf(line, ' ', 0);
            && 0 < sep < |line| && line[..sep] == line[PastBlanks(line, sep)..]
            && exists k: nat :: from <= k && WordAt(text, Order(line[..sep], line[..sep], true, true), k)
  {
    hide Inplace, WordAt, IndexOf, PastBlanks;
    var sep := IndexOf(line, ' ', 0);
    if 0 < sep < |line| {
      InplaceForever(text, from, line[..sep], line[PastBlanks(line, sep)..], true, true);
    }
  }

  /** So does a variable that has one of its own two uses as its value, if that use is left to be replaced. */
  lemma VariableForever(text: string, from: nat, name: string, val: string)
    requires name != "" && !IsBlank(name[|name| - 1])
    ensures var braced, plain := "${" + name + "}", "$" + name;
            var first := Inplace(text, from, braced, val, false, false);
            OneVariable(text, from, name, val) == Forever <==>
              || (val == braced
                  && exists k: nat :: from <= k && WordAt(text, Order(braced, braced, false, false), k))
              || (first.Changed? && val == plain
                  && exists k: nat :: from <= k && WordAt(first.text, Order(plain, plain, false, true), k))
  {
    hide Inplace, WordAt;
    InplaceForever(text, from, "${" + name + "}", val, false, false);
    var first := Inplace(text, from, "${" + name + "}", val, false, false);
    if first.Changed? { InplaceForever(first.text, from, "$" + name, val, false, true); }
  }
}
