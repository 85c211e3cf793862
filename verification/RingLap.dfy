/**
  The one way the ring protocol fails: a thread that sleeps for a whole lap of the ring between
  its checks and its compare-exchange. For every ring length a run that ends so is exhibited.
 */
module RingLap {
  import opened RingState
  import opened RingInvariant
  import opened RingRuns
  import opened RingAlone
  import opened RingCalls

  /** The slot of a ticket just taken, filled with a text and marked ready. */
  function Filled(s: State, t: nat, k: nat, text: string): (r: State)
    requires s.Shape() && t < |s.th|
    ensures s.Fits(r)
  {
    MarkReady(PutText(PutText(MarkHeld(s, t, k), t, k, text, Fill(k)), t, k, Seal(text), SetReady(k)), t, k)
  }

  lemma FillAlone(s: State, t: nat, k: nat, text: string) returns (moves: seq<Move>)
    requires s.Shape() && t < |s.th| && s.th[t] == HoldMark(k)
    ensures Reaches(s, t, moves, Filled(s, t, k, text))
  {
    var a := MarkHeld(s, t, k);
    var b := PutText(a, t, k, text, Fill(k));
    var c := PutText(b, t, k, Seal(text), SetReady(k));
    var d := MarkReady(c, t, k);
    hide Seal;
    assert Step(s, t, Finish) == a;
    assert Step(a, t, Write(text)) == b;
    assert Step(b, t, Finish) == c by { assert b.TextOf(k) == text; }
    assert Step(c, t, Finish) == d;
    assert Guarded(s, t) && Guarded(a, t) && Guarded(b, t) && Guarded(c, t);
    hide Step, Guarded, Reaches, MarkHeld, PutText, MarkReady;
    ReachesTwo(s, t, Finish, Write(text));
    ReachesTwo(b, t, Finish, Finish);
    moves := [Move(t, Finish), Move(t, Write(text))] + [Move(t, Finish), Move(t, Finish)];
    ReachesTrans(s, t, [Move(t, Finish), Move(t, Write(text))], b, [Move(t, Finish), Move(t, Finish)], d);
  }

  lemma FilledIs(s: State, t: nat, k: nat, text: string)
    requires s.Shape() && t < |s.th|
    ensures var r := Filled(s, t, k, text);
            && r == s.(marks := r.marks, buf := r.buf, sent := r.sent, th := s.th[t := PubLoad])
            && r.MarkOf(k) == Ready && Closes(r.TextOf(k), text)
  {
    SealCloses(text);
    hide Seal, Slot, Closes;
  }

  /** An idle thread of a synchronous channel whose ring is empty logs one message, alone. */
  lemma LogAlone(s: State, t: nat, text: string) returns (moves: seq<Move>, r: State)
    requires Order(s) && s.sync && t < |s.th| && s.th[t].Idle? && s.read == s.hold
    ensures Reaches(s, t, moves, r) && r.th == s.th
    ensures r.hold == r.write == r.proc == r.read == s.hold + 1
    ensures |r.log| == |s.log| + 1 && r.log[..|s.log|] == s.log
    ensures r.log[|s.log|].ticket == s.hold && Closes(r.log[|s.log|].text, text)
  {
    var first, a := TakeAlone(s, t);
    var fill := FillAlone(a, t, s.hold, text);
    var b := Filled(a, t, s.hold, text);
    FilledIs(a, t, s.hold, text);
    hide Filled, Closes;
    var rest;
    rest, r := FinishAlone(b, t);
    assert r.th == s.th by { assert r.th == s.th[t := Idle]; assert s.th[t := Idle] == s.th; }
    hide Reaches;
    ReachesTrans(s, t, first, a, fill, b);
    ReachesTrans(s, t, first + fill, b, rest, r);
    moves := first + fill + rest;
  }

  lemma TakeAlone(s: State, t: nat) returns (moves: seq<Move>, r: State)
    requires Order(s) && t < |s.th| && s.th[t].Idle? && (s.sync || t != 0) && s.hold + 1 < s.read + s.n
    ensures r == TakeTicket(s, t) && Reaches(s, t, moves, r)
  {
    var a := s.To(t, HoldLoad);
    assert Step(s, t, Start) == a;
    ReachesOne(s, t, Start);
    var rest := TakeTicketAlone(a, t);
    r := TakeTicket(s, t);
    assert TakeTicket(a, t) == r;
    ReachesTrans(s, t, [Move(t, Start)], a, rest, r);
    moves := [Move(t, Start)] + rest;
  }

  /** The only ticket is published; the thread publishes, claims, dispatches and retires it. */
  lemma FinishAlone(s: State, t: nat) returns (moves: seq<Move>, r: State)
    requires Order(s) && s.sync && t < |s.th| && s.th[t].PubLoad? && s.MarkOf(s.write) == Ready
    requires s.read == s.proc == s.write && s.hold == s.write + 1
    ensures Reaches(s, t, moves, r) && r.th == s.th[t := Idle]
    ensures r.hold == r.write == r.proc == r.read == s.hold
    ensures r.log == s.log + [Entry(s.write, s.TextOf(s.write))]
  {
    var a := AdvanceWrite(s, t);
    var b := a.To(t, ProcLoad);
    var c := Processed(b, t);
    r := c.To(t, Idle);
    var m1 := AdvanceWriteAlone(s, t);
    var m2 := LeavePublishAlone(a, t);
    var m3 := ProcessAlone(b, t);
    ProcessedAtClaim(b, t);
    var m4 := LeaveClaimAlone(c, t);
    assert r.th == s.th[t := Idle];
    assert r.log == s.log + [Entry(s.write, s.TextOf(s.write))];
    hide Reaches, AdvanceWrite, Processed, State.To;
    ReachesTrans(s, t, m1, a, m2, b);
    ReachesTrans(s, t, m1 + m2, b, m3, c);
    ReachesTrans(s, t, m1 + m2 + m3, c, m4, r);
    moves := m1 + m2 + m3 + m4;
  }

  /** A guarded run, of any threads. */
  ghost predicate Leads(s: State, moves: seq<Move>, s': State) {
    Runnable(s, moves) && After(s, moves) == s' && GuardedRun(s, moves)
  }

  lemma LeadsTrans(s: State, a: seq<Move>, s': State, b: seq<Move>, s'': State)
    requires Leads(s, a, s') && Leads(s', b, s'')
    ensures Leads(s, a + b, s'')
  {
    AfterConcat(s, a, b);
  }

  /** Threads from `t` on are idle and each of them takes a ticket, as long as there is room. */
  lemma {:induction false} TakeMany(s: State, t: nat) returns (moves: seq<Move>, r: State)
    requires Order(s) && s.sync && t <= |s.th|
    requires forall u: nat :: t <= u < |s.th| ==> s.th[u].Idle?
    requires s.hold + (|s.th| - t) < s.read + s.n
    ensures Leads(s, moves, r) && Order(r) && r.hold == s.hold + (|s.th| - t) && r.read == s.read
    ensures |r.th| == |s.th| && forall u: nat :: u < t ==> r.th[u] == s.th[u]
    decreases |s.th| - t
  {
    if t == |s.th| {
      moves, r := [], s;
    } else {
      var first, a := TakeAlone(s, t);
      var rest;
      rest, r := TakeMany(a, t + 1);
      hide Order;
      moves := first + rest;
      LeadsTrans(s, first, a, rest, r);
    }
  }

  /** Thread 0 looks, and falls asleep right before its compare-exchange. */
  lemma LookAlone(s: State) returns (moves: seq<Move>)
    requires Order(s) && s.sync && |s.th| > 0 && s.th[0].Idle? && s.hold + 1 < s.read + s.n
    ensures Leads(s, moves, s.To(0, HoldCas(s.hold)))
  {
    var a, b, c := s.To(0, HoldLoad), s.To(0, HoldCheck(s.hold)), s.To(0, HoldCas(s.hold));
    SlotSuccessor(s.hold, s.n);
    FullCheck(s);
    assert Step(s, 0, Start) == a;
    assert Step(a, 0, Stay) == b by { assert a.To(0, HoldCheck(s.hold)) == b; }
    assert Step(b, 0, Stay) == c by { assert b.To(0, HoldCas(s.hold)) == c; }
    assert Guarded(s, 0) && Guarded(a, 0) && Guarded(b, 0);
    hide Step, Guarded, State.To, Order;
    ReachesTwo(s, 0, Start, Stay);
    ReachesOne(b, 0, Stay);
    moves := [Move(0, Start), Move(0, Stay)] + [Move(0, Stay)];
    ReachesTrans(s, 0, [Move(0, Start), Move(0, Stay)], b, [Move(0, Stay)], c);
  }

  /**
    For every ring length `n` there is a run of `n` threads in which each compare-exchange up to the last
    is justified, and the last one, made by a thread that slept for one lap, takes a ticket of a full ring:
    `hold` overtakes `read` by a whole ring, and the two stored indices become equal as if it were empty.
   */
  lemma LappedRun(n: nat) returns (moves: seq<Move>, s: State)
    requires n > 1
    ensures Leads(Initial(n, true, n), moves, s) && Good(s)
    ensures n > 0 && |s.th| == n && Lapped(s, 0) && !Guarded(s, 0)
    ensures var bad := Step(s, 0, Stay);
            !Inv(bad) && bad.hold == bad.read + n && Slot(bad.hold, n) == Slot(bad.read, n)
  {
    var i := Initial(n, true, n);
    InitialGood(n, true, n);
    var m1 := LookAlone(i);
    var a := i.To(0, HoldCas(0));
    var m2, b := LogAlone(a, 1, "");
    LeadsOrder(i, m1, a, m2, b);
    var m3;
    m3, s := TakeMany(b, 1);
    LeadsTrans(i, m1 + m2, b, m3, s);
    moves := m1 + m2 + m3;
    RunGood(i, moves);
    assert s.th[0] == HoldCas(0) && s.hold == n && s.read == 1;
    LappedStep(s);
  }

  lemma LeadsOrder(i: State, a: seq<Move>, s: State, b: seq<Move>, s': State)
    requires Good(i) && Leads(i, a, s) && Leads(s, b, s')
    ensures Leads(i, a + b, s') && Order(s')
  {
    LeadsTrans(i, a, s, b, s');
    RunGood(i, a + b);
  }

  lemma LappedStep(s: State)
    requires Good(s) && |s.th| > 0 && s.th[0] == HoldCas(0) && s.hold == s.n && s.read == 1
    ensures Lapped(s, 0) && !Guarded(s, 0)
    ensures var bad := Step(s, 0, Stay);
            !Inv(bad) && bad.hold == bad.read + s.n && Slot(bad.hold, s.n) == Slot(bad.read, s.n)
  {
    assert Slot(s.n, s.n) == 0 && Slot(0, s.n) == 0;
    SlotShift(1, s.n);
  }
}
