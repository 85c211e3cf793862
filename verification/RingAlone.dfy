/** What a thread achieves when the others stand still: a whole message, or draining the ring. */
module RingAlone {
  import opened RingState
  import opened RingInvariant
  import opened RingRuns

  lemma {:induction false} AfterConcat(s: State, a: seq<Move>, b: seq<Move>)
    requires Runnable(s, a) && Runnable(s, b)
    ensures Runnable(s, a + b) && After(s, a + b) == After(After(s, a), b)
    ensures GuardedRun(s, a) && GuardedRun(After(s, a), b) ==> GuardedRun(s, a + b)
    decreases |a|
  {
    if a == [] {
      assert a + b == b;
    } else {
      var s' := Step(s, a[0].t, a[0].c);
      AfterConcat(s', a[1..], b);
      assert (a + b)[1..] == a[1..] + b;
      assert (a + b)[0] == a[0];
    }
  }

  /** The moves, all of them of `t`, lead from `s` to `s'` by guarded steps. */
  ghost predicate Reaches(s: State, t: nat, moves: seq<Move>, s': State) {
    && Runnable(s, moves) && After(s, moves) == s' && GuardedRun(s, moves)
    && t < |s.th| && forall i :: 0 <= i < |moves| ==> moves[i].t == t
  }

  lemma ReachesTrans(s: State, t: nat, a: seq<Move>, s': State, b: seq<Move>, s'': State)
    requires Reaches(s, t, a, s') && Reaches(s', t, b, s'')
    ensures Reaches(s, t, a + b, s'')
  {
    AfterConcat(s, a, b);
  }

  lemma ReachesOne(s: State, t: nat, c: Choice)
    requires s.Shape() && t < |s.th| && Guarded(s, t)
    ensures Reaches(s, t, [Move(t, c)], Step(s, t, c))
  {
    var moves := [Move(t, c)];
    assert moves[0].t == t && moves[0].c == c && moves[1..] == [];
    hide Step, Guarded;
    assert Runnable(s, moves);
    assert Runnable(Step(s, t, c), moves[1..]);
    assert After(Step(s, t, c), moves[1..]) == Step(s, t, c);
    assert After(s, moves) == Step(s, t, c);
    assert GuardedRun(Step(s, t, c), moves[1..]);
    assert GuardedRun(s, moves);
  }

  lemma ReachesTwo(s: State, t: nat, c: Choice, d: Choice)
    requires s.Shape() && t < |s.th| && Guarded(s, t) && Guarded(Step(s, t, c), t)
    ensures Reaches(s, t, [Move(t, c), Move(t, d)], Step(Step(s, t, c), t, d))
  {
    hide Step, Guarded;
    ReachesOne(s, t, c);
    ReachesOne(Step(s, t, c), t, d);
    ReachesTrans(s, t, [Move(t, c)], Step(s, t, c), [Move(t, d)], Step(Step(s, t, c), t, d));
    assert [Move(t, c)] + [Move(t, d)] == [Move(t, c), Move(t, d)];
  }

  // The loops of the source, one compare-exchange at a time: load, check, test, exchange.

  lemma TakeTicketAlone(s: State, t: nat) returns (moves: seq<Move>)
    requires Order(s) && t < |s.th| && s.th[t].HoldLoad? && s.hold + 1 < s.read + s.n
    ensures Reaches(s, t, moves, TakeTicket(s, t))
  {
    var a, b := s.To(t, HoldCheck(s.hold)), s.To(t, HoldCas(s.hold));
    SlotSuccessor(s.hold, s.n);
    FullCheck(s);
    assert Step(s, t, Stay) == a;
    assert Step(a, t, Stay) == b by { assert a.To(t, HoldCas(s.hold)) == b; }
    assert Step(b, t, Stay) == TakeTicket(s, t) by { assert TakeTicket(b, t) == TakeTicket(s, t); }
    assert Guarded(s, t) && Guarded(a, t) && Guarded(b, t);
    hide Step, Guarded, Reaches, State.To, Order;
    ReachesTwo(s, t, Stay, Stay);
    ReachesOne(b, t, Stay);
    moves := [Move(t, Stay), Move(t, Stay)] + [Move(t, Stay)];
    ReachesTrans(s, t, [Move(t, Stay), Move(t, Stay)], b, [Move(t, Stay)], TakeTicket(s, t));
  }

  lemma FullCheck(s: State)
    requires Order(s) && s.hold + 1 < s.read + s.n
    ensures Slot(s.hold + 1, s.n) != Slot(s.read, s.n)
  {
    SlotInjective(s.read, s.hold + 1, s.n);
  }

  lemma PublishLooks(s: State, t: nat) returns (moves: seq<Move>)
    requires Order(s) && t < |s.th| && s.th[t].PubLoad? && s.write < s.hold
    ensures Reaches(s, t, moves, s.To(t, PubTest(s.write)))
  {
    var a, b := s.To(t, PubCheck(s.write)), s.To(t, PubTest(s.write));
    SlotInjective(s.write, s.hold, s.n);
    hide Slot;
    assert Step(s, t, Stay) == a;
    assert Step(a, t, Stay) == b by { assert a.To(t, PubTest(s.write)) == b; }
    assert Guarded(s, t) && Guarded(a, t);
    hide Step, Guarded, Reaches, State.To, Order;
    ReachesTwo(s, t, Stay, Stay);
    moves := [Move(t, Stay), Move(t, Stay)];
  }

  lemma PublishExchanges(s: State, t: nat) returns (moves: seq<Move>)
    requires s.Shape() && t < |s.th| && s.th[t] == PubTest(s.write) && s.write < s.hold && s.MarkOf(s.write) == Ready
    ensures Reaches(s, t, moves, AdvanceWrite(s, t))
  {
    var c := s.To(t, PubCas(s.write));
    hide Slot, Reaches;
    assert Step(s, t, Stay) == c;
    assert Step(c, t, Stay) == AdvanceWrite(s, t) by { assert AdvanceWrite(c, t) == AdvanceWrite(s, t); }
    assert Guarded(s, t) && Guarded(c, t);
    hide Step, Guarded, State.To;
    ReachesTwo(s, t, Stay, Stay);
    moves := [Move(t, Stay), Move(t, Stay)];
  }

  lemma AdvanceWriteAlone(s: State, t: nat) returns (moves: seq<Move>)
    requires Order(s) && t < |s.th| && s.th[t].PubLoad? && s.write < s.hold && s.MarkOf(s.write) == Ready
    ensures Reaches(s, t, moves, AdvanceWrite(s, t))
  {
    var b := s.To(t, PubTest(s.write));
    var looks := PublishLooks(s, t);
    var exchanges := PublishExchanges(b, t);
    assert AdvanceWrite(b, t) == AdvanceWrite(s, t);
    hide Reaches;
    moves := looks + exchanges;
    ReachesTrans(s, t, looks, b, exchanges, AdvanceWrite(s, t));
  }

  lemma LeavePublishAlone(s: State, t: nat) returns (moves: seq<Move>)
    requires s.Shape() && t < |s.th| && s.th[t].PubLoad? && s.write == s.hold
    ensures Reaches(s, t, moves, s.To(t, AfterPublish(s)))
  {
    var a := s.To(t, PubCheck(s.write));
    assert Step(s, t, Stay) == a;
    assert Step(a, t, Stay) == s.To(t, AfterPublish(s)) by {
      assert a.To(t, AfterPublish(s)) == s.To(t, AfterPublish(s));
    }
    assert Guarded(s, t) && Guarded(a, t);
    hide Step, Guarded, Reaches, State.To;
    ReachesTwo(s, t, Stay, Stay);
    moves := [Move(t, Stay), Move(t, Stay)];
  }

  lemma ClaimAlone(s: State, t: nat) returns (moves: seq<Move>)
    requires Order(s) && t < |s.th| && s.th[t].ProcLoad? && s.proc < s.write
    ensures Reaches(s, t, moves, ClaimTicket(s, t))
  {
    var a, b := s.To(t, ProcCheck(s.proc)), s.To(t, ProcCas(s.proc));
    SlotInjective(s.proc, s.write, s.n);
    hide Slot;
    assert Step(s, t, Stay) == a;
    assert Step(a, t, Stay) == b by { assert a.To(t, ProcCas(s.proc)) == b; }
    assert Step(b, t, Stay) == ClaimTicket(s, t) by { assert ClaimTicket(b, t) == ClaimTicket(s, t); }
    assert Guarded(s, t) && Guarded(a, t) && Guarded(b, t);
    hide Step, Guarded, Reaches, State.To, Order;
    ReachesTwo(s, t, Stay, Stay);
    ReachesOne(b, t, Stay);
    moves := [Move(t, Stay), Move(t, Stay)] + [Move(t, Stay)];
    ReachesTrans(s, t, [Move(t, Stay), Move(t, Stay)], b, [Move(t, Stay)], ClaimTicket(s, t));
  }

  lemma LeaveClaimAlone(s: State, t: nat) returns (moves: seq<Move>)
    requires s.Shape() && t < |s.th| && s.th[t].ProcLoad? && s.proc == s.write
    ensures Reaches(s, t, moves, s.To(t, Idle))
  {
    var a := s.To(t, ProcCheck(s.proc));
    assert Step(s, t, Stay) == a;
    assert Step(a, t, Stay) == s.To(t, Idle) by { assert a.To(t, Idle) == s.To(t, Idle); }
    assert Guarded(s, t) && Guarded(a, t);
    hide Step, Guarded, Reaches, State.To;
    ReachesTwo(s, t, Stay, Stay);
    moves := [Move(t, Stay), Move(t, Stay)];
  }

  lemma DispatchAlone(s: State, t: nat, k: nat) returns (moves: seq<Move>)
    requires s.Shape() && t < |s.th| && s.th[t] == Dispatch(k)
    ensures Reaches(s, t, moves, ClearMark(DispatchText(s, t, k), t, k))
  {
    var a := DispatchText(s, t, k);
    assert Step(s, t, Stay) == a;
    assert Step(a, t, Stay) == ClearMark(a, t, k);
    assert Guarded(s, t) && Guarded(a, t);
    hide Step, Guarded, Reaches, DispatchText, ClearMark;
    ReachesTwo(s, t, Stay, Stay);
    moves := [Move(t, Stay), Move(t, Stay)];
  }

  lemma RetireLooks(s: State, t: nat) returns (moves: seq<Move>)
    requires Order(s) && t < |s.th| && s.th[t].RetLoad? && s.read < s.proc
    ensures Reaches(s, t, moves, s.To(t, RetTest(s.read)))
  {
    var a, b := s.To(t, RetCheck(s.read)), s.To(t, RetTest(s.read));
    SlotInjective(s.read, s.proc, s.n);
    hide Slot;
    assert Step(s, t, Stay) == a;
    assert Step(a, t, Stay) == b by { assert a.To(t, RetTest(s.read)) == b; }
    assert Guarded(s, t) && Guarded(a, t);
    hide Step, Guarded, Reaches, State.To, Order;
    ReachesTwo(s, t, Stay, Stay);
    moves := [Move(t, Stay), Move(t, Stay)];
  }

  lemma RetireExchanges(s: State, t: nat) returns (moves: seq<Move>)
    requires s.Shape() && t < |s.th| && s.th[t] == RetTest(s.read) && s.read < s.proc && s.MarkOf(s.read) == Invalid
    ensures Reaches(s, t, moves, AdvanceRead(s, t))
  {
    var c := s.To(t, RetCas(s.read));
    hide Slot, Reaches;
    assert Step(s, t, Stay) == c;
    assert Step(c, t, Stay) == AdvanceRead(s, t) by { assert AdvanceRead(c, t) == AdvanceRead(s, t); }
    assert Guarded(s, t) && Guarded(c, t);
    hide Step, Guarded, State.To;
    ReachesTwo(s, t, Stay, Stay);
    moves := [Move(t, Stay), Move(t, Stay)];
  }

  lemma RetireAlone(s: State, t: nat) returns (moves: seq<Move>)
    requires Order(s) && t < |s.th| && s.th[t].RetLoad? && s.read < s.proc && s.MarkOf(s.read) == Invalid
    ensures Reaches(s, t, moves, AdvanceRead(s, t))
  {
    var b := s.To(t, RetTest(s.read));
    var looks := RetireLooks(s, t);
    var exchanges := RetireExchanges(b, t);
    assert AdvanceRead(b, t) == AdvanceRead(s, t);
    hide Reaches;
    moves := looks + exchanges;
    ReachesTrans(s, t, looks, b, exchanges, AdvanceRead(s, t));
  }

  lemma LeaveRetireAlone(s: State, t: nat) returns (moves: seq<Move>)
    requires s.Shape() && t < |s.th| && s.th[t].RetLoad? && s.read == s.proc
    ensures Reaches(s, t, moves, s.To(t, ProcLoad))
  {
    var a := s.To(t, RetCheck(s.read));
    assert Step(s, t, Stay) == a;
    assert Step(a, t, Stay) == s.To(t, ProcLoad) by { assert a.To(t, ProcLoad) == s.To(t, ProcLoad); }
    assert Guarded(s, t) && Guarded(a, t);
    hide Step, Guarded, Reaches, State.To;
    ReachesTwo(s, t, Stay, Stay);
    moves := [Move(t, Stay), Move(t, Stay)];
  }

  /** `t` at the head of the claim loop, nothing claimed but not retired. */
  ghost predicate AtClaim(s: State, t: nat) {
    Order(s) && t < |s.th| && s.th[t].ProcLoad? && s.read == s.proc
  }

  /** The state after the next published ticket was claimed, dispatched, cleared and retired by `t`. */
  function Processed(s: State, t: nat): State
    requires s.Shape() && t < |s.th|
  {
    var k := s.proc;
    AdvanceRead(ClearMark(DispatchText(ClaimTicket(s, t), t, k), t, k), t).To(t, ProcLoad)
  }

  lemma ProcessAlone(s: State, t: nat) returns (moves: seq<Move>)
    requires AtClaim(s, t) && s.proc < s.write
    ensures Reaches(s, t, moves, Processed(s, t))
  {
    var k := s.proc;
    var a := ClaimTicket(s, t);
    var b := ClearMark(DispatchText(a, t, k), t, k);
    var c := AdvanceRead(b, t);
    var m1 := ClaimAlone(s, t);
    var m2 := DispatchAlone(a, t, k);
    var m3 := RetireAlone(b, t);
    var m4 := LeaveRetireAlone(c, t);
    hide Reaches, ClaimTicket, DispatchText, ClearMark, AdvanceRead, State.To, AtClaim;
    ReachesTrans(s, t, m1, a, m2, b);
    ReachesTrans(s, t, m1 + m2, b, m3, c);
    ReachesTrans(s, t, m1 + m2 + m3, c, m4, c.To(t, ProcLoad));
    moves := m1 + m2 + m3 + m4;
  }

  lemma ProcessedAtClaim(s: State, t: nat)
    requires AtClaim(s, t) && s.proc < s.write
    ensures AtClaim(Processed(s, t), t)
    ensures Processed(s, t).proc == s.proc + 1 && Processed(s, t).write == s.write && Processed(s, t).hold == s.hold
    ensures Processed(s, t).sent == s.sent
  {
  }

  /** Run alone, a thread in the claim loop claims, dispatches and retires everything published. */
  lemma {:induction false} DrainAlone(s: State, t: nat) returns (moves: seq<Move>, r: State)
    requires AtClaim(s, t)
    ensures Reaches(s, t, moves, r) && r.th[t].Idle?
    ensures r.hold == s.hold && r.write == s.write && r.proc == s.write && r.read == s.write && r.sent == s.sent
    decreases s.write - s.proc
  {
    if s.proc == s.write {
      moves := LeaveClaimAlone(s, t);
      r := s.To(t, Idle);
    } else {
      var first := ProcessAlone(s, t);
      ProcessedAtClaim(s, t);
      hide Reaches, AtClaim, Processed;
      var rest;
      rest, r := DrainAlone(Processed(s, t), t);
      ReachesTrans(s, t, first, Processed(s, t), rest, r);
      moves := first + rest;
    }
  }
}
