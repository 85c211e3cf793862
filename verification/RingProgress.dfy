/**
  No publication, claim or retirement is lost: whenever an index could advance, some thread is
  in the loop that advances it and will look at the current value again before it leaves.
 */
module RingProgress {
  import opened RingState
  import opened RingInvariant

  /** About to reload `write`, or already holding its current value. */
  ghost predicate WillPublish(s: State, pc: Pc) {
    pc.PubLoad? || ((pc.PubCheck? || pc.PubTest? || pc.PubCas?) && pc.seen == s.write)
  }

  /** On its way into the claim loop, or in it and holding no stale value of `proc`. */
  ghost predicate WillClaim(s: State, pc: Pc) {
    || pc.PubLoad? || pc.PubCheck? || pc.PubTest? || pc.PubCas?
    || pc.ProcLoad? || ((pc.ProcCheck? || pc.ProcCas?) && pc.seen == s.proc)
    || pc.Dispatch? || pc.Clear? || pc.RetLoad? || pc.RetCheck? || pc.RetTest? || pc.RetCas?
  }

  /** About to reload `read`, holding its current value, or the claimer of that very ticket. */
  ghost predicate WillRetire(s: State, pc: Pc) {
    || pc.RetLoad? || ((pc.RetCheck? || pc.RetTest? || pc.RetCas?) && pc.seen == s.read)
    || pc == Dispatch(s.read) || pc == Clear(s.read)
  }

  ghost predicate CanPublish(s: State)
    requires s.Shape()
  {
    s.write < s.hold && s.MarkOf(s.write) == Ready
  }

  ghost predicate CanRetire(s: State)
    requires s.Shape()
  {
    s.read < s.proc && s.MarkOf(s.read) == Invalid
  }

  ghost predicate PublishDuty(s: State)
    requires s.Shape()
  {
    CanPublish(s) ==> exists t: nat :: t < |s.th| && WillPublish(s, s.th[t])
  }

  ghost predicate ClaimDuty(s: State) {
    s.sync && s.proc < s.write ==> exists t: nat :: t < |s.th| && WillClaim(s, s.th[t])
  }

  ghost predicate RetireDuty(s: State)
    requires s.Shape()
  {
    CanRetire(s) ==> exists t: nat :: t < |s.th| && WillRetire(s, s.th[t])
  }

  ghost predicate Duties(s: State) {
    s.Shape() && PublishDuty(s) && ClaimDuty(s) && RetireDuty(s)
  }

  /** If `publish`, `claim` or `retire` can advance after a step of `t`, then `t` will do it, or it
      could before and `t` was not the thread to do it. */
  ghost predicate Handed(s: State, s': State, t: nat)
    requires s.Shape() && t < |s.th|
  {
    && s'.Shape() && |s'.th| == |s.th| && s'.th == s.th[t := s'.th[t]] && s'.sync == s.sync
    && (CanPublish(s') && !WillPublish(s', s'.th[t]) ==>
        CanPublish(s) && !WillPublish(s, s.th[t]) && s'.write == s.write)
    && (s'.sync && s'.proc < s'.write && !WillClaim(s', s'.th[t]) ==>
        s.proc < s.write && !WillClaim(s, s.th[t]) && s'.proc == s.proc)
    && (CanRetire(s') && !WillRetire(s', s'.th[t]) ==> CanRetire(s) && !WillRetire(s, s.th[t]) && s'.read == s.read)
  }

  lemma TakeTicketHanded(s: State, t: nat)
    requires Inv(s) && t < |s.th| && s.th[t].HoldCas?
    ensures Handed(s, TakeTicket(s, t), t)
  {
    assert LocalAt(s, t);
    SlotWindow(s.read, s.n);
    assert SlotAt(s, s.hold);
  }

  lemma MarkHeldHanded(s: State, t: nat, k: nat)
    requires Inv(s) && t < |s.th| && s.th[t] == HoldMark(k)
    ensures Handed(s, MarkHeld(s, t, k), t)
  {
    assert LocalAt(s, t);
    SlotWindow(s.read, s.n);
  }

  lemma PutTextHanded(s: State, t: nat, k: nat, text: string, pc: Pc)
    requires Inv(s) && t < |s.th| && s.th[t] == Fill(k) && (pc == Fill(k) || pc == SetReady(k))
    ensures Handed(s, PutText(s, t, k, text, pc), t)
  {
    assert LocalAt(s, t);
    SlotWindow(s.read, s.n);
  }

  lemma MarkReadyHanded(s: State, t: nat, k: nat)
    requires Inv(s) && t < |s.th| && s.th[t] == SetReady(k)
    ensures Handed(s, MarkReady(s, t, k), t)
  {
    assert LocalAt(s, t);
    SlotWindow(s.read, s.n);
  }

  lemma AdvanceWriteHanded(s: State, t: nat)
    requires Inv(s) && t < |s.th| && s.th[t].PubCas?
    ensures Handed(s, AdvanceWrite(s, t), t)
  {
    assert LocalAt(s, t);
    SlotWindow(s.read, s.n);
  }

  lemma ClaimTicketHanded(s: State, t: nat)
    requires Inv(s) && t < |s.th| && s.th[t].ProcCas?
    ensures Handed(s, ClaimTicket(s, t), t)
  {
    assert LocalAt(s, t);
    SlotWindow(s.read, s.n);
  }

  lemma DispatchTextHanded(s: State, t: nat, k: nat)
    requires Inv(s) && t < |s.th| && s.th[t] == Dispatch(k)
    ensures Handed(s, DispatchText(s, t, k), t)
  {
    assert LocalAt(s, t);
    SlotWindow(s.read, s.n);
  }

  lemma ClearMarkHanded(s: State, t: nat, k: nat)
    requires Inv(s) && t < |s.th| && s.th[t] == Clear(k)
    ensures Handed(s, ClearMark(s, t, k), t)
  {
    assert LocalAt(s, t);
    SlotWindow(s.read, s.n);
  }

  lemma AdvanceReadHanded(s: State, t: nat)
    requires Inv(s) && t < |s.th| && s.th[t].RetCas?
    ensures Handed(s, AdvanceRead(s, t), t)
  {
    assert LocalAt(s, t);
    SlotWindow(s.read, s.n);
  }

  /** A thread that holds the current value never leaves its loop while the index can advance. */
  lemma LookWillPublish(s: State, t: nat, c: Choice)
    requires Order(s) && t < |s.th| && LocalPc(s, t, s.th[t])
    requires CanPublish(s) && WillPublish(s, s.th[t])
    requires s.th[t].PubCas? ==> Slot(s.write, s.n) != Slot(s.th[t].seen, s.n)
    ensures WillPublish(s, Look(s, t, c))
  {
    SlotWindow(s.read, s.n);
  }

  lemma LookWillClaim(s: State, t: nat, c: Choice)
    requires Order(s) && t < |s.th| && LocalPc(s, t, s.th[t])
    requires s.sync && s.proc < s.write && WillClaim(s, s.th[t])
    requires s.th[t].ProcCas? ==> Slot(s.proc, s.n) != Slot(s.th[t].seen, s.n)
    ensures WillClaim(s, Look(s, t, c))
  {
    SlotWindow(s.read, s.n);
  }

  lemma LookWillRetire(s: State, t: nat, c: Choice)
    requires Order(s) && t < |s.th| && LocalPc(s, t, s.th[t])
    requires CanRetire(s) && WillRetire(s, s.th[t])
    requires s.th[t].RetCas? ==> Slot(s.read, s.n) != Slot(s.th[t].seen, s.n)
    ensures WillRetire(s, Look(s, t, c))
  {
    SlotWindow(s.read, s.n);
  }

  ghost predicate CasFails(s: State, t: nat)
    requires s.Shape() && t < |s.th|
  {
    match s.th[t]
    case PubCas(seen) => Slot(s.write, s.n) != Slot(seen, s.n)
    case ProcCas(seen) => Slot(s.proc, s.n) != Slot(seen, s.n)
    case RetCas(seen) => Slot(s.read, s.n) != Slot(seen, s.n)
    case _ => true
  }

  lemma MoveHanded(s: State, t: nat, pc: Pc)
    requires Order(s) && t < |s.th|
    requires CanPublish(s) && WillPublish(s, s.th[t]) ==> WillPublish(s, pc)
    requires s.sync && s.proc < s.write && WillClaim(s, s.th[t]) ==> WillClaim(s, pc)
    requires CanRetire(s) && WillRetire(s, s.th[t]) ==> WillRetire(s, pc)
    ensures Handed(s, s.To(t, pc), t)
  {
  }

  lemma LookHanded(s: State, t: nat, c: Choice)
    requires Inv(s) && t < |s.th| && CasFails(s, t)
    ensures Handed(s, s.To(t, Look(s, t, c)), t)
  {
    assert LocalAt(s, t);
    hide LocalAt, LocalPc, Locals, Slots, Look, Handed, WillPublish, WillClaim, WillRetire, State.To;
    if CanPublish(s) && WillPublish(s, s.th[t]) { LookWillPublish(s, t, c); }
    if s.sync && s.proc < s.write && WillClaim(s, s.th[t]) { LookWillClaim(s, t, c); }
    if CanRetire(s) && WillRetire(s, s.th[t]) { LookWillRetire(s, t, c); }
    MoveHanded(s, t, Look(s, t, c));
  }

  lemma StepHanded(s: State, t: nat, c: Choice)
    requires Inv(s) && t < |s.th|
    ensures Handed(s, Step(s, t, c), t)
  {
    assert s.Shape();
    hide Inv, Look, Handed;
    match s.th[t]
    case HoldMark(k) => MarkHeldHanded(s, t, k);
    case Fill(k) =>
      if c.Write? { PutTextHanded(s, t, k, c.text, Fill(k)); }
      else if c.Finish? { PutTextHanded(s, t, k, Seal(s.TextOf(k)), SetReady(k)); }
      else { PutTextHanded(s, t, k, s.TextOf(k), Fill(k)); SameText(s, t, k); }
    case SetReady(k) => MarkReadyHanded(s, t, k);
    case Dispatch(k) => DispatchTextHanded(s, t, k);
    case Clear(k) => ClearMarkHanded(s, t, k);
    case HoldCas(seen) =>
      if Slot(s.hold, s.n) == Slot(seen, s.n) { TakeTicketHanded(s, t); } else { LookHanded(s, t, c); }
    case PubCas(seen) =>
      if Slot(s.write, s.n) == Slot(seen, s.n) { AdvanceWriteHanded(s, t); } else { LookHanded(s, t, c); }
    case ProcCas(seen) =>
      if Slot(s.proc, s.n) == Slot(seen, s.n) { ClaimTicketHanded(s, t); } else { LookHanded(s, t, c); }
    case RetCas(seen) =>
      if Slot(s.read, s.n) == Slot(seen, s.n) { AdvanceReadHanded(s, t); } else { LookHanded(s, t, c); }
    case _ => LookHanded(s, t, c);
  }

  lemma SameText(s: State, t: nat, k: nat)
    requires s.Shape() && t < |s.th| && s.th[t] == Fill(k)
    ensures PutText(s, t, k, s.TextOf(k), Fill(k)) == s
  {
    assert s.th[t := Fill(k)] == s.th;
    assert s.buf[Slot(k, s.n) := s.TextOf(k)] == s.buf;
  }

  lemma StepDuties(s: State, t: nat, c: Choice)
    requires Inv(s) && t < |s.th| && Duties(s)
    ensures Duties(Step(s, t, c))
  {
    StepHanded(s, t, c);
    hide Inv, Step;
    var s' := Step(s, t, c);
    if CanPublish(s') && !WillPublish(s', s'.th[t]) {
      var u: nat :| u < |s.th| && WillPublish(s, s.th[u]);
      assert WillPublish(s', s'.th[u]);
    }
    if s'.sync && s'.proc < s'.write && !WillClaim(s', s'.th[t]) {
      var u: nat :| u < |s.th| && WillClaim(s, s.th[u]);
      assert WillClaim(s', s'.th[u]);
    }
    if CanRetire(s') && !WillRetire(s', s'.th[t]) {
      var u: nat :| u < |s.th| && WillRetire(s, s.th[u]);
      assert WillRetire(s', s'.th[u]);
    }
  }
}
