/** What every reachable state of the ring satisfies, and the proof that every step keeps it. */
module RingInvariant {
  import opened RingState

  ghost predicate Order(s: State) {
    && s.Shape()
    && s.base <= s.read <= s.proc <= s.write <= s.hold < s.read + s.n
    && s.redo <= s.write
    && (s.sync ==> s.redo == 0)
  }

  /** The thread that took ticket `k` is still between taking it and publishing it. */
  ghost predicate Held(s: State, k: nat)
    requires s.Shape()
  {
    && k in s.owner && s.owner[k] < |s.th|
    && var pc := s.th[s.owner[k]];
       (s.MarkOf(k) == Invalid && pc == HoldMark(k)) || (s.MarkOf(k) == Hold && (pc == Fill(k) || pc == SetReady(k)))
  }

  /** The thread that claimed ticket `k` has not yet cleared its mark. */
  ghost predicate Claimed(s: State, k: nat) {
    && k in s.claimer && s.claimer[k] < |s.th|
    && (s.th[s.claimer[k]] == Dispatch(k) || s.th[s.claimer[k]] == Clear(k))
  }

  ghost predicate Intact(s: State, k: nat)
    requires s.Shape()
  {
    k in s.sent && s.TextOf(k) == s.sent[k]
  }

  /** The state of the slot of ticket `k`, by the part of the window `k` is in. */
  ghost predicate SlotAt(s: State, k: nat)
    requires s.Shape()
  {
    && (s.hold <= k ==> s.MarkOf(k) == Invalid)
    && (s.write <= k < s.hold ==> if s.MarkOf(k) == Ready then Intact(s, k) else Held(s, k))
    && (s.proc <= k < s.write ==> (s.MarkOf(k) == Ready || (s.MarkOf(k) == Invalid && k < s.redo)) && Intact(s, k))
    && (k < s.proc ==> (s.MarkOf(k) == Invalid || (s.MarkOf(k) == Ready && Claimed(s, k))) && Intact(s, k))
  }

  ghost predicate IsProducerPc(pc: Pc) {
    pc.HoldLoad? || pc.HoldCheck? || pc.HoldCas? || pc.HoldMark? || pc.Fill? || pc.SetReady? ||
    pc.PubLoad? || pc.PubCheck? || pc.PubTest? || pc.PubCas?
  }

  ghost predicate IsConsumerPc(pc: Pc) {
    pc.ProcLoad? || pc.ProcCheck? || pc.ProcCas? || pc.Dispatch? || pc.Clear? ||
    pc.RetLoad? || pc.RetCheck? || pc.RetTest? || pc.RetCas?
  }

  /** What thread `t` may rely on when it stands at `pc`, however long ago it looked. */
  ghost predicate LocalPc(s: State, t: nat, pc: Pc)
    requires s.Shape()
  {
    && (!s.sync ==> if t == 0 then !IsProducerPc(pc) else !IsConsumerPc(pc))
    && match pc
       case HoldCheck(seen) => seen <= s.hold
       case HoldCas(seen) => seen <= s.hold && (seen == s.hold ==> s.hold + 1 < s.read + s.n)
       case HoldMark(k) => s.write <= k < s.hold && k in s.owner && s.owner[k] == t && s.MarkOf(k) == Invalid
       case Fill(k) => s.write <= k < s.hold && k in s.owner && s.owner[k] == t && s.MarkOf(k) == Hold
       case SetReady(k) => s.write <= k < s.hold && k in s.owner && s.owner[k] == t && s.MarkOf(k) == Hold
       case PubCheck(seen) => seen <= s.write
       case PubTest(seen) => seen <= s.write && (seen == s.write ==> s.write < s.hold)
       case PubCas(seen) => seen <= s.write && (seen == s.write ==> s.write < s.hold && s.MarkOf(s.write) == Ready)
       case ProcCheck(seen) => seen <= s.proc
       case ProcCas(seen) => seen <= s.proc && (seen == s.proc ==> s.proc < s.write)
       case Dispatch(k) => s.read <= k < s.proc && k in s.claimer && s.claimer[k] == t
         && (s.MarkOf(k) == Ready || k < s.redo)
       case Clear(k) => s.read <= k < s.proc && k in s.claimer && s.claimer[k] == t
         && (s.MarkOf(k) == Ready || k < s.redo)
       case RetCheck(seen) => seen <= s.read
       case RetTest(seen) => seen <= s.read && (seen == s.read ==> s.read < s.proc)
       case RetCas(seen) => seen <= s.read && (seen == s.read ==> s.read < s.proc && s.MarkOf(s.read) == Invalid)
       case _ => true
  }

  ghost predicate LocalAt(s: State, t: nat)
    requires s.Shape() && t < |s.th|
  {
    LocalPc(s, t, s.th[t])
  }

  ghost predicate Locals(s: State)
    requires s.Shape()
  {
    forall t: nat :: t < |s.th| ==> LocalAt(s, t)
  }

  ghost predicate Slots(s: State)
    requires s.Shape()
  {
    forall k: nat :: s.read <= k < s.read + s.n ==> SlotAt(s, k)
  }

  ghost predicate Inv(s: State) {
    Order(s) && Locals(s) && Slots(s)
  }

  lemma InitialInv(n: nat, sync: bool, threads: nat)
    requires n > 1
    ensures Inv(Initial(n, sync, threads))
  {
  }

  /** A thread that has not slept for a lap always makes its compare-exchange with valid checks. */
  lemma NotLappedIsGuarded(s: State, t: nat)
    requires Inv(s) && t < |s.th| && !Lapped(s, t)
    ensures Guarded(s, t)
  {
    assert LocalAt(s, t);
  }

  // One lemma pair for each store or successful compare-exchange.

  lemma TakeTicketLocals(s: State, t: nat)
    requires Inv(s) && t < |s.th| && s.th[t].HoldCas? && s.hold + 1 < s.read + s.n
    ensures Locals(TakeTicket(s, t))
  {
    var s' := TakeTicket(s, t);
    SlotWindow(s.read, s.n);
    assert SlotAt(s, s.hold);
    assert LocalAt(s, t);
    forall u: nat | u < |s'.th| ensures LocalAt(s', u) {
      assert LocalAt(s, u);
    }
  }

  lemma TakeTicketSlots(s: State, t: nat)
    requires Inv(s) && t < |s.th| && s.th[t].HoldCas? && s.hold + 1 < s.read + s.n
    ensures Slots(TakeTicket(s, t))
  {
    var s' := TakeTicket(s, t);
    SlotWindow(s.read, s.n);
    assert LocalAt(s, t);
    forall k: nat | s'.read <= k < s'.read + s'.n ensures SlotAt(s', k) {
      assert SlotAt(s, k);
    }
  }

  lemma MarkHeldLocals(s: State, t: nat, h: nat)
    requires Inv(s) && t < |s.th| && s.th[t] == HoldMark(h)
    ensures Locals(MarkHeld(s, t, h))
  {
    var s' := MarkHeld(s, t, h);
    SlotWindow(s.read, s.n);
    assert LocalAt(s, t);
    forall u: nat | u < |s'.th| ensures LocalAt(s', u) {
      assert LocalAt(s, u);
    }
  }

  lemma MarkHeldSlots(s: State, t: nat, h: nat)
    requires Inv(s) && t < |s.th| && s.th[t] == HoldMark(h)
    ensures Slots(MarkHeld(s, t, h))
  {
    var s' := MarkHeld(s, t, h);
    SlotWindow(s.read, s.n);
    assert LocalAt(s, t);
    forall k: nat | s'.read <= k < s'.read + s'.n ensures SlotAt(s', k) {
      assert SlotAt(s, k);
    }
  }

  lemma PutTextLocals(s: State, t: nat, h: nat, text: string, pc: Pc)
    requires Inv(s) && t < |s.th| && s.th[t] == Fill(h) && (pc == Fill(h) || pc == SetReady(h))
    ensures Locals(PutText(s, t, h, text, pc))
  {
    var s' := PutText(s, t, h, text, pc);
    SlotWindow(s.read, s.n);
    assert LocalAt(s, t);
    forall u: nat | u < |s'.th| ensures LocalAt(s', u) {
      assert LocalAt(s, u);
    }
  }

  lemma PutTextSlots(s: State, t: nat, h: nat, text: string, pc: Pc)
    requires Inv(s) && t < |s.th| && s.th[t] == Fill(h) && (pc == Fill(h) || pc == SetReady(h))
    ensures Slots(PutText(s, t, h, text, pc))
  {
    var s' := PutText(s, t, h, text, pc);
    SlotWindow(s.read, s.n);
    assert LocalAt(s, t);
    forall k: nat | s'.read <= k < s'.read + s'.n ensures SlotAt(s', k) {
      assert SlotAt(s, k);
    }
  }

  lemma MarkReadyLocals(s: State, t: nat, h: nat)
    requires Inv(s) && t < |s.th| && s.th[t] == SetReady(h)
    ensures Locals(MarkReady(s, t, h))
  {
    var s' := MarkReady(s, t, h);
    SlotWindow(s.read, s.n);
    assert LocalAt(s, t);
    forall u: nat | u < |s'.th| ensures LocalAt(s', u) {
      assert LocalAt(s, u);
    }
  }

  lemma MarkReadySlots(s: State, t: nat, h: nat)
    requires Inv(s) && t < |s.th| && s.th[t] == SetReady(h)
    ensures Slots(MarkReady(s, t, h))
  {
    var s' := MarkReady(s, t, h);
    SlotWindow(s.read, s.n);
    assert LocalAt(s, t);
    forall k: nat | s'.read <= k < s'.read + s'.n ensures SlotAt(s', k) {
      assert SlotAt(s, k);
    }
  }

  lemma AdvanceWriteLocals(s: State, t: nat)
    requires Inv(s) && t < |s.th| && s.th[t].PubCas? && s.write < s.hold && s.MarkOf(s.write) == Ready
    ensures Locals(AdvanceWrite(s, t))
  {
    var s' := AdvanceWrite(s, t);
    SlotWindow(s.read, s.n);
    assert SlotAt(s, s.write);
    assert LocalAt(s, t);
    forall u: nat | u < |s'.th| ensures LocalAt(s', u) {
      assert LocalAt(s, u);
    }
  }

  lemma AdvanceWriteSlots(s: State, t: nat)
    requires Inv(s) && t < |s.th| && s.th[t].PubCas? && s.write < s.hold && s.MarkOf(s.write) == Ready
    ensures Slots(AdvanceWrite(s, t))
  {
    var s' := AdvanceWrite(s, t);
    SlotWindow(s.read, s.n);
    assert LocalAt(s, t);
    forall k: nat | s'.read <= k < s'.read + s'.n ensures SlotAt(s', k) {
      assert SlotAt(s, k);
    }
  }

  lemma ClaimTicketLocals(s: State, t: nat)
    requires Inv(s) && t < |s.th| && s.th[t].ProcCas? && s.proc < s.write
    ensures Locals(ClaimTicket(s, t))
  {
    var s' := ClaimTicket(s, t);
    SlotWindow(s.read, s.n);
    assert SlotAt(s, s.proc);
    assert LocalAt(s, t);
    forall u: nat | u < |s'.th| ensures LocalAt(s', u) {
      assert LocalAt(s, u);
    }
  }

  lemma ClaimTicketSlots(s: State, t: nat)
    requires Inv(s) && t < |s.th| && s.th[t].ProcCas? && s.proc < s.write
    ensures Slots(ClaimTicket(s, t))
  {
    var s' := ClaimTicket(s, t);
    SlotWindow(s.read, s.n);
    assert LocalAt(s, t);
    forall k: nat | s'.read <= k < s'.read + s'.n ensures SlotAt(s', k) {
      assert SlotAt(s, k);
    }
  }

  lemma DispatchTextLocals(s: State, t: nat, d: nat)
    requires Inv(s) && t < |s.th| && s.th[t] == Dispatch(d)
    ensures Locals(DispatchText(s, t, d))
  {
    var s' := DispatchText(s, t, d);
    SlotWindow(s.read, s.n);
    assert LocalAt(s, t);
    forall u: nat | u < |s'.th| ensures LocalAt(s', u) {
      assert LocalAt(s, u);
    }
  }

  lemma DispatchTextSlots(s: State, t: nat, d: nat)
    requires Inv(s) && t < |s.th| && s.th[t] == Dispatch(d)
    ensures Slots(DispatchText(s, t, d))
  {
    var s' := DispatchText(s, t, d);
    SlotWindow(s.read, s.n);
    assert LocalAt(s, t);
    forall k: nat | s'.read <= k < s'.read + s'.n ensures SlotAt(s', k) {
      assert SlotAt(s, k);
    }
  }

  lemma ClearMarkLocals(s: State, t: nat, d: nat)
    requires Inv(s) && t < |s.th| && s.th[t] == Clear(d)
    ensures Locals(ClearMark(s, t, d))
  {
    var s' := ClearMark(s, t, d);
    SlotWindow(s.read, s.n);
    assert LocalAt(s, t);
    forall u: nat | u < |s'.th| ensures LocalAt(s', u) {
      assert LocalAt(s, u);
    }
  }

  lemma ClearMarkSlots(s: State, t: nat, d: nat)
    requires Inv(s) && t < |s.th| && s.th[t] == Clear(d)
    ensures Slots(ClearMark(s, t, d))
  {
    var s' := ClearMark(s, t, d);
    SlotWindow(s.read, s.n);
    assert LocalAt(s, t);
    forall k: nat | s'.read <= k < s'.read + s'.n ensures SlotAt(s', k) {
      assert SlotAt(s, k);
    }
  }

  lemma AdvanceReadLocals(s: State, t: nat)
    requires Inv(s) && t < |s.th| && s.th[t].RetCas? && s.read < s.proc && s.MarkOf(s.read) == Invalid
    ensures Locals(AdvanceRead(s, t))
  {
    var s' := AdvanceRead(s, t);
    SlotWindow(s.read, s.n);
    assert SlotAt(s, s.read);
    assert LocalAt(s, t);
    forall u: nat | u < |s'.th| ensures LocalAt(s', u) {
      assert LocalAt(s, u);
    }
  }

  lemma AdvanceReadSlots(s: State, t: nat)
    requires Inv(s) && t < |s.th| && s.th[t].RetCas? && s.read < s.proc && s.MarkOf(s.read) == Invalid
    ensures Slots(AdvanceRead(s, t))
  {
    var s' := AdvanceRead(s, t);
    SlotWindow(s.read, s.n);
    assert LocalAt(s, t);
    forall k: nat | s'.read <= k < s'.read + s'.n ensures SlotAt(s', k) {
      if k < s.read + s.n {
        assert SlotAt(s, k);
      } else {
        assert SlotAt(s, s.read);
        assert Slot(k, s.n) == Slot(s.read, s.n);
      }
    }
  }

  // A load, a failed check or a failed compare-exchange only moves its thread.

  ghost predicate OwnsSlot(pc: Pc) {
    pc.HoldMark? || pc.Fill? || pc.SetReady? || pc.Dispatch? || pc.Clear?
  }

  lemma MoveLocals(s: State, t: nat, pc: Pc)
    requires Inv(s) && t < |s.th| && LocalPc(s, t, pc)
    ensures Locals(s.To(t, pc))
  {
    var s' := s.To(t, pc);
    forall u: nat | u < |s'.th| ensures LocalAt(s', u) {
      assert LocalAt(s, u);
    }
  }

  lemma MoveInv(s: State, t: nat, pc: Pc)
    requires Inv(s) && t < |s.th| && !OwnsSlot(s.th[t]) && LocalPc(s, t, pc)
    ensures Inv(s.To(t, pc))
  {
    MoveLocals(s, t, pc);
    hide LocalPc;
    var s' := s.To(t, pc);
    forall k: nat | s'.read <= k < s'.read + s'.n ensures SlotAt(s', k) {
      assert SlotAt(s, k);
    }
  }

  lemma SlotShift(k: nat, n: nat)
    requires n > 0
    ensures Slot(k + n, n) == Slot(k, n)
  {
  }

  /** The fullness check compares stored indices; read one lap on, it compares `seen + 1` with `read + n`. */
  lemma HoldCheckLocal(s: State, t: nat, seen: nat)
    requires Order(s) && LocalPc(s, t, HoldCheck(seen))
    ensures Slot(Slot(seen, s.n) + 1, s.n) != Slot(s.read, s.n) ==> LocalPc(s, t, HoldCas(seen))
  {
    SlotSuccessor(seen, s.n);
    SlotShift(s.read, s.n);
  }

  lemma LookLocalProducer(s: State, t: nat, c: Choice)
    requires Order(s) && t < |s.th| && LocalPc(s, t, s.th[t]) && (s.th[t].Idle? || IsProducerPc(s.th[t]))
    requires !OwnsSlot(s.th[t]) && !s.th[t].HoldCheck?
    ensures LocalPc(s, t, Look(s, t, c))
  {
  }

  lemma LookLocalConsumer(s: State, t: nat, c: Choice)
    requires Order(s) && t < |s.th| && LocalPc(s, t, s.th[t]) && IsConsumerPc(s.th[t]) && !OwnsSlot(s.th[t])
    ensures LocalPc(s, t, Look(s, t, c))
  {
  }

  lemma LookLocal(s: State, t: nat, c: Choice)
    requires Order(s) && t < |s.th| && LocalPc(s, t, s.th[t]) && !OwnsSlot(s.th[t])
    ensures LocalPc(s, t, Look(s, t, c))
  {
    hide LocalPc;
    match s.th[t]
    case HoldCheck(seen) =>
      HoldCheckLocal(s, t, seen);
      HoldLoadLocal(s, t, seen);
    case Idle | HoldLoad | HoldCas(_) | PubLoad | PubCheck(_) | PubTest(_) | PubCas(_) => LookLocalProducer(s, t, c);
    case _ => LookLocalConsumer(s, t, c);
  }

  lemma HoldLoadLocal(s: State, t: nat, seen: nat)
    requires s.Shape() && LocalPc(s, t, HoldCheck(seen))
    ensures LocalPc(s, t, HoldLoad)
  {
  }

  lemma LookInv(s: State, t: nat, c: Choice)
    requires Inv(s) && t < |s.th| && !OwnsSlot(s.th[t])
    ensures Inv(s.To(t, Look(s, t, c)))
  {
    assert LocalAt(s, t);
    LookLocal(s, t, c);
    hide Look, LocalPc;
    MoveInv(s, t, Look(s, t, c));
  }

  lemma TakeTicketInv(s: State, t: nat)
    requires Inv(s) && t < |s.th| && s.th[t].HoldCas? && s.hold + 1 < s.read + s.n
    ensures Inv(TakeTicket(s, t))
  {
    TakeTicketLocals(s, t);
    TakeTicketSlots(s, t);
  }

  lemma AdvanceWriteInv(s: State, t: nat)
    requires Inv(s) && t < |s.th| && s.th[t].PubCas? && s.write < s.hold && s.MarkOf(s.write) == Ready
    ensures Inv(AdvanceWrite(s, t))
  {
    AdvanceWriteLocals(s, t);
    AdvanceWriteSlots(s, t);
  }

  lemma ClaimTicketInv(s: State, t: nat)
    requires Inv(s) && t < |s.th| && s.th[t].ProcCas? && s.proc < s.write
    ensures Inv(ClaimTicket(s, t))
  {
    ClaimTicketLocals(s, t);
    ClaimTicketSlots(s, t);
  }

  lemma AdvanceReadInv(s: State, t: nat)
    requires Inv(s) && t < |s.th| && s.th[t].RetCas? && s.read < s.proc && s.MarkOf(s.read) == Invalid
    ensures Inv(AdvanceRead(s, t))
  {
    AdvanceReadLocals(s, t);
    AdvanceReadSlots(s, t);
  }

  lemma FillInv(s: State, t: nat, c: Choice)
    requires Inv(s) && t < |s.th| && (s.th[t].HoldMark? || s.th[t].Fill? || s.th[t].SetReady?)
    ensures Inv(Step(s, t, c))
  {
    match s.th[t]
    case HoldMark(k) =>
      MarkHeldLocals(s, t, k);
      MarkHeldSlots(s, t, k);
    case Fill(k) =>
      if c.Write? {
        PutTextLocals(s, t, k, c.text, Fill(k));
        PutTextSlots(s, t, k, c.text, Fill(k));
      } else if c.Finish? {
        PutTextLocals(s, t, k, Seal(s.TextOf(k)), SetReady(k));
        PutTextSlots(s, t, k, Seal(s.TextOf(k)), SetReady(k));
      }
    case SetReady(k) =>
      MarkReadyLocals(s, t, k);
      MarkReadySlots(s, t, k);
  }

  lemma DispatchInv(s: State, t: nat, c: Choice)
    requires Inv(s) && t < |s.th| && (s.th[t].Dispatch? || s.th[t].Clear?)
    ensures Inv(Step(s, t, c))
  {
    match s.th[t]
    case Dispatch(k) =>
      DispatchTextLocals(s, t, k);
      DispatchTextSlots(s, t, k);
    case Clear(k) =>
      ClearMarkLocals(s, t, k);
      ClearMarkSlots(s, t, k);
  }

  /** Every step keeps the invariant, provided a successful compare-exchange was still justified. */
  lemma StepInv(s: State, t: nat, c: Choice)
    requires Inv(s) && t < |s.th| && Guarded(s, t)
    ensures Inv(Step(s, t, c))
  {
    hide Inv, Look;
    if s.th[t].Dispatch? || s.th[t].Clear? {
      DispatchInv(s, t, c);
    } else if OwnsSlot(s.th[t]) {
      FillInv(s, t, c);
    } else {
      LookInv(s, t, c);
      match s.th[t]
      case HoldCas(seen) => if Slot(s.hold, s.n) == Slot(seen, s.n) { TakeTicketInv(s, t); }
      case PubCas(seen) => if Slot(s.write, s.n) == Slot(seen, s.n) { AdvanceWriteInv(s, t); }
      case ProcCas(seen) => if Slot(s.proc, s.n) == Slot(seen, s.n) { ClaimTicketInv(s, t); }
      case RetCas(seen) => if Slot(s.read, s.n) == Slot(seen, s.n) { AdvanceReadInv(s, t); }
      case _ =>
    }
  }

  lemma UnreadyPublishBreaksInv(s: State, t: nat)
    requires Order(s) && t < |s.th| && s.write < s.hold && s.MarkOf(s.write) != Ready
    ensures !Inv(AdvanceWrite(s, t))
  {
    assert !SlotAt(AdvanceWrite(s, t), s.write);
  }

  lemma UnclearedRetireBreaksInv(s: State, t: nat)
    requires Order(s) && t < |s.th| && s.read < s.proc && s.MarkOf(s.read) != Invalid
    ensures !Inv(AdvanceRead(s, t))
  {
    SlotShift(s.read, s.n);
    assert !SlotAt(AdvanceRead(s, t), s.read + s.n);
  }

  /** ... and only then: a compare-exchange whose checks no longer hold breaks it. */
  lemma UnguardedStepBreaksInv(s: State, t: nat, c: Choice)
    requires Inv(s) && t < |s.th| && !Guarded(s, t)
    ensures !Inv(Step(s, t, c))
  {
    hide Locals, Slots, Slot, Look;
    match s.th[t]
    case PubCas(seen) => if s.write < s.hold { UnreadyPublishBreaksInv(s, t); }
    case RetCas(seen) => if s.read < s.proc { UnclearedRetireBreaksInv(s, t); }
    case _ =>
  }
}
