/** What was dispatched: each ticket at most once, with the text its producer published. */
module RingDelivery {
  import opened RingState
  import opened RingInvariant

  /** Of the tickets claimed since the start, exactly those past their dispatch are in the log. */
  ghost predicate ClaimsLogged(s: State) {
    forall k: nat :: s.base <= k < s.proc ==>
      k in s.claimer && s.claimer[k] < |s.th| && (k in s.done <==> s.th[s.claimer[k]] != Dispatch(k))
  }

  /** `done` and the positions of `log` are inverse to each other, so no ticket is logged twice. */
  ghost predicate LogIndexed(s: State) {
    && (forall i: nat :: i < |s.log| ==> s.log[i].ticket in s.done && s.done[s.log[i].ticket] == i)
    && (forall k: nat :: k in s.done ==> s.base <= k < s.proc && s.done[k] < |s.log| && s.log[s.done[k]].ticket == k)
  }

  ghost predicate LogFaithful(s: State) {
    forall i: nat :: i < |s.log| ==> s.log[i].ticket in s.sent && s.log[i].text == s.sent[s.log[i].ticket]
  }

  /** On an asynchronous channel the only consumer is thread 0, and it dispatches in ticket order. */
  ghost predicate LogOrdered(s: State) {
    !s.sync ==>
      && |s.log| + (if |s.th| > 0 && s.th[0].Dispatch? then 1 else 0) == s.proc - s.base
      && (|s.th| > 0 && s.th[0].Dispatch? ==> s.th[0].k == s.proc - 1)
      && (forall i: nat :: i < |s.log| ==> s.log[i].ticket == s.base + i)
  }

  ghost predicate Delivery(s: State) {
    s.base <= s.proc && ClaimsLogged(s) && LogIndexed(s) && LogFaithful(s) && LogOrdered(s)
  }

  lemma InitialDelivery(n: nat, sync: bool, threads: nat)
    requires n > 1
    ensures Delivery(Initial(n, sync, threads))
  {
  }

  /** The step moved only `t`, and touched nothing the delivery invariant reads. */
  ghost predicate Quiet(s: State, s': State, t: nat)
    requires t < |s.th|
  {
    && |s'.th| == |s.th| && s'.th == s.th[t := s'.th[t]] && !s'.th[t].Dispatch?
    && s'.proc == s.proc && s'.base == s.base && s'.claimer == s.claimer && s'.sync == s.sync
    && s'.log == s.log && s'.done == s.done
    && (forall k: nat :: k in s.sent && k < s.proc ==> k in s'.sent && s'.sent[k] == s.sent[k])
  }

  lemma DeliveryFrame(s: State, s': State, t: nat)
    requires Delivery(s) && t < |s.th| && !s.th[t].Dispatch? && Quiet(s, s', t)
    ensures Delivery(s')
  {
  }

  lemma MoveQuiet(s: State, t: nat, pc: Pc)
    requires t < |s.th| && !pc.Dispatch?
    ensures Quiet(s, s.To(t, pc), t)
  {
  }

  lemma LookQuiet(s: State, t: nat, c: Choice)
    requires s.Shape() && t < |s.th| && !s.th[t].Dispatch?
    ensures !Look(s, t, c).Dispatch?
  {
  }

  lemma MarkReadyQuiet(s: State, t: nat, k: nat)
    requires Inv(s) && t < |s.th| && s.th[t] == SetReady(k)
    ensures Quiet(s, MarkReady(s, t, k), t)
  {
    assert LocalAt(s, t);
  }

  lemma LookStepQuiet(s: State, t: nat, c: Choice)
    requires s.Shape() && t < |s.th| && !s.th[t].Dispatch? && !s.th[t].ProcCas?
    requires s.th[t].HoldCas? || s.th[t].PubCas? || s.th[t].RetCas? || Step(s, t, c) == s.To(t, Look(s, t, c))
    ensures Quiet(s, Step(s, t, c), t)
  {
    LookQuiet(s, t, c);
    MoveQuiet(s, t, Look(s, t, c));
    hide Look, Slot;
    if !s.th[t].HoldCas? && !s.th[t].PubCas? && !s.th[t].RetCas? {
      hide Step;
    }
  }

  lemma StepQuiet(s: State, t: nat, c: Choice)
    requires Inv(s) && t < |s.th| && !s.th[t].Dispatch? && !s.th[t].ProcCas?
    ensures Quiet(s, Step(s, t, c), t)
  {
    if s.th[t].SetReady? {
      MarkReadyQuiet(s, t, s.th[t].k);
    } else if s.th[t].HoldMark? || s.th[t].Fill? || s.th[t].Clear? {
      hide Inv, Look, Seal, Slot;
    } else {
      hide Inv, Look, Quiet, Slot;
      LookStepQuiet(s, t, c);
    }
  }

  lemma ClaimDelivery(s: State, t: nat)
    requires Inv(s) && Delivery(s) && t < |s.th| && s.th[t].ProcCas?
    ensures Delivery(ClaimTicket(s, t))
  {
    assert LocalAt(s, t);
  }

  lemma DispatchLogged(s: State, t: nat, d: nat)
    requires Delivery(s) && t < |s.th| && s.th[t] == Dispatch(d) && s.Shape()
    requires s.base <= d < s.proc && d in s.claimer && s.claimer[d] == t && Intact(s, d)
    ensures ClaimsLogged(DispatchText(s, t, d)) && LogIndexed(DispatchText(s, t, d))
  {
    hide Slot, LogFaithful, LogOrdered;
    assert d !in s.done;
  }

  lemma DispatchFaithful(s: State, t: nat, d: nat)
    requires Delivery(s) && t < |s.th| && s.th[t] == Dispatch(d) && s.Shape()
    requires !s.sync ==> t == 0
    requires s.base <= d < s.proc && Intact(s, d)
    ensures LogFaithful(DispatchText(s, t, d)) && LogOrdered(DispatchText(s, t, d))
  {
    hide Slot, ClaimsLogged, LogIndexed;
  }

  lemma DispatchDelivery(s: State, t: nat, d: nat)
    requires Inv(s) && Delivery(s) && t < |s.th| && s.th[t] == Dispatch(d)
    ensures Delivery(DispatchText(s, t, d))
  {
    assert LocalAt(s, t);
    assert SlotAt(s, d);
    DispatchLogged(s, t, d);
    DispatchFaithful(s, t, d);
    hide ClaimsLogged, LogIndexed, LogFaithful, LogOrdered;
  }

  lemma StepDelivery(s: State, t: nat, c: Choice)
    requires Inv(s) && Delivery(s) && t < |s.th|
    ensures Delivery(Step(s, t, c))
  {
    match s.th[t]
    case Dispatch(d) => DispatchDelivery(s, t, d);
    case ProcCas(seen) =>
      if Slot(s.proc, s.n) == Slot(seen, s.n) {
        ClaimDelivery(s, t);
      } else {
        MoveQuiet(s, t, Idle);
        DeliveryFrame(s, s.To(t, Idle), t);
      }
    case _ =>
      StepQuiet(s, t, c);
      hide *;
      DeliveryFrame(s, Step(s, t, c), t);
  }
}
