/**
  What a producer gets from its calls: HoldChannel does not give up before it has taken a ticket, and what is
  dispatched is the text that was written into the slot, cut to fit and closed with a line end.
 */
module RingCalls {
  import opened RingState
  import opened RingInvariant
  import opened RingRuns

  // HoldChannel.

  /** In the loop of HoldChannel, without a ticket. */
  ghost predicate Waits(pc: Pc) { pc.HoldLoad? || pc.HoldCheck? || pc.HoldCas? }

  /** The move makes an idle producer call HoldChannel. */
  ghost predicate Calls(s: State, m: Move)
    requires m.t < |s.th|
  {
    s.th[m.t].Idle? && m.c.Start? && (s.sync || m.t != 0)
  }

  lemma CallEnters(s: State, m: Move)
    requires s.Shape() && m.t < |s.th| && Calls(s, m)
    ensures Waits(Step(s, m.t, m.c).th[m.t]) && Step(s, m.t, m.c).hold == s.hold
  {
  }

  /**
    A thread in the loop stays in it or takes the next ticket. It looks for a free slot before every exchange, and
    the exchange succeeds exactly if the stored index has not changed.
   */
  lemma HoldStep(s: State, t: nat, c: Choice)
    requires s.Shape() && t < |s.th| && Waits(s.th[t])
    ensures var s' := Step(s, t, c);
            || (Waits(s'.th[t]) && s'.hold == s.hold)
            || (s'.th[t] == HoldMark(s.hold) && s'.hold == s.hold + 1 && s'.owner == s.owner[s.hold := t])
    ensures var pc, s' := s.th[t], Step(s, t, c);
            && (pc.HoldLoad? ==> s'.th[t] == HoldCheck(s.hold))
            && (pc.HoldCheck? ==> (s'.th[t] == HoldCas(pc.seen) <==> Slot(pc.seen + 1, s.n) != Slot(s.read, s.n)))
            && (pc.HoldCas? ==> (s'.th[t] == HoldMark(s.hold) <==> Slot(s.hold, s.n) == Slot(pc.seen, s.n)))
            && (!pc.HoldLoad? && Waits(s'.th[t]) && !s'.th[t].HoldCas? ==> s'.th[t].HoldLoad?)
  {
    hide Step, Slot;
    if s.th[t].HoldCheck? { SlotSuccessor(s.th[t].seen, s.n); }
    if Exchanges(s.th[t]) { StepExchanges(s, t, c); } else { StepLooks(s, t, c); }
  }

  ghost predicate WaitsAt(s: State, t: nat) { t < |s.th| && Waits(s.th[t]) }

  ghost function Waiting(s: State): set<nat> { set t: nat | t < |s.th| && WaitsAt(s, t) }

  lemma OtherStep(s: State, t: nat, c: Choice)
    requires s.Shape() && t < |s.th| && !Waits(s.th[t]) && !Calls(s, Move(t, c))
    ensures !Waits(Step(s, t, c).th[t]) && Step(s, t, c).hold == s.hold
  {
    if OwnsSlot(s.th[t]) {
      OwnerStep(s, t, c);
    } else {
      LoopStep(s, t, c);
    }
    hide Step;
  }

  lemma StepOwns(s: State, t: nat, c: Choice)
    requires s.Shape() && t < |s.th| && OwnsSlot(s.th[t])
    ensures var pc := s.th[t];
            Step(s, t, c) == if pc.HoldMark? then MarkHeld(s, t, pc.k)
                             else if pc.SetReady? then MarkReady(s, t, pc.k)
                             else if pc.Dispatch? then DispatchText(s, t, pc.k)
                             else if pc.Clear? then ClearMark(s, t, pc.k)
                             else if c.Write? then PutText(s, t, pc.k, c.text, Fill(pc.k))
                             else if c.Finish? then PutText(s, t, pc.k, Seal(s.TextOf(pc.k)), SetReady(pc.k))
                             else s
  {
    hide Slot, Look, Seal, MarkHeld, MarkReady, DispatchText, ClearMark, PutText;
  }

  lemma OwnerStep(s: State, t: nat, c: Choice)
    requires s.Shape() && t < |s.th| && OwnsSlot(s.th[t])
    ensures var s' := Step(s, t, c);
            s'.hold == s.hold && s'.th == s.th[t := s'.th[t]] && (OwnsSlot(s'.th[t]) || s'.th[t] in {PubLoad, RetLoad})
  {
    hide Step, Slot, Look, Seal;
    StepOwns(s, t, c);
  }

  ghost predicate Exchanges(pc: Pc) { pc.HoldCas? || pc.PubCas? || pc.ProcCas? || pc.RetCas? }

  lemma StepLooks(s: State, t: nat, c: Choice)
    requires s.Shape() && t < |s.th| && !OwnsSlot(s.th[t]) && !Exchanges(s.th[t])
    ensures Step(s, t, c) == s.To(t, Look(s, t, c))
  {
    hide Slot, Look;
  }

  lemma StepExchanges(s: State, t: nat, c: Choice)
    requires s.Shape() && t < |s.th| && Exchanges(s.th[t])
    ensures var pc := s.th[t];
            Step(s, t, c) == if pc.HoldCas? && Slot(s.hold, s.n) == Slot(pc.seen, s.n) then TakeTicket(s, t)
                             else if pc.PubCas? && Slot(s.write, s.n) == Slot(pc.seen, s.n) then AdvanceWrite(s, t)
                             else if pc.ProcCas? && Slot(s.proc, s.n) == Slot(pc.seen, s.n) then ClaimTicket(s, t)
                             else if pc.RetCas? && Slot(s.read, s.n) == Slot(pc.seen, s.n) then AdvanceRead(s, t)
                             else s.To(t, Look(s, t, c))
  {
    hide Slot, Look;
  }

  lemma LoopStep(s: State, t: nat, c: Choice)
    requires s.Shape() && t < |s.th| && !OwnsSlot(s.th[t])
    ensures var s' := Step(s, t, c); s'.th == s.th[t := s'.th[t]]
    ensures !Waits(s.th[t]) && !Calls(s, Move(t, c)) ==> !Waits(Step(s, t, c).th[t]) && Step(s, t, c).hold == s.hold
    ensures !Step(s, t, c).th[t].Fill? && !Step(s, t, c).th[t].SetReady?
  {
    hide Step, Look, Slot;
    LookSteps(s, t, c);
    if Exchanges(s.th[t]) { StepExchanges(s, t, c); } else { StepLooks(s, t, c); }
  }

  lemma LookSteps(s: State, t: nat, c: Choice)
    requires s.Shape() && t < |s.th| && !OwnsSlot(s.th[t])
    ensures !OwnsSlot(Look(s, t, c))
    ensures !Waits(s.th[t]) && !Calls(s, Move(t, c)) ==> !Waits(Look(s, t, c))
  {
    hide Slot;
  }

  lemma StepMovesOne(s: State, t: nat, c: Choice)
    requires s.Shape() && t < |s.th|
    ensures Step(s, t, c).th == s.th[t := Step(s, t, c).th[t]]
  {
    if OwnsSlot(s.th[t]) {
      OwnerStep(s, t, c);
    } else {
      LoopStep(s, t, c);
    }
    hide Step;
  }

  /** Each step keeps the balance of calls, tickets and waiting threads. */
  lemma CallsBalance(s: State, m: Move)
    requires s.Shape() && m.t < |s.th|
    ensures var s' := Step(s, m.t, m.c);
            s'.hold + |Waiting(s')| == s.hold + |Waiting(s)| + if Calls(s, m) then 1 else 0
  {
    var s' := Step(s, m.t, m.c);
    StepMovesOne(s, m.t, m.c);
    if Waits(s.th[m.t]) {
      HoldStep(s, m.t, m.c);
    } else if Calls(s, m) {
      CallEnters(s, m);
    } else {
      OtherStep(s, m.t, m.c);
    }
    hide Step, Waits;
    if WaitsAt(s', m.t) {
      assert Waiting(s') == Waiting(s) + {m.t};
    } else {
      assert Waiting(s') == Waiting(s) - {m.t};
    }
  }

  /** The calls a run makes. */
  ghost function CallsMade(s: State, moves: seq<Move>): nat
    requires Runnable(s, moves)
    decreases |moves|
  {
    if moves == [] then 0
    else (if Calls(s, moves[0]) then 1 else 0) + CallsMade(Step(s, moves[0].t, moves[0].c), moves[1..])
  }

  lemma {:induction false} CallsOfRun(s: State, moves: seq<Move>)
    requires Runnable(s, moves)
    ensures var r := After(s, moves); r.hold + |Waiting(r)| == s.hold + |Waiting(s)| + CallsMade(s, moves)
    decreases |moves|
  {
    if moves != [] {
      CallsBalance(s, moves[0]);
      hide Step, Calls, Waiting;
      CallsOfRun(Step(s, moves[0].t, moves[0].c), moves[1..]);
    }
  }

  /** In every run from start-up each call of HoldChannel has its ticket or is still waiting for it. */
  lemma EveryCallCounts(n: nat, sync: bool, threads: nat, moves: seq<Move>)
    requires n > 1 && Runnable(Initial(n, sync, threads), moves)
    ensures var s := After(Initial(n, sync, threads), moves);
            CallsMade(Initial(n, sync, threads), moves) == s.hold + |Waiting(s)|
  {
    var i := Initial(n, sync, threads);
    CallsOfRun(i, moves);
    assert Waiting(i) == {};
  }

  ghost predicate Logged(log: seq<Entry>, k: nat) { exists i: nat :: i < |log| && log[i].ticket == k }

  lemma {:induction false} DistinctCount(log: seq<Entry>, tickets: set<nat>)
    requires forall i: nat, j: nat :: i < j < |log| ==> log[i].ticket != log[j].ticket
    requires forall k: nat :: k in tickets <==> Logged(log, k)
    ensures |tickets| == |log|
    decreases |log|
  {
    if log == [] {
      assert tickets == {} by {
        forall k: nat ensures k !in tickets { assert !Logged(log, k); }
      }
    } else {
      var last, rest := log[|log| - 1].ticket, log[..|log| - 1];
      forall k: nat ensures k in tickets - {last} <==> Logged(rest, k) {
        if k in tickets && k != last {
          var i: nat :| i < |log| && log[i].ticket == k;
          assert rest[i].ticket == k;
        }
        if Logged(rest, k) {
          var i: nat :| i < |rest| && rest[i].ticket == k;
          assert log[i].ticket == k;
        }
      }
      assert Logged(log, last);
      DistinctCount(rest, tickets - {last});
    }
  }

  function Tickets(h: nat): (r: set<nat>)
    ensures |r| == h && forall k: nat :: k in r <==> k < h
  {
    if h == 0 then {} else Tickets(h - 1) + {h - 1}
  }

  /** When all threads have returned, a synchronous channel has dispatched exactly one message for each call. */
  lemma EveryCallDelivered(n: nat, threads: nat, moves: seq<Move>)
    requires n > 1 && Runnable(Initial(n, true, threads), moves) && UnlappedRun(Initial(n, true, threads), moves)
    requires AllIdle(After(Initial(n, true, threads), moves))
    ensures var s := After(Initial(n, true, threads), moves);
            |s.log| == s.hold == CallsMade(Initial(n, true, threads), moves)
  {
    var i := Initial(n, true, threads);
    var s := After(i, moves);
    EveryCallCounts(n, true, threads, moves);
    assert Waiting(s) == {} by { hide After, UnlappedRun; }
    RunQuiescence(n, true, threads, moves);
    RunDelivery(n, true, threads, moves);
    ReachableGood(n, true, threads, moves);
    hide After, UnlappedRun, Initial, CallsMade;
    LogHasAll(s);
    DistinctCount(s.log, Tickets(s.hold));
  }

  lemma LogHasAll(s: State)
    requires Good(s) && s.sync && AllIdle(s) && s.base == 0
    ensures forall k: nat :: k in Tickets(s.hold) <==> Logged(s.log, k)
  {
    QuiescentIndices(s);
    forall k: nat ensures k < s.hold <==> Logged(s.log, k) {
      if k < s.hold { QuiescentSyncDelivered(s, k); }
      if i: nat :| i < |s.log| && s.log[i].ticket == k { AtMostOnce(s, i, i); }
    }
  }

  // The other loops, and when they are left.

  ghost predicate Publishes(pc: Pc) { pc.PubLoad? || pc.PubCheck? || pc.PubTest? || pc.PubCas? }

  ghost predicate Retires(pc: Pc) { pc.RetLoad? || pc.RetCheck? || pc.RetTest? || pc.RetCas? }

  /** The publishing loop is left only where nothing is held or the next slot is not ready. */
  lemma PublishStep(s: State, t: nat, c: Choice)
    requires s.Shape() && t < |s.th| && Publishes(s.th[t])
    ensures var pc, s' := s.th[t], Step(s, t, c);
            && (!Publishes(s'.th[t]) <==>
                  || (pc.PubCheck? && Slot(pc.seen, s.n) == Slot(s.hold, s.n))
                  || (pc.PubTest? && s.MarkOf(pc.seen) != Ready))
            && (!Publishes(s'.th[t]) ==> s'.th[t] == if s.sync then ProcLoad else Idle)
            && (s'.write != s.write ==> pc.PubCas? && s'.write == s.write + 1)
            && (s'.write == s.write + 1 <==> pc.PubCas? && Slot(s.write, s.n) == Slot(pc.seen, s.n))
            && (pc.PubLoad? ==> s'.th[t] == PubCheck(s.write)) && (pc.PubCas? ==> s'.th[t].PubLoad?)
  {
    hide Step, Slot;
    if Exchanges(s.th[t]) { StepExchanges(s, t, c); } else { StepLooks(s, t, c); }
  }

  /** The claiming loop is left only where nothing is published or another thread was faster. */
  lemma ClaimStep(s: State, t: nat, c: Choice)
    requires s.Shape() && t < |s.th| && (s.th[t].ProcLoad? || s.th[t].ProcCheck? || s.th[t].ProcCas?)
    ensures var pc, s' := s.th[t], Step(s, t, c);
            && (s'.th[t].Idle? <==>
                  || (pc.ProcCheck? && Slot(pc.seen, s.n) == Slot(s.write, s.n))
                  || (pc.ProcCas? && Slot(pc.seen, s.n) != Slot(s.proc, s.n)))
            && (s'.th[t] == Dispatch(s.proc) <==> pc.ProcCas? && Slot(pc.seen, s.n) == Slot(s.proc, s.n))
            && (s'.th[t].Dispatch? ==> s'.proc == s.proc + 1) && (!s'.th[t].Dispatch? ==> s'.proc == s.proc)
            && (pc.ProcLoad? ==> s'.th[t] == ProcCheck(s.proc))
  {
    hide Step, Slot;
    if Exchanges(s.th[t]) { StepExchanges(s, t, c); } else { StepLooks(s, t, c); }
  }

  /** The retiring loop is left, for the claiming loop, only where nothing is claimed or the next slot is in use. */
  lemma RetireStep(s: State, t: nat, c: Choice)
    requires s.Shape() && t < |s.th| && Retires(s.th[t])
    ensures var pc, s' := s.th[t], Step(s, t, c);
            && (!Retires(s'.th[t]) <==>
                  || (pc.RetCheck? && Slot(pc.seen, s.n) == Slot(s.proc, s.n))
                  || (pc.RetTest? && s.MarkOf(pc.seen) != Invalid))
            && (!Retires(s'.th[t]) ==> s'.th[t].ProcLoad?)
            && (s'.read == s.read + 1 <==> pc.RetCas? && Slot(s.read, s.n) == Slot(pc.seen, s.n))
            && (pc.RetLoad? ==> s'.th[t] == RetCheck(s.read)) && (pc.RetCas? ==> s'.th[t].RetLoad?)
  {
    hide Step, Slot;
    if Exchanges(s.th[t]) { StepExchanges(s, t, c); } else { StepLooks(s, t, c); }
  }

  // PushChannel: the text.

  /** `r` is `text`, cut so that it fits a slot with a line end and a NUL behind it, and the line end. */
  ghost predicate Closes(r: string, text: string) {
    && |r| == (if |text| < LOG_SIZE - 2 then |text| else LOG_SIZE - 2) + 1
    && r[|r| - 1] == '\n' && forall i :: 0 <= i < |r| - 1 ==> r[i] == text[i]
  }

  lemma SealCloses(text: string)
    ensures Closes(Seal(text), text)
  {
  }

  /** A thread that writes and finishes publishes what it has written. */
  lemma FillSteps(s: State, t: nat, k: nat, text: string, c: Choice)
    requires s.Shape() && t < |s.th| && s.th[t] == Fill(k)
    ensures var r := Step(Step(Step(s, t, Write(text)), t, Finish), t, c);
            && r.th[t] == PubLoad && k in r.sent && Closes(r.sent[k], text)
            && r.TextOf(k) == r.sent[k] && r.MarkOf(k) == Ready
  {
    SealCloses(text);
    hide Slot, Seal, Look, Closes;
    var a := Step(s, t, Write(text));
    var b := Step(a, t, Finish);
    assert a.TextOf(k) == text && a.th[t] == Fill(k);
    assert b.TextOf(k) == Seal(text) && b.th[t] == SetReady(k);
  }

  /** What stands in the slot of each ticket while its owner fills it: what it found there, then its last write. */
  ghost function Noted(s: State, m: Move, drafts: map<nat, string>): map<nat, string>
    requires s.Shape() && m.t < |s.th|
  {
    match s.th[m.t]
    case HoldMark(k) => drafts[k := s.TextOf(k)]
    case Fill(k) => if m.c.Write? then drafts[k := m.c.text] else drafts
    case _ => drafts
  }

  ghost function Drafts(s: State, moves: seq<Move>, drafts: map<nat, string>): map<nat, string>
    requires Runnable(s, moves)
    decreases |moves|
  {
    if moves == [] then drafts
    else Drafts(Step(s, moves[0].t, moves[0].c), moves[1..], Noted(s, moves[0], drafts))
  }

  ghost predicate DraftAt(s: State, drafts: map<nat, string>, t: nat)
    requires s.Shape() && t < |s.th|
  {
    match s.th[t]
    case Fill(k) => k in drafts && s.TextOf(k) == drafts[k]
    case SetReady(k) => k in drafts && Closes(s.TextOf(k), drafts[k])
    case _ => true
  }

  ghost predicate SentAsDrafted(s: State, drafts: map<nat, string>) {
    forall k: nat :: k in s.sent ==> k in drafts && Closes(s.sent[k], drafts[k])
  }

  ghost predicate Drafted(s: State, drafts: map<nat, string>)
    requires s.Shape()
  {
    && (forall t: nat :: t < |s.th| ==> DraftAt(s, drafts, t))
    && SentAsDrafted(s, drafts)
  }

  /** Only the ticket a thread is inside of is noted, and none that is published is. */
  lemma NotedOthers(s: State, m: Move, drafts: map<nat, string>, k: nat)
    requires s.Shape() && m.t < |s.th| && k in drafts
    requires (s.th[m.t].HoldMark? || s.th[m.t].Fill?) ==> s.th[m.t].k != k
    ensures k in Noted(s, m, drafts) && Noted(s, m, drafts)[k] == drafts[k]
  {
  }

  /** What another thread has in hand is left alone. */
  lemma DraftOthers(s: State, m: Move, drafts: map<nat, string>, u: nat)
    requires Good(s) && m.t < |s.th| && u < |s.th| && u != m.t && DraftAt(s, drafts, u)
    ensures DraftAt(Step(s, m.t, m.c), Noted(s, m, drafts), u)
  {
    StepMovesOne(s, m.t, m.c);
    if s.th[u].Fill? || s.th[u].SetReady? {
      var k := s.th[u].k;
      if OwnsSlot(s.th[m.t]) {
        OneOwnerPerSlot(s, m.t, u);
        OwnerTouchesItsSlot(s, m.t, m.c);
      } else {
        OthersTouchNoSlot(s, m.t, m.c);
      }
      hide Good, Step, Closes;
      NotedOthers(s, m, drafts, k);
      assert Step(s, m.t, m.c).TextOf(k) == s.TextOf(k);
    }
  }

  lemma DraftOwn(s: State, m: Move, drafts: map<nat, string>)
    requires s.Shape() && m.t < |s.th| && DraftAt(s, drafts, m.t)
    ensures DraftAt(Step(s, m.t, m.c), Noted(s, m, drafts), m.t)
  {
    match s.th[m.t]
    case HoldMark(k) => hide Slot, Look, Seal, Closes;
    case Fill(k) =>
      SealCloses(s.TextOf(k));
      hide Slot, Look, Seal, Closes;
    case _ =>
      NotFilling(s, m.t, m.c);
      hide Step, Closes;
  }

  lemma NotFilling(s: State, t: nat, c: Choice)
    requires s.Shape() && t < |s.th| && !s.th[t].HoldMark? && !s.th[t].Fill?
    ensures !Step(s, t, c).th[t].Fill? && !Step(s, t, c).th[t].SetReady?
  {
    if OwnsSlot(s.th[t]) {
      hide Slot, Look, Seal;
    } else {
      LoopStep(s, t, c);
      hide Step;
    }
  }

  ghost predicate Fills(pc: Pc) { pc.HoldMark? || pc.Fill? || pc.SetReady? }

  /** What is published is not being filled any more. */
  ghost predicate Unsent(s: State) {
    && (forall k: nat :: k in s.sent ==> k < s.hold)
    && (forall t: nat :: t < |s.th| && Fills(s.th[t]) ==> s.th[t].k !in s.sent)
  }

  lemma SentStep(s: State, t: nat, c: Choice)
    requires s.Shape() && t < |s.th|
    ensures var pc, s' := s.th[t], Step(s, t, c);
            && (if pc.SetReady? then s'.sent == s.sent[pc.k := s.TextOf(pc.k)] && s'.th[t].PubLoad?
                else s'.sent == s.sent)
            && s'.hold >= s.hold && s'.log == (if pc.Dispatch? then s.log + [Entry(pc.k, s.TextOf(pc.k))] else s.log)
            && (Fills(s'.th[t]) ==> (s'.th[t] == HoldMark(s.hold) && s'.hold == s.hold + 1 && !Fills(pc))
                                    || (Fills(pc) && s'.th[t].k == pc.k))
  {
    hide Step, Slot, Look;
    if OwnsSlot(s.th[t]) {
      SentOwner(s, t, c);
    } else {
      LookSteps(s, t, c);
      if Exchanges(s.th[t]) { StepExchanges(s, t, c); } else { StepLooks(s, t, c); }
    }
  }

  lemma SentOwner(s: State, t: nat, c: Choice)
    requires s.Shape() && t < |s.th| && OwnsSlot(s.th[t])
    ensures var pc, s' := s.th[t], Step(s, t, c);
            && (if pc.SetReady? then s'.sent == s.sent[pc.k := s.TextOf(pc.k)] && s'.th[t].PubLoad?
                else s'.sent == s.sent)
            && s'.hold == s.hold && s'.log == (if pc.Dispatch? then s.log + [Entry(pc.k, s.TextOf(pc.k))] else s.log)
            && (Fills(s'.th[t]) ==> Fills(pc) && s'.th[t].k == pc.k)
  {
    hide Step, Slot, Look, Seal;
    StepOwns(s, t, c);
  }

  lemma UnsentStep(s: State, t: nat, c: Choice)
    requires Inv(s) && Unsent(s) && t < |s.th|
    ensures Unsent(Step(s, t, c))
  {
    var s' := Step(s, t, c);
    SentStep(s, t, c);
    StepMovesOne(s, t, c);
    hide Step;
    assert LocalAt(s, t);
    forall u: nat | u < |s'.th| && Fills(s'.th[u]) ensures s'.th[u].k !in s'.sent {
      assert LocalAt(s, u);
    }
  }

  lemma SentKept(s: State, m: Move, drafts: map<nat, string>)
    requires Inv(s) && Unsent(s) && m.t < |s.th| && Drafted(s, drafts)
    ensures SentAsDrafted(Step(s, m.t, m.c), Noted(s, m, drafts))
  {
    var s', drafts' := Step(s, m.t, m.c), Noted(s, m, drafts);
    SentStep(s, m.t, m.c);
    assert DraftAt(s, drafts, m.t);
    hide Step, Inv, Closes;
    forall k: nat | k in s'.sent ensures k in drafts' && Closes(s'.sent[k], drafts'[k]) {
      if k in s.sent && s'.sent[k] == s.sent[k] { NotedOthers(s, m, drafts, k); }
    }
  }

  lemma DraftedStep(s: State, m: Move, drafts: map<nat, string>)
    requires Good(s) && Unsent(s) && m.t < |s.th| && Drafted(s, drafts)
    ensures Drafted(Step(s, m.t, m.c), Noted(s, m, drafts)) && Unsent(Step(s, m.t, m.c))
  {
    UnsentStep(s, m.t, m.c);
    SentKept(s, m, drafts);
    StepMovesOne(s, m.t, m.c);
    hide Step, DraftAt, SentAsDrafted, Noted, Good, Unsent;
    var s', drafts' := Step(s, m.t, m.c), Noted(s, m, drafts);
    forall u: nat | u < |s'.th| ensures DraftAt(s', drafts', u) {
      if u == m.t { DraftOwn(s, m, drafts); } else { DraftOthers(s, m, drafts, u); }
    }
  }

  lemma {:induction false} DraftedRun(s: State, moves: seq<Move>, drafts: map<nat, string>)
    requires Good(s) && Unsent(s) && Runnable(s, moves) && GuardedRun(s, moves) && Drafted(s, drafts)
    ensures Drafted(After(s, moves), Drafts(s, moves, drafts))
    decreases |moves|
  {
    if moves != [] {
      StepGood(s, moves[0].t, moves[0].c);
      DraftedStep(s, moves[0], drafts);
      hide Good, Step, Guarded, Unsent, Drafted, Noted;
      DraftedRun(Step(s, moves[0].t, moves[0].c), moves[1..], Noted(s, moves[0], drafts));
    }
  }

  /** Whatever is dispatched in a run is what its producer wrote last, cut to fit and closed. */
  lemma DispatchedAsWritten(n: nat, sync: bool, threads: nat, moves: seq<Move>)
    requires n > 1 && Runnable(Initial(n, sync, threads), moves) && UnlappedRun(Initial(n, sync, threads), moves)
    ensures var s, drafts := After(Initial(n, sync, threads), moves), Drafts(Initial(n, sync, threads), moves, map[]);
            forall i: nat :: i < |s.log| ==>
              s.log[i].ticket in drafts && Closes(s.log[i].text, drafts[s.log[i].ticket])
  {
    var i := Initial(n, sync, threads);
    InitialGood(n, sync, threads);
    UnlappedRunIsGuarded(i, moves);
    DraftedRun(i, moves, map[]);
    RunDelivery(n, sync, threads, moves);
    hide After, UnlappedRun, GuardedRun, Closes;
  }

  // The draft is the last write.

  ghost predicate Writes(s: State, m: Move, k: nat)
    requires m.t < |s.th|
  {
    s.th[m.t] == HoldMark(k) || (s.th[m.t] == Fill(k) && m.c.Write?)
  }

  ghost predicate NotWritten(s: State, moves: seq<Move>, k: nat)
    requires Runnable(s, moves)
    decreases |moves|
  {
    moves == [] || (!Writes(s, moves[0], k) && NotWritten(Step(s, moves[0].t, moves[0].c), moves[1..], k))
  }

  lemma {:induction false} DraftStays(s: State, moves: seq<Move>, drafts: map<nat, string>, k: nat)
    requires Runnable(s, moves) && k in drafts && NotWritten(s, moves, k)
    ensures k in Drafts(s, moves, drafts) && Drafts(s, moves, drafts)[k] == drafts[k]
    decreases |moves|
  {
    if moves != [] {
      hide Step;
      DraftStays(Step(s, moves[0].t, moves[0].c), moves[1..], Noted(s, moves[0], drafts), k);
    }
  }

  lemma {:induction false} DraftsConcat(s: State, a: seq<Move>, b: seq<Move>, drafts: map<nat, string>)
    requires Runnable(s, a) && Runnable(s, b)
    ensures Runnable(s, a + b) && Drafts(s, a + b, drafts) == Drafts(After(s, a), b, Drafts(s, a, drafts))
    decreases |a|
  {
    hide Step;
    if a == [] {
      assert a + b == b;
    } else {
      DraftsConcat(Step(s, a[0].t, a[0].c), a[1..], b, Noted(s, a[0], drafts));
      assert (a + b)[1..] == a[1..] + b && (a + b)[0] == a[0];
    }
  }

  /** A write is the draft until its thread writes again, whatever the others do. */
  lemma LastWrite(s: State, before: seq<Move>, m: Move, after: seq<Move>, drafts: map<nat, string>, k: nat)
    requires Runnable(s, before) && m.t < |s.th| && Runnable(s, after)
    requires var a := After(s, before);
             a.th[m.t] == Fill(k) && m.c.Write? && NotWritten(Step(a, m.t, m.c), after, k)
    ensures Runnable(s, before + ([m] + after)) && k in Drafts(s, before + ([m] + after), drafts)
    ensures Drafts(s, before + ([m] + after), drafts)[k] == m.c.text
  {
    var a, earlier := After(s, before), Drafts(s, before, drafts);
    DraftsConcat(s, before, [m] + after, drafts);
    assert ([m] + after)[0] == m && ([m] + after)[1..] == after;
    hide Step;
    DraftStays(Step(a, m.t, m.c), after, earlier[k := m.c.text], k);
  }
}
