/**
  The log ring of one fn-log channel (RingBuffer, HoldChannel, PushChannel and
  the claim and retire loops of EnterProcChannel) as an interleaving machine.

  Every load, store and compare-exchange of the source is one step of one thread.
  The four indices are kept as unbounded tickets so that runs can be talked about,
  but every comparison the code makes is made on the index it really stores, which
  is the ticket reduced modulo the ring length (`Slot`).
 */
module RingState {
  import opened Bits

  const LOG_SIZE: nat := 10000
  const RECOVER_TEXT: string := "!!!core recover!!!"

  datatype Mark = Invalid | Hold | Ready

  /** Where a thread stands: the next atomic access it will make, with its locals. */
  datatype Pc =
    | Idle
    // HoldChannel
    | HoldLoad | HoldCheck(seen: nat) | HoldCas(seen: nat) | HoldMark(k: nat)
    // the caller fills the slot it holds
    | Fill(k: nat)
    // PushChannel
    | SetReady(k: nat)
    | PubLoad | PubCheck(seen: nat) | PubTest(seen: nat) | PubCas(seen: nat)
    // EnterProcChannel, claiming and dispatching
    | ProcLoad | ProcCheck(seen: nat) | ProcCas(seen: nat) | Dispatch(k: nat) | Clear(k: nat)
    // EnterProcChannel, retiring
    | RetLoad | RetCheck(seen: nat) | RetTest(seen: nat) | RetCas(seen: nat)

  /** What the environment decides at a step: whether an idle thread logs, and what it writes. */
  datatype Choice = Start | Write(text: string) | Finish | Stay

  datatype Entry = Entry(ticket: nat, text: string)

  /**
    `hold`, `write`, `proc`, `read`, `marks`, `buf` are the shared memory, `th` the threads.
    The rest is history that no step reads: `owner` and `claimer` say which thread took and
    claimed a ticket, `sent` what its producer published, `log` what was dispatched since the
    channel was started (`base` is the first ticket of this start), `done` where in `log` a
    ticket is, and `redo` bounds the tickets a crash recovery handed out a second time.
   */
  datatype State = State(
    n: nat, sync: bool,
    hold: nat, write: nat, proc: nat, read: nat,
    marks: seq<Mark>, buf: seq<string>, th: seq<Pc>,
    owner: map<nat, nat>, claimer: map<nat, nat>, sent: map<nat, string>,
    log: seq<Entry>, done: map<nat, nat>, base: nat, redo: nat)
  {
    ghost predicate Shape() { n > 1 && |marks| == n && |buf| == n }

    /** Steps keep the dimensions of the ring and the number of threads. */
    ghost predicate Fits(s: State) {
      s.Shape() && s.n == n && s.sync == sync && s.base == base && s.redo == redo && |s.th| == |th|
    }

    function To(t: nat, pc: Pc): (s: State)
      requires t < |th|
      ensures Shape() ==> Fits(s)
    {
      this.(th := th[t := pc])
    }

    function MarkOf(k: nat): Mark
      requires n > 0 && |marks| == n
    {
      marks[Slot(k, n)]
    }

    function TextOf(k: nat): string
      requires n > 0 && |buf| == n
    {
      buf[Slot(k, n)]
    }

    function SetMark(k: nat, m: Mark): State
      requires n > 0 && |marks| == n
    {
      this.(marks := marks[Slot(k, n) := m])
    }

    function SetText(k: nat, text: string): State
      requires n > 0 && |buf| == n
    {
      this.(buf := buf[Slot(k, n) := text])
    }
  }

  /** The index stored for a ticket. Written as a recursion so that proofs see no `%`. */
  function Slot(k: nat, n: nat): (i: nat)
    requires n > 0
    ensures i < n
  {
    if k < n then k else Slot(k - n, n)
  }

  lemma {:induction false} SlotIsModulo(k: nat, n: nat)
    requires n > 0
    ensures Slot(k, n) == k % n
  {
    if k >= n {
      SlotIsModulo(k - n, n);
      assert k % n == (k - n) % n by {
        var q, r := (k - n) / n, (k - n) % n;
        assert k == (q + 1) * n + r;
        QuotientIs(k, q + 1, r, n);
      }
    }
  }

  /** The code computes a successor from the stored index, not from the ticket. */
  lemma {:induction false} SlotSuccessor(k: nat, n: nat)
    requires n > 1
    ensures Slot(Slot(k, n) + 1, n) == Slot(k + 1, n)
  {
    if k >= n {
      SlotSuccessor(k - n, n);
    }
  }

  /** Two different tickets fewer than `n` apart never share a slot. */
  lemma {:induction false} SlotInjective(a: nat, b: nat, n: nat)
    requires n > 0 && a < b < a + n
    ensures Slot(a, n) != Slot(b, n)
  {
    if a >= n {
      SlotInjective(a - n, b - n, n);
    } else if b >= n {
      assert Slot(b, n) == b - n;
    }
  }

  lemma SlotWindow(lo: nat, n: nat)
    requires n > 0
    ensures forall a: nat, b: nat {:trigger Slot(a, n), Slot(b, n)} ::
      lo <= a < lo + n && lo <= b < lo + n && Slot(a, n) == Slot(b, n) ==> a == b
  {
    forall a: nat, b: nat | lo <= a < lo + n && lo <= b < lo + n && Slot(a, n) == Slot(b, n)
      ensures a == b
    {
      if a < b {
        SlotInjective(a, b, n);
      } else if b < a {
        SlotInjective(b, a, n);
      }
    }
  }

  /** PushChannel closes the text with a line end, cutting it so that it fits the slot. */
  function Seal(text: string): (r: string)
    ensures |r| < LOG_SIZE
  {
    (if |text| <= LOG_SIZE - 2 then text else text[..LOG_SIZE - 2]) + "\n"
  }

  /** What LoadSharedMemory makes of a slot it found reserved but not published. */
  function Recovered(text: string): (r: string)
    ensures |r| < LOG_SIZE
  {
    var room := LOG_SIZE - |RECOVER_TEXT| - 2;
    (if |text| <= room then text else text[..room]) + RECOVER_TEXT + "\n"
  }

  // The stores and the successful compare-exchanges, each with the move of its thread.

  function TakeTicket(s: State, t: nat): (s': State)
    requires t < |s.th|
    ensures s.Shape() ==> s.Fits(s')
  {
    s.(hold := s.hold + 1, owner := s.owner[s.hold := t]).To(t, HoldMark(s.hold))
  }

  function MarkHeld(s: State, t: nat, k: nat): (s': State)
    requires s.Shape() && t < |s.th|
    ensures s.Fits(s')
  {
    s.SetMark(k, Hold).To(t, Fill(k))
  }

  function PutText(s: State, t: nat, k: nat, text: string, pc: Pc): (s': State)
    requires s.Shape() && t < |s.th|
    ensures s.Fits(s')
  {
    s.SetText(k, text).To(t, pc)
  }

  function MarkReady(s: State, t: nat, k: nat): (s': State)
    requires s.Shape() && t < |s.th|
    ensures s.Fits(s')
  {
    s.SetMark(k, Ready).(sent := s.sent[k := s.TextOf(k)]).To(t, PubLoad)
  }

  function AdvanceWrite(s: State, t: nat): (s': State)
    requires t < |s.th|
    ensures s.Shape() ==> s.Fits(s')
  {
    s.(write := s.write + 1).To(t, PubLoad)
  }

  function ClaimTicket(s: State, t: nat): (s': State)
    requires t < |s.th|
    ensures s.Shape() ==> s.Fits(s')
  {
    s.(proc := s.proc + 1, claimer := s.claimer[s.proc := t]).To(t, Dispatch(s.proc))
  }

  function DispatchText(s: State, t: nat, k: nat): (s': State)
    requires s.Shape() && t < |s.th|
    ensures s.Fits(s')
  {
    s.(log := s.log + [Entry(k, s.TextOf(k))], done := s.done[k := |s.log|]).To(t, Clear(k))
  }

  function ClearMark(s: State, t: nat, k: nat): (s': State)
    requires s.Shape() && t < |s.th|
    ensures s.Fits(s')
  {
    s.SetMark(k, Invalid).To(t, RetLoad)
  }

  function AdvanceRead(s: State, t: nat): (s': State)
    requires t < |s.th|
    ensures s.Shape() ==> s.Fits(s')
  {
    s.(read := s.read + 1).To(t, RetLoad)
  }

  /** Where a load, a check or a failed compare-exchange takes thread `t`. */
  function Look(s: State, t: nat, c: Choice): Pc
    requires s.Shape() && t < |s.th|
  {
    match s.th[t]
    case Idle => if !s.sync && t == 0 then ProcLoad else if c.Start? then HoldLoad else Idle
    case HoldLoad => HoldCheck(s.hold)
    case HoldCheck(seen) => if Slot(Slot(seen, s.n) + 1, s.n) == Slot(s.read, s.n) then HoldLoad else HoldCas(seen)
    case HoldCas(_) => HoldLoad
    case PubLoad => PubCheck(s.write)
    case PubCheck(seen) => if Slot(seen, s.n) == Slot(s.hold, s.n) then AfterPublish(s) else PubTest(seen)
    case PubTest(seen) => if s.MarkOf(seen) != Ready then AfterPublish(s) else PubCas(seen)
    case PubCas(_) => PubLoad
    case ProcLoad => ProcCheck(s.proc)
    case ProcCheck(seen) => if Slot(seen, s.n) == Slot(s.write, s.n) then Idle else ProcCas(seen)
    case ProcCas(_) => Idle
    case RetLoad => RetCheck(s.read)
    case RetCheck(seen) => if Slot(seen, s.n) == Slot(s.proc, s.n) then ProcLoad else RetTest(seen)
    case RetTest(seen) => if s.MarkOf(seen) != Invalid then ProcLoad else RetCas(seen)
    case RetCas(_) => RetLoad
    case pc => pc
  }

  /** One atomic step of thread `t`. */
  function Step(s: State, t: nat, c: Choice): (s': State)
    requires s.Shape() && t < |s.th|
    ensures s.Fits(s')
  {
    match s.th[t]
    case HoldCas(seen) => if Slot(s.hold, s.n) == Slot(seen, s.n) then TakeTicket(s, t) else s.To(t, Look(s, t, c))
    case HoldMark(k) => MarkHeld(s, t, k)
    case Fill(k) =>
      if c.Write? then PutText(s, t, k, c.text, Fill(k))
      else if c.Finish? then PutText(s, t, k, Seal(s.TextOf(k)), SetReady(k))
      else s
    case SetReady(k) => MarkReady(s, t, k)
    case PubCas(seen) => if Slot(s.write, s.n) == Slot(seen, s.n) then AdvanceWrite(s, t) else s.To(t, Look(s, t, c))
    case ProcCas(seen) => if Slot(s.proc, s.n) == Slot(seen, s.n) then ClaimTicket(s, t) else s.To(t, Look(s, t, c))
    case Dispatch(k) => DispatchText(s, t, k)
    case Clear(k) => ClearMark(s, t, k)
    case RetCas(seen) => if Slot(s.read, s.n) == Slot(seen, s.n) then AdvanceRead(s, t) else s.To(t, Look(s, t, c))
    case _ => s.To(t, Look(s, t, c))
  }

  /** PushChannel enters the processing loop itself only on a synchronous channel. */
  function AfterPublish(s: State): Pc {
    if s.sync then ProcLoad else Idle
  }

  /** A channel as the logger starts it: empty, with any number of idle threads. */
  function Initial(n: nat, sync: bool, threads: nat): State
    requires n > 1
  {
    State(n, sync, 0, 0, 0, 0, seq(n, _ => Invalid), seq(n, _ => ""), seq(threads, _ => Idle),
          map[], map[], map[], [], map[], 0, 0)
  }

  /**
    A compare-exchange compares stored indices only, so a thread that slept for whole laps of
    the ring can succeed with checks that no longer hold. `Guarded` says that when the next
    access of `t` is a compare-exchange that will succeed, the checks made before it hold now.
   */
  ghost predicate Guarded(s: State, t: nat)
    requires s.Shape() && t < |s.th|
  {
    match s.th[t]
    case HoldCas(seen) => Slot(s.hold, s.n) == Slot(seen, s.n) ==> s.hold + 1 < s.read + s.n
    case PubCas(seen) => Slot(s.write, s.n) == Slot(seen, s.n) ==> s.write < s.hold && s.MarkOf(s.write) == Ready
    case ProcCas(seen) => Slot(s.proc, s.n) == Slot(seen, s.n) ==> s.proc < s.write
    case RetCas(seen) => Slot(s.read, s.n) == Slot(seen, s.n) ==> s.read < s.proc && s.MarkOf(s.read) == Invalid
    case _ => true
  }

  /** The thread has slept whole laps: the index it compares with is back at the same slot. */
  ghost predicate Lapped(s: State, t: nat)
    requires s.Shape() && t < |s.th|
  {
    match s.th[t]
    case HoldCas(seen) => s.hold != seen && Slot(s.hold, s.n) == Slot(seen, s.n)
    case PubCas(seen) => s.write != seen && Slot(s.write, s.n) == Slot(seen, s.n)
    case ProcCas(seen) => s.proc != seen && Slot(s.proc, s.n) == Slot(seen, s.n)
    case RetCas(seen) => s.read != seen && Slot(s.read, s.n) == Slot(seen, s.n)
    case _ => false
  }
}
