/** The in-order reply queue of lib/send_queue.c as the threads of network_parser.c drive it.

    One step of the machine is one load, store or compare-and-swap of shared memory. Any number of
    owner threads run interleaved with one registrar; `Run` takes the interleaving as an arbitrary
    sequence of steps, so a lemma about `Run(Init(n), steps)` speaks about every schedule. */
module SendQueueProtocol {
  import opened Arithmetic

  /** A reply waiting to be sent: the `pre_send` union of send_queue.h. */
  datatype Reply =
    | SimpleString(text: string)
    | Error(message: string)
    | Number(n: int)
    | BulkString(bytes: string)
    | Nil
    | Array(elements: seq<Reply>)

  /** What a slot's data area holds: zero bytes, or a copied reply. */
  datatype Slot = Blank | Full(reply: Reply)

  /** The shared memory of one `struct send_queue`. */
  datatype Queue = Queue(length: nat, head: nat, headLock: nat, tail: nat, ready: seq<bool>, data: seq<Slot>) {
    predicate Shape() {
      |ready| == |data| == length && (length == 0 ==> tail == 0)
    }

    function SlotOf(i: nat): (k: nat)
      requires length > 0
      ensures k < length
    {
      i % length
    }
  }

  /** Program points of an owner thread: commit, then `pop_start`, then `pop_continue`. */
  datatype Pc =
    | WriteData | SetReady
    | LoadHead | CheckTail | CheckReady | CopyItem | TryLock
    | Send
    | ContLoad | ContTail | ContReady | ContLock | ContLockTail | ContCopy | ContBumpLock | ContBumpHead
    | Release
    | Done

  /** The thread that answers one registered index: `h`, `l` and `item` are its local variables,
      `reply` is what it committed. */
  datatype Owner = Owner(pc: Pc, h: nat, l: nat, item: Slot, reply: Slot)

  /** Program points of `send_queue_register`. */
  datatype RegPc = Check | Reset | Wipe | Publish

  /** `owners[i]` is the thread that registered index i. `holder` (the thread inside the drain
      section) and `sent` (what was handed to the socket) are history variables. */
  datatype State = State(q: Queue, reg: RegPc, owners: seq<Owner>, holder: int, sent: seq<Slot>)

  datatype Step = Registrar | OwnerStep(i: nat, reply: Reply)

  predicate Shape(s: State) {
    && s.q.Shape()
    && |s.owners| == s.q.tail
    && (s.reg != Check ==> s.q.length > 0)
  }

  function Init(length: nat): (s: State)
    ensures Shape(s)
  {
    State(Queue(length, 0, 0, 0, seq(length, _ => false), seq(length, _ => Blank)), Check, [], -1, [])
  }

  /** One step of `send_queue_register` (one registrar at a time); a full queue makes it retry. */
  function RegisterStep(s: State): (s': State)
    requires Shape(s)
    ensures Shape(s') && s'.q.length == s.q.length
  {
    var q := s.q;
    match s.reg
    case Check => if q.head <= q.tail && q.tail - q.head < q.length then s.(reg := Reset) else s
    case Reset => s.(q := q.(ready := q.ready[q.SlotOf(q.tail) := false]), reg := Wipe)
    case Wipe => s.(q := q.(data := q.data[q.SlotOf(q.tail) := Blank]), reg := Publish)
    case Publish =>
      s.(q := q.(tail := q.tail + 1), reg := Check, owners := s.owners + [Owner(WriteData, 0, 0, Blank, Blank)])
  }

  function Goto(s: State, i: nat, pc: Pc): (s': State)
    requires Shape(s) && i < s.q.tail
    ensures Shape(s') && s'.q.length == s.q.length
  {
    s.(owners := s.owners[i := s.owners[i].(pc := pc)])
  }

  /** One step of owner i. `reply` is the value it commits when it stands at `WriteData`. */
  function OwnerNext(s: State, i: nat, reply: Reply): (s': State)
    requires Shape(s) && i < s.q.tail
    ensures Shape(s') && s'.q.length == s.q.length
  {
    var q := s.q;
    var o := s.owners[i];
    match o.pc
    // send_queue_commit
    case WriteData =>
      Goto(s.(q := q.(data := q.data[q.SlotOf(i) := Full(reply)]),
              owners := s.owners[i := o.(reply := Full(reply))]), i, SetReady)
    case SetReady => Goto(s.(q := q.(ready := q.ready[q.SlotOf(i) := true])), i, LoadHead)
    // send_queue_pop_start
    case LoadHead => s.(owners := s.owners[i := o.(pc := CheckTail, h := q.head)])
    case CheckTail => if o.h == q.tail then Goto(s, i, Done) else Goto(s, i, CheckReady)
    case CheckReady => if !q.ready[q.SlotOf(o.h)] then Goto(s, i, Done) else Goto(s, i, CopyItem)
    case CopyItem => s.(owners := s.owners[i := o.(pc := TryLock, item := q.data[q.SlotOf(o.h)])])
    case TryLock =>
      if q.headLock == o.h
      then Goto(s.(q := q.(headLock := o.h + 1), holder := i), i, Send)
      else Goto(s, i, LoadHead)
    // send_pre_data
    case Send => Goto(s.(sent := s.sent + [o.item]), i, ContLoad)
    // send_queue_pop_continue
    case ContLoad => s.(owners := s.owners[i := o.(pc := ContTail, h := q.head)])
    case ContTail => if o.h + 1 == q.tail then Goto(s, i, Release) else Goto(s, i, ContReady)
    case ContReady => if q.ready[q.SlotOf(o.h + 1)] then Goto(s, i, ContLock) else Goto(s, i, Release)
    case ContLock => s.(owners := s.owners[i := o.(pc := ContLockTail, l := q.headLock)])
    case ContLockTail => if o.l != q.tail then Goto(s, i, ContCopy) else Goto(s, i, Release)
    case ContCopy => s.(owners := s.owners[i := o.(pc := ContBumpLock, item := q.data[q.SlotOf(o.h + 1)])])
    case ContBumpLock => Goto(s.(q := q.(headLock := q.headLock + 1)), i, ContBumpHead)
    case ContBumpHead => Goto(s.(q := q.(head := q.head + 1)), i, Send)
    case Release => Goto(s.(q := q.(head := q.head + 1), holder := -1), i, Done)
    case Done => s
  }

  function Apply(s: State, step: Step): (s': State)
    requires Shape(s)
    ensures Shape(s') && s'.q.length == s.q.length
  {
    match step
    case Registrar => RegisterStep(s)
    case OwnerStep(i, reply) => if i < s.q.tail then OwnerNext(s, i, reply) else s
  }

  function Run(s: State, steps: seq<Step>): (s': State)
    requires Shape(s)
    ensures Shape(s')
  {
    if steps == [] then s else Apply(Run(s, steps[..|steps| - 1]), steps[|steps| - 1])
  }

  // ---------- the invariant ----------

  predicate Committed(pc: Pc) { pc != WriteData && pc != SetReady }

  /** Inside the section that only the winner of the compare-and-swap may be in. */
  predicate Draining(pc: Pc) {
    pc in {Send, ContLoad, ContTail, ContReady, ContLock, ContLockTail, ContCopy, ContBumpLock, ContBumpHead, Release}
  }

  predicate Starting(pc: Pc) { pc in {CheckTail, CheckReady, CopyItem, TryLock} }

  predicate RingInv(s: State)
    requires Shape(s)
  {
    var q := s.q;
    && q.head <= q.tail <= q.head + q.length
    && (s.reg != Check ==> q.tail < q.head + q.length)
    && (s.reg in {Wipe, Publish} ==> !q.ready[q.SlotOf(q.tail)])
  }

  predicate SlotInv(s: State)
    requires Shape(s)
  {
    var q := s.q;
    && (forall i | 0 <= i < q.tail && i < q.head :: Committed(s.owners[i].pc))
    && (forall i | q.head <= i < q.tail ::
          && (q.ready[q.SlotOf(i)] <==> Committed(s.owners[i].pc))
          && (s.owners[i].pc != WriteData ==> q.data[q.SlotOf(i)] == s.owners[i].reply))
  }

  predicate SentInv(s: State)
    requires Shape(s)
  {
    |s.sent| <= s.q.tail && forall k | 0 <= k < |s.sent| :: s.sent[k] == s.owners[k].reply
  }

  predicate LockInv(s: State)
    requires Shape(s)
  {
    && (forall i | 0 <= i < s.q.tail :: Draining(s.owners[i].pc) <==> s.holder == i)
    && -1 <= s.holder < s.q.tail
    && (s.holder == -1 ==> s.q.headLock == s.q.head && |s.sent| == s.q.head)
  }

  /** What the drainer knows at each program point. */
  predicate DrainerInv(s: State)
    requires Shape(s)
  {
    s.holder < 0 || s.holder >= s.q.tail ||
    var q := s.q;
    var o := s.owners[s.holder];
    var next := q.head + 1;
    && q.headLock == (if o.pc == ContBumpHead then q.head + 2 else q.head + 1)
    && q.head < q.tail && Committed(s.owners[q.head].pc)
    && |s.sent| == (if o.pc == Send then q.head else q.head + 1)
    && (o.pc == Send ==> o.item == s.owners[q.head].reply)
    && (o.pc !in {Send, ContLoad} ==> o.h == q.head || o.pc == Release)
    && (o.pc in {ContReady, ContLock, ContLockTail, ContCopy, ContBumpLock, ContBumpHead} ==> next < q.tail)
    && (o.pc in {ContLock, ContLockTail, ContCopy, ContBumpLock, ContBumpHead} ==> Committed(s.owners[next].pc))
    && (o.pc == ContLockTail ==> o.l == next)
    && (o.pc in {ContBumpLock, ContBumpHead} ==> o.item == s.owners[next].reply)
  }

  /** A thread inside `pop_start` whose head is still current has seen the truth about it. */
  predicate StarterOk(s: State, o: Owner)
    requires Shape(s)
  {
    && o.h <= s.q.head
    && (o.h == s.q.head ==>
          && (o.pc != CheckTail ==> s.q.head < s.q.tail)
          && (o.pc in {CopyItem, TryLock} ==> s.q.head < s.q.tail && Committed(s.owners[s.q.head].pc))
          && (o.pc == TryLock ==> s.q.head < s.q.tail && o.item == s.owners[s.q.head].reply))
  }

  predicate StarterInv(s: State)
    requires Shape(s)
  {
    forall i | 0 <= i < s.q.tail && Starting(s.owners[i].pc) :: StarterOk(s, s.owners[i])
  }

  predicate Core(s: State) {
    Shape(s) && RingInv(s) && SlotInv(s) && SentInv(s) && LockInv(s) && DrainerInv(s) && StarterInv(s)
  }

  lemma SameRemainder(i: nat, j: nat, n: nat)
    requires n > 0 && i % n == j % n
    ensures j - i == (j / n - i / n) * n
  {
    assert i == (i / n) * n + i % n;
    assert j == (j / n) * n + j % n;
  }

  /** Indices less than a ring apart use different slots. */
  lemma SlotsDiffer(i: nat, j: nat, n: nat)
    requires i < j < i + n
    ensures i % n != j % n
  {
    if i % n == j % n {
      SameRemainder(i, j, n);
      MultipleBound(j / n - i / n, n);
      assert false;
    }
  }
}
