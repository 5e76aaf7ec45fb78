/** The queue keeps its invariant in every interleaving, delivers in order and strands no reply. */
module SendQueueProof {
  import opened SendQueueProtocol

  lemma RingSlotsDiffer(q: Queue)
    requires q.length > 0
    ensures forall i, j {:trigger q.SlotOf(i), q.SlotOf(j)} ::
              q.head <= i < j < q.head + q.length ==> q.SlotOf(i) != q.SlotOf(j)
  {
    forall i, j | q.head <= i < j < q.head + q.length
      ensures q.SlotOf(i) != q.SlotOf(j)
    {
      SlotsDiffer(i, j, q.length);
    }
  }

  /** A step that writes only the local variables of one thread keeps the invariant, provided the
      thread's own claims hold at its new program point. */
  lemma LocalStepKeepsCore(s: State, i: nat, o: Owner, s': State)
    requires Core(s) && i < s.q.tail && s' == s.(owners := s.owners[i := o])
    requires Committed(s.owners[i].pc) && Committed(o.pc) && o.reply == s.owners[i].reply
    requires Draining(o.pc) <==> Draining(s.owners[i].pc)
    requires Starting(o.pc) ==> StarterOk(s, o)
    requires s.holder == i ==> DrainerInv(s')
    ensures Core(s')
  {
    assert RingInv(s') && SlotInv(s') && SentInv(s') && LockInv(s');
    assert DrainerInv(s');
    assert StarterInv(s');
  }

  lemma StartKeepsCore(s: State, i: nat, reply: Reply)
    requires Core(s) && i < s.q.tail && s.owners[i].pc in {LoadHead, CheckTail, CheckReady, CopyItem}
    ensures Core(OwnerNext(s, i, reply))
  {
    var s' := OwnerNext(s, i, reply);
    LocalStepKeepsCore(s, i, s'.owners[i], s');
  }

  lemma ContinueKeepsCore(s: State, i: nat, reply: Reply)
    requires Core(s) && i < s.q.tail
    requires s.owners[i].pc in {ContLoad, ContTail, ContReady, ContLock, ContLockTail, ContCopy}
    ensures Core(OwnerNext(s, i, reply))
  {
    var s' := OwnerNext(s, i, reply);
    assert s.holder == i;
    LocalStepKeepsCore(s, i, s'.owners[i], s');
  }

  lemma WriteDataKeepsSlots(s: State, i: nat, reply: Reply)
    requires Core(s) && i < s.q.tail && s.owners[i].pc == WriteData
    ensures RingInv(OwnerNext(s, i, reply))
    ensures SlotInv(OwnerNext(s, i, reply))
  {
    RingSlotsDiffer(s.q);
  }

  lemma WriteDataKeepsSent(s: State, i: nat, reply: Reply)
    requires Core(s) && i < s.q.tail && s.owners[i].pc == WriteData
    ensures SentInv(OwnerNext(s, i, reply))
  {
    hide RingInv, StarterInv;
    assert |s.sent| <= i;
  }

  lemma WriteDataKeepsThreads(s: State, i: nat, reply: Reply)
    requires Core(s) && i < s.q.tail && s.owners[i].pc == WriteData
    ensures LockInv(OwnerNext(s, i, reply))
    ensures DrainerInv(OwnerNext(s, i, reply))
    ensures StarterInv(OwnerNext(s, i, reply))
  {
    hide RingInv, SlotInv, SentInv;
  }

  lemma SetReadyKeepsSlots(s: State, i: nat, reply: Reply)
    requires Core(s) && i < s.q.tail && s.owners[i].pc == SetReady
    ensures RingInv(OwnerNext(s, i, reply))
    ensures SlotInv(OwnerNext(s, i, reply))
  {
    RingSlotsDiffer(s.q);
  }

  lemma SetReadyKeepsThreads(s: State, i: nat, reply: Reply)
    requires Core(s) && i < s.q.tail && s.owners[i].pc == SetReady
    ensures SentInv(OwnerNext(s, i, reply))
    ensures LockInv(OwnerNext(s, i, reply))
    ensures DrainerInv(OwnerNext(s, i, reply))
    ensures StarterInv(OwnerNext(s, i, reply))
  {
    hide RingInv, SlotInv;
  }

  lemma TryLockKeepsCore(s: State, i: nat, reply: Reply)
    requires Core(s) && i < s.q.tail && s.owners[i].pc == TryLock
    ensures Core(OwnerNext(s, i, reply))
  {
    var s' := OwnerNext(s, i, reply);
    if s.q.headLock == s.owners[i].h {
      assert StarterOk(s, s.owners[i]);
      assert s.holder == -1;
      assert RingInv(s') && SlotInv(s') && SentInv(s') && LockInv(s');
      assert DrainerInv(s');
      assert StarterInv(s');
    } else {
      LocalStepKeepsCore(s, i, s'.owners[i], s');
    }
  }

  lemma SendKeepsSlots(s: State, i: nat, reply: Reply)
    requires Core(s) && i < s.q.tail && s.owners[i].pc in {Send, ContBumpLock}
    ensures RingInv(OwnerNext(s, i, reply))
    ensures SlotInv(OwnerNext(s, i, reply))
    ensures SentInv(OwnerNext(s, i, reply))
  {
    assert s.holder == i;
  }

  lemma SendKeepsThreads(s: State, i: nat, reply: Reply)
    requires Core(s) && i < s.q.tail && s.owners[i].pc in {Send, ContBumpLock}
    ensures LockInv(OwnerNext(s, i, reply))
    ensures DrainerInv(OwnerNext(s, i, reply))
    ensures StarterInv(OwnerNext(s, i, reply))
  {
    assert s.holder == i;
  }

  lemma ContBumpHeadKeepsSlots(s: State, i: nat, reply: Reply)
    requires Core(s) && i < s.q.tail && s.owners[i].pc == ContBumpHead
    ensures RingInv(OwnerNext(s, i, reply))
    ensures SlotInv(OwnerNext(s, i, reply))
    ensures SentInv(OwnerNext(s, i, reply))
    ensures LockInv(OwnerNext(s, i, reply))
  {
    assert s.holder == i;
  }

  lemma ContBumpHeadKeepsThreads(s: State, i: nat, reply: Reply)
    requires Core(s) && i < s.q.tail && s.owners[i].pc == ContBumpHead
    ensures DrainerInv(OwnerNext(s, i, reply))
    ensures StarterInv(OwnerNext(s, i, reply))
  {
    assert s.holder == i;
  }

  lemma ReleaseKeepsSlots(s: State, i: nat, reply: Reply)
    requires Core(s) && i < s.q.tail && s.owners[i].pc == Release
    ensures RingInv(OwnerNext(s, i, reply))
    ensures SlotInv(OwnerNext(s, i, reply))
    ensures SentInv(OwnerNext(s, i, reply))
    ensures LockInv(OwnerNext(s, i, reply))
  {
    assert s.holder == i;
  }

  lemma ReleaseKeepsThreads(s: State, i: nat, reply: Reply)
    requires Core(s) && i < s.q.tail && s.owners[i].pc == Release
    ensures DrainerInv(OwnerNext(s, i, reply))
    ensures StarterInv(OwnerNext(s, i, reply))
  {
    assert s.holder == i;
  }

  lemma ResetKeepsCore(s: State)
    requires Core(s) && s.reg in {Reset, Wipe}
    ensures Core(RegisterStep(s))
  {
    var s' := RegisterStep(s);
    RingSlotsDiffer(s.q);
    assert RingInv(s') && SlotInv(s');
    assert SentInv(s') && LockInv(s');
    assert DrainerInv(s') && StarterInv(s');
  }

  lemma PublishKeepsSlots(s: State)
    requires Core(s) && s.reg == Publish
    ensures Shape(RegisterStep(s)) && RingInv(RegisterStep(s)) && SlotInv(RegisterStep(s)) && SentInv(RegisterStep(s))
  {
    hide StarterInv;
  }

  lemma PublishKeepsThreads(s: State)
    requires Core(s) && s.reg == Publish
    ensures LockInv(RegisterStep(s)) && DrainerInv(RegisterStep(s)) && StarterInv(RegisterStep(s))
  {
    hide SlotInv, SentInv;
  }

  lemma PublishKeepsCore(s: State)
    requires Core(s) && s.reg == Publish
    ensures Core(RegisterStep(s))
  {
    hide RingInv, SlotInv, SentInv, LockInv, DrainerInv, StarterInv;
    PublishKeepsSlots(s);
    PublishKeepsThreads(s);
  }

  lemma CheckKeepsCore(s: State)
    requires Core(s) && s.reg == Check
    ensures Core(RegisterStep(s))
  {
  }

  lemma StepKeepsCore(s: State, step: Step)
    requires Core(s)
    ensures Core(Apply(s, step))
  {
    match step
    case Registrar =>
      match s.reg {
        case Check => CheckKeepsCore(s);
        case Reset => ResetKeepsCore(s);
        case Wipe => ResetKeepsCore(s);
        case Publish => PublishKeepsCore(s);
      }
    case OwnerStep(i, reply) =>
      if i < s.q.tail {
        match s.owners[i].pc {
          case WriteData => WriteDataKeepsSlots(s, i, reply); WriteDataKeepsSent(s, i, reply);
            WriteDataKeepsThreads(s, i, reply);
          case SetReady => SetReadyKeepsSlots(s, i, reply); SetReadyKeepsThreads(s, i, reply);
          case LoadHead | CheckTail | CheckReady | CopyItem => StartKeepsCore(s, i, reply);
          case TryLock => TryLockKeepsCore(s, i, reply);
          case Send | ContBumpLock => SendKeepsSlots(s, i, reply); SendKeepsThreads(s, i, reply);
          case ContBumpHead => ContBumpHeadKeepsSlots(s, i, reply); ContBumpHeadKeepsThreads(s, i, reply);
          case Release => ReleaseKeepsSlots(s, i, reply); ReleaseKeepsThreads(s, i, reply);
          case Done =>
          case _ => ContinueKeepsCore(s, i, reply);
        }
      }
  }

  // ---------- no stranded reply ----------

  /** A thread that will give up: it still holds an old head whose slot was handed out again. */
  predicate Doomed(s: State, o: Owner)
    requires Shape(s) && s.q.length > 0
  {
    o.pc in {CheckTail, CheckReady} && o.h < s.q.head && !s.q.ready[s.q.SlotOf(o.h)]
  }

  /** A thread that will look at the current head before it leaves. */
  predicate WillLook(s: State, i: nat)
    requires Shape(s)
  {
    && i < s.q.tail
    && (s.owners[i].pc in {WriteData, SetReady, LoadHead} || (Starting(s.owners[i].pc) && !Doomed(s, s.owners[i])))
  }

  predicate HeadReady(s: State)
    requires Shape(s)
  {
    s.q.head < s.q.tail && Committed(s.owners[s.q.head].pc)
  }

  ghost predicate NoStrand(s: State)
    requires Shape(s)
  {
    s.holder == -1 && HeadReady(s) ==> s.reg in {Wipe, Publish} || exists i: nat :: WillLook(s, i)
  }

  /** While the drainer is about to unlock, the thread of the next index has not left: every attempt
      it makes on the old head finds a ready slot and a taken lock. */
  predicate ReleaseInv(s: State)
    requires Shape(s)
  {
    var next := s.q.head + 1;
    (&& 0 <= s.holder < s.q.tail && s.owners[s.holder].pc == Release
     && next < s.q.tail && Committed(s.owners[next].pc)) ==>
      (s.owners[next].pc == LoadHead || (Starting(s.owners[next].pc) && s.owners[next].h == s.q.head))
  }

  lemma RegisterKeepsNoStrand(s: State)
    requires Core(s) && NoStrand(s) && ReleaseInv(s)
    ensures NoStrand(RegisterStep(s)) && ReleaseInv(RegisterStep(s))
  {
    var s' := RegisterStep(s);
    if s.reg == Publish {
      assert WillLook(s', s.q.tail);
    } else if s.reg == Check && s.holder == -1 && HeadReady(s) {
      var i: nat :| WillLook(s, i);
      assert WillLook(s', i);
    }
  }

  lemma DrainerKeepsReleaseInv(s: State, i: nat, reply: Reply)
    requires Core(s) && i < s.q.tail && Draining(s.owners[i].pc)
    ensures ReleaseInv(OwnerNext(s, i, reply))
  {
    assert s.holder == i;
  }

  lemma NextKeepsReleaseInv(s: State, i: nat, reply: Reply)
    requires Core(s) && ReleaseInv(s) && i < s.q.tail && !Draining(s.owners[i].pc) && i == s.q.head + 1
    ensures ReleaseInv(OwnerNext(s, i, reply))
  {
    var o := s.owners[i];
    if s.holder >= 0 && s.owners[s.holder].pc == Release {
      assert Starting(o.pc) ==> StarterOk(s, o);
      assert s.q.ready[s.q.SlotOf(s.q.head)];
      hide RingInv, SlotInv, SentInv, StarterInv;
    }
  }

  lemma OthersKeepReleaseInv(s: State, i: nat, reply: Reply)
    requires Core(s) && ReleaseInv(s) && i < s.q.tail && !Draining(s.owners[i].pc) && i != s.q.head + 1
    ensures ReleaseInv(OwnerNext(s, i, reply))
  {
    OwnerWritesItself(s, i, reply);
  }

  lemma LookerKeepsNoStrand(s: State, i: nat, reply: Reply)
    requires Core(s) && i < s.q.tail && s.owners[i].pc in {WriteData, SetReady, LoadHead, CopyItem, TryLock}
    ensures NoStrand(OwnerNext(s, i, reply))
  {
    var s' := OwnerNext(s, i, reply);
    if s'.holder == -1 {
      assert WillLook(s', i);
    }
  }

  lemma ReleaseKeepsNoStrand(s: State, i: nat, reply: Reply)
    requires Core(s) && ReleaseInv(s) && i < s.q.tail && s.owners[i].pc == Release
    ensures NoStrand(OwnerNext(s, i, reply))
  {
    var s' := OwnerNext(s, i, reply);
    assert s.holder == i;
    if HeadReady(s') {
      assert s.q.ready[s.q.SlotOf(s.q.head)];
      assert WillLook(s', s.q.head + 1);
    }
  }

  lemma CheckKeepsNoStrand(s: State, i: nat, reply: Reply)
    requires Core(s) && NoStrand(s) && i < s.q.tail && s.owners[i].pc in {CheckTail, CheckReady}
    ensures NoStrand(OwnerNext(s, i, reply))
  {
    var s' := OwnerNext(s, i, reply);
    if s'.holder == -1 && HeadReady(s') && s'.reg !in {Wipe, Publish} {
      assert StarterOk(s, s.owners[i]);
      assert HeadReady(s);
      var j: nat :| WillLook(s, j);
      assert WillLook(s', j);
    }
  }

  predicate RepliesFull(s: State)
    requires Shape(s)
  {
    forall i | 0 <= i < s.q.tail && s.owners[i].pc != WriteData :: s.owners[i].reply.Full?
  }

  ghost predicate Inv(s: State) {
    Core(s) && NoStrand(s) && ReleaseInv(s) && RepliesFull(s)
  }

  lemma StepKeepsNoStrand(s: State, step: Step)
    requires Core(s) && NoStrand(s) && ReleaseInv(s)
    ensures NoStrand(Apply(s, step)) && ReleaseInv(Apply(s, step))
  {
    match step
    case Registrar => RegisterKeepsNoStrand(s);
    case OwnerStep(i, reply) =>
      if i < s.q.tail {
        if Draining(s.owners[i].pc) {
          DrainerKeepsReleaseInv(s, i, reply);
        } else if i == s.q.head + 1 {
          NextKeepsReleaseInv(s, i, reply);
        } else {
          OthersKeepReleaseInv(s, i, reply);
        }
        match s.owners[i].pc {
          case WriteData | SetReady | LoadHead | CopyItem | TryLock => LookerKeepsNoStrand(s, i, reply);
          case CheckTail | CheckReady => CheckKeepsNoStrand(s, i, reply);
          case Release => ReleaseKeepsNoStrand(s, i, reply);
          case Done =>
          case _ => assert s.holder == i;
        }
      }
  }

  /** A step writes no other thread's local variables, and a committed reply never changes. */
  lemma OwnerWritesItself(s: State, i: nat, reply: Reply)
    requires Shape(s) && i < s.q.tail
    ensures var s' := OwnerNext(s, i, reply);
            && s'.owners == s.owners[i := s'.owners[i]]
            && s'.owners[i].reply == (if s.owners[i].pc == WriteData then Full(reply) else s.owners[i].reply)
            && s'.owners[i].pc != WriteData
  {
  }

  lemma StepKeepsRepliesFull(s: State, step: Step)
    requires Shape(s) && RepliesFull(s)
    ensures RepliesFull(Apply(s, step))
  {
    match step
    case Registrar =>
    case OwnerStep(i, reply) =>
      if i < s.q.tail {
        OwnerWritesItself(s, i, reply);
        var s' := Apply(s, step);
        forall j | 0 <= j < s'.q.tail && s'.owners[j].pc != WriteData
          ensures s'.owners[j].reply.Full?
        {
        }
      }
  }

  lemma StepKeepsInv(s: State, step: Step)
    requires Inv(s)
    ensures Inv(Apply(s, step))
  {
    StepKeepsCore(s, step);
    StepKeepsNoStrand(s, step);
    StepKeepsRepliesFull(s, step);
  }

  lemma InitInv(length: nat)
    ensures Inv(Init(length))
  {
  }

  // ---------- the theorems, over every interleaving ----------

  lemma {:induction false} Invariant(length: nat, steps: seq<Step>)
    ensures Inv(Run(Init(length), steps)) && Run(Init(length), steps).q.length == length
  {
    if steps == [] {
      InitInv(length);
    } else {
      Invariant(length, steps[..|steps| - 1]);
      StepKeepsInv(Run(Init(length), steps[..|steps| - 1]), steps[|steps| - 1]);
    }
  }

  /** What reaches the socket is the replies of indices 0, 1, 2, ... in that order, each once; at
      most one thread drains; the two counters stay within two of each other. */
  lemma OrderedDelivery(length: nat, steps: seq<Step>)
    ensures var s := Run(Init(length), steps);
            && |s.sent| <= s.q.tail
            && (forall k | 0 <= k < |s.sent| :: s.sent[k].Full? && s.sent[k] == s.owners[k].reply)
            && (forall i, j | 0 <= i < s.q.tail && 0 <= j < s.q.tail ::
                  Draining(s.owners[i].pc) && Draining(s.owners[j].pc) ==> i == j)
            && s.q.head <= s.q.headLock <= s.q.head + 2
            && s.q.head <= |s.sent| <= s.q.head + 1
  {
    Invariant(length, steps);
    InvMeansOrdered(Run(Init(length), steps));
  }

  lemma InvMeansOrdered(s: State)
    requires Inv(s)
    ensures forall k | 0 <= k < |s.sent| :: s.sent[k].Full? && s.sent[k] == s.owners[k].reply
    ensures s.q.head <= s.q.headLock <= s.q.head + 2 && s.q.head <= |s.sent| <= s.q.head + 1
  {
    forall k | 0 <= k < |s.sent|
      ensures Committed(s.owners[k].pc)
    {
      if s.holder != -1 && k == s.q.head {
        assert Committed(s.owners[s.q.head].pc);
      }
    }
  }

  /** A slot is handed to index i + length only after index i was sent. */
  lemma SlotReusedAfterSend(length: nat, steps: seq<Step>, i: nat)
    ensures var s := Run(Init(length), steps);
            && (i + length < s.q.tail ==> i < |s.sent|)
            && (i + length == s.q.tail && s.reg != Check ==> i < |s.sent|)
  {
    Invariant(length, steps);
  }

  /** Whenever the queue is unlocked and its head is ready, some thread will still look at the head,
      or a registration under way will bring one. */
  lemma ReadyHeadIsNotStranded(length: nat, steps: seq<Step>)
    ensures var s := Run(Init(length), steps);
            s.q.headLock == s.q.head && s.q.head < s.q.tail && s.q.ready[s.q.SlotOf(s.q.head)] ==>
              s.reg in {Wipe, Publish} || exists i: nat :: WillLook(s, i)
  {
    Invariant(length, steps);
  }

  /** Once every owner has left and no registration is under way, every reply has been sent. */
  lemma QuiescentMeansDelivered(length: nat, steps: seq<Step>)
    ensures var s := Run(Init(length), steps);
            (s.reg == Check && forall i | 0 <= i < s.q.tail :: s.owners[i].pc == Done) ==>
              && s.q.head == s.q.headLock == s.q.tail == |s.sent|
              && forall k | 0 <= k < s.q.tail :: s.sent[k] == s.owners[k].reply
  {
    Invariant(length, steps);
    var s := Run(Init(length), steps);
    if s.reg == Check && forall i | 0 <= i < s.q.tail :: s.owners[i].pc == Done {
      assert s.holder == -1;
      assert forall i: nat :: !WillLook(s, i);
      assert !HeadReady(s);
    }
  }
}
