/** Nobody waits for ever: the drainer ends its drain on its own, and after that every owner that has committed
    leaves in finitely many of its own steps. */
module SendQueueProgress {
  import opened SendQueueProtocol
  import opened SendQueueProof
  import opened SendQueues

  /** No other thread is inside the drain section. */
  predicate Free(s: State, i: nat) { s.holder == -1 || s.holder == i }

  /** Whether thread i still has to find out that its head is an old one, or to load one. */
  function Round(s: State, i: nat): nat
    requires Shape(s) && i < s.q.tail
  {
    var o := s.owners[i];
    if Starting(o.pc) then if o.h == s.q.head then 1 else 3 else if o.pc == LoadHead then 2 else 0
  }

  function Phase(pc: Pc): nat {
    match pc
    case CheckTail => 4
    case CheckReady => 3
    case CopyItem => 2
    case TryLock => 1
    case Send => 10
    case ContLoad => 9
    case ContTail => 8
    case ContReady => 7
    case ContLock => 6
    case ContLockTail => 5
    case ContCopy => 4
    case ContBumpLock => 3
    case ContBumpHead => 2
    case Release => 1
    case _ => 0
  }

  /** A step of thread i brings it nearer to its end. */
  predicate Nearer(s: State, t: State, i: nat)
    requires Shape(s) && Shape(t) && i < s.q.tail && i < t.q.tail
  {
    || Round(t, i) < Round(s, i)
    || (Round(t, i) == Round(s, i) && t.q.tail - t.q.head < s.q.tail - s.q.head)
    || (Round(t, i) == Round(s, i) && t.q.tail - t.q.head == s.q.tail - s.q.head
        && Phase(t.owners[i].pc) < Phase(s.owners[i].pc))
  }

  lemma StartGetsNearer(s: State, i: nat)
    requires Core(s) && i < s.q.tail && Free(s, i) && (s.owners[i].pc == LoadHead || Starting(s.owners[i].pc))
    ensures var t := OwnerNext(s, i, Nil);
            t.q.tail == s.q.tail && Free(t, i) && Committed(t.owners[i].pc)
            && (t.owners[i].pc == Pc.Done || Nearer(s, t, i))
  {
    hide SlotInv, SentInv;
    assert s.holder == -1;
    match s.owners[i].pc
    case LoadHead =>
    case CheckTail =>
    case CheckReady =>
    case CopyItem =>
    case TryLock => assert StarterOk(s, s.owners[i]);
  }

  lemma DrainGetsNearer(s: State, i: nat)
    requires Core(s) && i < s.q.tail && Draining(s.owners[i].pc)
    ensures var t := OwnerNext(s, i, Nil);
            t.q.tail == s.q.tail && Free(t, i) && Committed(t.owners[i].pc)
            && (t.owners[i].pc == Pc.Done || (Nearer(s, t, i) && Draining(t.owners[i].pc)))
  {
    hide SlotInv, SentInv, StarterInv;
    assert s.holder == i;
  }

  /** Each of a committed owner's own steps brings it nearer to its end, as long as no other thread drains. */
  lemma StepGetsNearer(s: State, i: nat)
    requires Inv(s) && i < s.q.tail && Free(s, i) && Committed(s.owners[i].pc) && s.owners[i].pc != Pc.Done
    ensures var t := OwnerNext(s, i, Nil);
            && t.q.tail == s.q.tail && Inv(t) && Free(t, i) && Committed(t.owners[i].pc)
            && (t.owners[i].pc == Pc.Done || Nearer(s, t, i))
  {
    StepKeepsInv(s, OwnerStep(i, Nil));
    hide Nearer, Inv, OwnerNext;
    if Draining(s.owners[i].pc) { DrainGetsNearer(s, i); } else { StartGetsNearer(s, i); }
  }

  /** With no other thread draining, an owner that has committed leaves; if it is the drainer, or becomes it, it
      drains to the end. */
  lemma {:induction false} OwnerLeaves(s: State, i: nat) returns (n: nat)
    requires Inv(s) && i < s.q.tail && Free(s, i) && Committed(s.owners[i].pc)
    ensures var t := Alone(s, i, n); i < t.q.tail == s.q.tail && t.owners[i].pc == Pc.Done && Inv(t)
    ensures Alone(s, i, n).holder == -1
    decreases s.owners[i].pc != Pc.Done, Round(s, i), s.q.tail - s.q.head, Phase(s.owners[i].pc)
  {
    hide SlotInv, SentInv, LockInv, DrainerInv, StarterInv, NoStrand, ReleaseInv, OwnerNext, Round, Phase;
    if s.owners[i].pc == Pc.Done {
      DoneIsOutside(s, i);
      return 0;
    }
    StepGetsNearer(s, i);
    n := OwnerLeaves(OwnerNext(s, i, Nil), i);
    n := n + 1;
  }

  lemma DoneIsOutside(s: State, i: nat)
    requires Inv(s) && i < s.q.tail && Free(s, i) && s.owners[i].pc == Pc.Done
    ensures s.holder == -1
  {
  }

  /** What a drain that runs alone leaves to the other owners. */
  lemma {:induction false} AloneKeepsOthers(s: State, i: nat, n: nat, j: nat)
    requires Shape(s) && i < s.q.tail && j < s.q.tail && i != j
    ensures var t := Alone(s, i, n); t.q.tail == s.q.tail && t.owners[j] == s.owners[j]
    decreases n
  {
    if n > 0 {
      OwnerWritesItself(s, i, Nil);
      TailStays(s, i);
      hide OwnerNext;
      AloneKeepsOthers(OwnerNext(s, i, Nil), i, n - 1, j);
    }
  }

  lemma TailStays(s: State, i: nat)
    requires Shape(s) && i < s.q.tail
    ensures OwnerNext(s, i, Nil).q.tail == s.q.tail
  {
  }

  /** From every state that a schedule reaches: the thread inside the drain section, if there is one, comes to
      its end in n steps of its own, and any owner i that has committed then leaves in m steps of its own,
      however often pop_start has refused it before. */
  lemma NobodyIsStuck(length: nat, steps: seq<Step>, i: nat) returns (n: nat, m: nat)
    requires var s := Run(Init(length), steps); i < s.q.tail && Committed(s.owners[i].pc)
    ensures var s := Run(Init(length), steps);
            var t := if 0 <= s.holder < s.q.tail then Alone(s, s.holder, n) else s;
            && t.holder == -1 && i < t.q.tail && i < Alone(t, i, m).q.tail && Alone(t, i, m).owners[i].pc == Pc.Done
  {
    hide Run, Inv;
    Invariant(length, steps);
    var s := Run(Init(length), steps);
    HolderDrains(s);
    n := 0;
    var t := s;
    if s.holder != -1 {
      n := OwnerLeaves(s, s.holder);
      t := Alone(s, s.holder, n);
      if i != s.holder { AloneKeepsOthers(s, s.holder, n, i); }
    }
    m := OwnerLeaves(t, i);
  }

  lemma HolderDrains(s: State)
    requires Inv(s)
    ensures -1 <= s.holder < s.q.tail && (s.holder != -1 ==> Committed(s.owners[s.holder].pc))
  {
    hide RingInv, SlotInv, SentInv, DrainerInv, StarterInv;
  }
}
