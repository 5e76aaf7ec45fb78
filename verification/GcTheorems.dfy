/** What the reclamation protocol guarantees over whole runs without a hazard. */
module GcTheorems {
  import opened Gc
  import opened GcInvariant
  import opened GcFrame
  import GcProof

  predicate Initial(s: State) { s == Init(s.ownerFrees, s.marks) }

  /** No step of the schedule is one of the two after which an object in use may be freed. */
  predicate HazardFree(s: State, steps: seq<Step>) {
    steps == [] ||
    (var before, last := steps[..|steps| - 1], steps[|steps| - 1];
     HazardFree(s, before) && !Hazard(Run(s, before), last))
  }

  lemma InitInv(start: State)
    requires Initial(start)
    ensures Inv(start)
  {
  }

  lemma {:induction false} GuardOfPrefix(s: State, steps: seq<Step>, k: nat)
    requires HazardFree(s, steps) && k <= |steps|
    ensures HazardFree(s, steps[..k])
  {
    hide Run, Hazard;
    if k == |steps| {
      assert steps[..k] == steps;
    } else {
      GuardOfPrefix(s, steps[..|steps| - 1], k);
      assert steps[..|steps| - 1][..k] == steps[..k];
    }
  }

  /** From any state that keeps the invariant, every hazard-free schedule keeps it. */
  lemma {:induction false} InvariantFrom(s: State, steps: seq<Step>)
    requires Inv(s) && HazardFree(s, steps)
    ensures Inv(Run(s, steps))
  {
    hide Inv, Apply, Hazard;
    if steps != [] {
      var n := |steps| - 1;
      InvariantFrom(s, steps[..n]);
      GcProof.StepKeepsInv(Run(s, steps[..n]), steps[n]);
    }
  }

  lemma Invariant(start: State, steps: seq<Step>)
    requires Initial(start) && HazardFree(start, steps)
    ensures Inv(Run(start, steps))
  {
    hide Inv, Run;
    InitInv(start);
    InvariantFrom(start, steps);
  }

  /** What a user may still follow is allocated, and nothing unallocated has been touched or freed. */
  predicate Safe(s: State) {
    (forall u, o | 0 <= u < |s.users| && o in s.users[u].held :: o in s.live) && !s.fault
  }

  lemma InvIsSafe(s: State)
    requires Inv(s)
    ensures Safe(s)
  {
    hide HoldInv, SetInv, RetireInv, CollectorInv;
    forall u, o | 0 <= u < |s.users| && o in s.users[u].held
      ensures o in s.live
    {
      assert UserOk(s.users[u], s.table, s.limbo, s.freeList, s.sets) && Tracked(s, o);
    }
  }

  /** Safe reclamation: in every hazard-free schedule, what a user fetched while it was linked, or linked
      itself and published, stays allocated until the user has cleared its working set. */
  lemma SafeReclamation(start: State, steps: seq<Step>)
    requires Initial(start) && HazardFree(start, steps)
    ensures Safe(Run(start, steps))
  {
    hide Inv, Run;
    Invariant(start, steps);
    InvIsSafe(Run(start, steps));
  }

  // ---------- the same without the history variable ----------

  /** User u gets a reference to o: it fetches o from the table, or links o, itself having published o or still
      being free to. */
  predicate Gets(s: State, u: nat, a: Action, o: Obj) {
    u < |s.users| &&
    var usr := s.users[u];
    || (usr.pc == Fetching && a == Fetch(o) && o in s.table)
    || (a == Link(o) && o !in s.live && o != 0
        && (usr.pc == Fetching
            || (usr.pc == Using && usr.field.At? && usr.field.p in s.sets && o in s.sets[usr.field.p].members)))
  }

  /** User u will not follow its reference to o any more: it decides so before it publishes, or its gc_clear has
      emptied the field. */
  predicate GivesUp(s: State, step: Step, u: nat, o: Obj) {
    || step == Act(u, Drop(o))
    || (step == Act(u, ClearField) && u < |s.users|
        && s.users[u].pc.Clearing? && s.users[u].field == s.users[u].pc.seen)
  }

  lemma GotIsHeld(s: State, u: nat, a: Action, o: Obj)
    requires Gets(s, u, a, o)
    ensures var t := Apply(s, Act(u, a)); u < |t.users| && o in t.users[u].held
  {
  }

  lemma FetchKeepsHeld(s: State, u: nat, a: Action, o: Obj)
    requires u < |s.users| && o in s.users[u].held && a != Drop(o)
    ensures var t := FetchStep(s, u, a); u < |t.users| && o in t.users[u].held
  {
  }

  lemma RetireAndCommitKeepHeld(s: State, u: nat, a: Action, o: Obj)
    requires u < |s.users| && o in s.users[u].held
    ensures var t := RetireStep(s, u, a); u < |t.users| && o in t.users[u].held
    ensures var t := CommitStep(s, u, a); u < |t.users| && o in t.users[u].held
  {
  }

  lemma ClearKeepsHeld(s: State, u: nat, a: Action, o: Obj)
    requires u < |s.users| && o in s.users[u].held && !GivesUp(s, Act(u, a), u, o)
    ensures var t := ClearStep(s, u, a); u < |t.users| && o in t.users[u].held
  {
    match a
    case ClearField => if s.users[u].pc.Clearing? { }
    case FreeOwn => if s.users[u].pc.Freeing? { }
    case _ =>
  }

  lemma OwnStepKeepsHeld(s: State, u: nat, a: Action, o: Obj)
    requires u < |s.users| && o in s.users[u].held && !GivesUp(s, Act(u, a), u, o)
    ensures var t := UserStep(s, u, a); u < |t.users| && o in t.users[u].held
  {
    hide FetchStep, RetireStep, CommitStep, ClearStep;
    RetireAndCommitKeepHeld(s, u, a, o);
    ClearKeepsHeld(s, u, a, o);
    if a != Drop(o) { FetchKeepsHeld(s, u, a, o); }
  }

  lemma HeldIsKept(s: State, step: Step, u: nat, o: Obj)
    requires u < |s.users| && o in s.users[u].held && !GivesUp(s, step, u, o)
    ensures var t := Apply(s, step); u < |t.users| && o in t.users[u].held
  {
    hide UserStep, CollectorStep, GivesUp;
    match step
    case Register =>
    case Act(v, a) =>
      if v == u {
        OwnStepKeepsHeld(s, u, a, o);
      } else if v < |s.users| {
        UserFrames(s, v, a);
      }
    case Collect(x) => CollectorFrames(s, x);
  }

  /** Safe reclamation in terms of steps: in every hazard-free schedule, what a user fetched, or linked, at step i is
      still allocated at every later moment j up to which it has neither given it up nor cleared its working
      set. */
  lemma FetchedStaysAllocated(start: State, steps: seq<Step>, i: nat, j: nat, u: nat, a: Action, o: Obj)
    requires Initial(start) && HazardFree(start, steps) && i < j <= |steps|
    requires steps[i] == Act(u, a) && Gets(Run(start, steps[..i]), u, a, o)
    requires forall k | i < k < j :: !GivesUp(Run(start, steps[..k]), steps[k], u, o)
    ensures o in Run(start, steps[..j]).live
  {
    hide Apply, Inv, Gets, GivesUp;
    GotIsHeld(Run(start, steps[..i]), u, a, o);
    RunOneMore(start, steps, i);
    var k := i + 1;
    while k < j
      invariant i < k <= j
      invariant var s := Run(start, steps[..k]); u < |s.users| && o in s.users[u].held
    {
      HeldIsKept(Run(start, steps[..k]), steps[k], u, o);
      RunOneMore(start, steps, k);
      k := k + 1;
    }
    PrefixInvariant(start, steps, j);
    InvIsSafe(Run(start, steps[..j]));
  }

  /** Nobody registers between the load and the bump of a run: with the mark as it is meant, such a schedule
      has no hazard. */
  predicate NoRegistrationWhileCounting(s: State, steps: seq<Step>) {
    steps == [] ||
    (var before, last := steps[..|steps| - 1], steps[|steps| - 1];
     NoRegistrationWhileCounting(s, before) && (last == Register ==> Run(s, before).pc != Counting))
  }

  lemma {:induction false} ListIsComplete(start: State, steps: seq<Step>)
    requires Initial(start) && NoRegistrationWhileCounting(start, steps)
    ensures var s := Run(start, steps); s.pc == Counting ==> s.next == |s.users|
  {
    if steps != [] {
      var n := |steps| - 1;
      ListIsComplete(start, steps[..n]);
      StepKeepsList(Run(start, steps[..n]), steps[n]);
    }
  }

  lemma StepKeepsList(s: State, step: Step)
    requires s.pc == Counting ==> s.next == |s.users|
    requires step == Register ==> s.pc != Counting
    ensures var t := Apply(s, step); t.pc == Counting ==> t.next == |t.users|
  {
    hide UserStep;
    match step
    case Register =>
    case Act(u, a) => if u < |s.users| { UserFrames(s, u, a); }
    case Collect(o) =>
      if s.pc != Waiting {
        LeavesCounting(s, o);
        hide CollectorStep;
      }
  }

  lemma LeavesCounting(s: State, o: Obj)
    requires s.pc != Waiting
    ensures CollectorStep(s, o).pc != Counting
  {
    match s.pc
    case AwaitPending => if Current(s) { }
    case Sweep(_, _) => if o in s.freeList { } else { }
    case _ =>
  }

  lemma {:induction false} QuietListIsHazardFree(start: State, steps: seq<Step>)
    requires Initial(start) && start.marks && NoRegistrationWhileCounting(start, steps)
    ensures HazardFree(start, steps) && Run(start, steps).marks
  {
    if steps != [] {
      var n := |steps| - 1;
      QuietListIsHazardFree(start, steps[..n]);
      ListIsComplete(start, steps[..n]);
      StepKeepsMarks(Run(start, steps[..n]), steps[n]);
    }
  }

  lemma StepKeepsMarks(s: State, step: Step)
    ensures Apply(s, step).marks == s.marks
  {
    hide UserStep, CollectorStep;
    match step
    case Register =>
    case Act(u, a) => if u < |s.users| { UserFrames(s, u, a); }
    case Collect(o) => CollectorFrames(s, o);
  }

  // ---------- the two-epoch argument ----------

  /** An element the sweep would free is held by no user that the run has scanned, or does not list;
      retirements still pending carry at least the epoch, or one less and then only for an object that no
      user further up the list holds. */
  lemma DoomedIsUnheld(start: State, steps: seq<Step>, o: Obj)
    requires Initial(start) && HazardFree(start, steps)
    ensures var s := Run(start, steps);
            && (InRun(s) && Low(s, o) ==> forall u | s.next <= u < |s.users| :: o !in s.users[u].held)
            && (s.pc.Sweep? && Low(s, o) ==> forall u | 0 <= u < |s.users| :: o !in s.users[u].held)
            && (InRun(s) ==> forall u | 0 <= u < |s.users| && s.users[u].pc.Storing? ::
                  || s.epoch <= s.users[u].pc.stamp
                  || (s.epoch == s.users[u].pc.stamp + 1 && HeldBelow(s.users, u, s.users[u].pc.o)))
  {
    Invariant(start, steps);
    hide Run, UsersInv, SetInv, ObjectInv, HeldBelow;
    var s := Run(start, steps);
    if InRun(s) && Low(s, o) {
      forall u | s.next <= u < |s.users|
        ensures o !in s.users[u].held
      {
        assert o in s.users[u].held ==> HoldOk(s, u, o);
      }
    }
  }

  /** o was retired with this stamp before the run began: it was on the free list, or a user that had
      registered in the window of the run before was storing it there. */
  predicate RetiredBefore(before: State, o: Obj, stamp: nat) {
    || (o in before.freeList && before.freeList[o] == stamp)
    || (exists u :: 0 <= u < |before.users| && before.users[u].pc == Storing(o, stamp))
  }

  ghost predicate SinceStart(before: State, s: State) {
    && InRun(s) && s.epoch == before.counter
    && (forall o | Low(s, o) :: RetiredBefore(before, o, s.freeList[o]))
    && (forall u | 0 <= u < |s.users| && s.users[u].pc.Storing? && s.users[u].pc.stamp < s.epoch ::
          u < |before.users| && before.users[u].pc == s.users[u].pc)
  }

  lemma CollectorKeepsSince(before: State, s: State, o: Obj)
    requires SinceStart(before, s) && InRun(CollectorStep(s, o))
    ensures SinceStart(before, CollectorStep(s, o))
  {
    hide RetiredBefore;
    var t := CollectorStep(s, o);
    CollectorFrames(s, o);
    hide CollectorStep;
    forall x | Low(t, x)
      ensures RetiredBefore(before, x, t.freeList[x])
    {
      assert Low(s, x) && s.freeList[x] == t.freeList[x];
    }
    forall u | 0 <= u < |t.users| && t.users[u].pc.Storing? && t.users[u].pc.stamp < t.epoch
      ensures u < |before.users| && before.users[u].pc == t.users[u].pc
    {
      assert t.users[u].pc == s.users[u].pc;
    }
  }

  lemma UserKeepsSince(before: State, s: State, u: nat, a: Action)
    requires CollectorInv(s) && SinceStart(before, s) && u < |s.users|
    ensures SinceStart(before, UserStep(s, u, a))
  {
    hide RetiredBefore;
    var t := UserStep(s, u, a);
    UserFrames(s, u, a);
    NewStampsAndEntries(s, u, a);
    hide UserStep;
    forall x | Low(t, x)
      ensures RetiredBefore(before, x, t.freeList[x])
    {
      if x !in s.freeList {
        assert before.users[u].pc == Storing(x, t.freeList[x]);
        StoringIsRetired(before, u, x, t.freeList[x]);
      } else {
        assert Low(s, x);
      }
    }
    forall v | 0 <= v < |t.users| && t.users[v].pc.Storing? && t.users[v].pc.stamp < t.epoch
      ensures v < |before.users| && before.users[v].pc == t.users[v].pc
    {
      assert v != u ==> t.users[v] == s.users[v];
    }
  }

  /** What a user's step puts on the free list it was storing; a stamp it takes is the counter. */
  lemma NewStampsAndEntries(s: State, u: nat, a: Action)
    requires u < |s.users|
    ensures var t := UserStep(s, u, a);
            && (forall x | x in t.freeList && x !in s.freeList :: s.users[u].pc == Storing(x, t.freeList[x]))
            && u < |t.users|
            && (t.users[u].pc.Storing? ==> t.users[u].pc == s.users[u].pc || t.users[u].pc.stamp == s.counter)
  {
    match a
    case ReadStamp(_) => if s.users[u].pc != Fetching { } else { }
    case Store => if s.users[u].pc.Storing? { }
    case _ => hide RetireStep; FetchFrame(s, u, a); CommitFrame(s, u, a); ClearFrame(s, u, a);
  }

  lemma StoringIsRetired(before: State, u: nat, o: Obj, stamp: nat)
    requires u < |before.users| && before.users[u].pc == Storing(o, stamp)
    ensures RetiredBefore(before, o, stamp)
  {
  }

  lemma BumpStartsRun(s: State, o: Obj)
    requires Inv(s) && s.pc == Counting
    ensures SinceStart(s, CollectorStep(s, o))
  {
    hide UsersInv, SetInv, HoldInv, Partition;
  }

  /** Two epochs: take a moment i at which a run takes its number, and a later moment j of that run. An
      element the sweep would free at j had been retired at i, with the same stamp. */
  lemma DoomedWasRetiredBefore(start: State, steps: seq<Step>, i: nat, j: nat, o: Obj)
    requires Initial(start) && HazardFree(start, steps) && i < j <= |steps|
    requires Run(start, steps[..i]).pc == Counting && steps[i].Collect?
    requires forall k | i < k <= j :: InRun(Run(start, steps[..k]))
    ensures var s := Run(start, steps[..j]);
            Low(s, o) ==> RetiredBefore(Run(start, steps[..i]), o, s.freeList[o])
  {
    hide Apply, Inv, SinceStart, InRun, RetiredBefore;
    var before := Run(start, steps[..i]);
    PrefixInvariant(start, steps, i);
    RunOneMore(start, steps, i);
    assert SinceStart(before, Run(start, steps[..i + 1])) by { BumpIsCollect(before, steps[i]); }
    var k := i + 1;
    while k < j
      invariant i < k <= j && SinceStart(before, Run(start, steps[..k]))
    {
      PrefixInvariant(start, steps, k);
      RunOneMore(start, steps, k);
      StepKeepsSince(before, Run(start, steps[..k]), steps[k]);
      k := k + 1;
    }
    SinceMeansRetired(before, Run(start, steps[..j]), o);
  }

  lemma BumpIsCollect(s: State, step: Step)
    requires Inv(s) && s.pc == Counting && step.Collect?
    ensures SinceStart(s, Apply(s, step))
  {
    hide CollectorStep, SinceStart, Inv;
    BumpStartsRun(s, step.o);
  }

  lemma SinceMeansRetired(before: State, s: State, o: Obj)
    requires SinceStart(before, s)
    ensures Low(s, o) ==> RetiredBefore(before, o, s.freeList[o])
  {
  }

  lemma StepKeepsSince(before: State, s: State, step: Step)
    requires Inv(s) && SinceStart(before, s) && InRun(Apply(s, step))
    ensures SinceStart(before, Apply(s, step))
  {
    hide UserStep, CollectorStep, UsersInv, SetInv, HoldInv, ObjectInv, RetireInv, RetiredBefore;
    match step
    case Register =>
    case Act(u, a) => if u < |s.users| { UserKeepsSince(before, s, u, a); }
    case Collect(o) => CollectorKeepsSince(before, s, o);
  }

  // ---------- working sets ----------

  predicate NobodysSet(s: State, p: Ptr) {
    forall u | 0 <= u < |s.users| && s.users[u].field.At? :: s.users[u].field.p != p
  }

  /** Working-set hand-off: what the collector reads is allocated, two users never share a working
      set, and the collector frees a set exactly when its owner cleared it during the scan. */
  lemma WorkingSetHandOff(start: State, steps: seq<Step>, p: Ptr, o: Obj)
    requires Initial(start) && HazardFree(start, steps)
    ensures var s := Run(start, steps);
            && (Reads(s.pc, p) ==> p in s.sets)
            && (forall u, v | 0 <= u < |s.users| && 0 <= v < |s.users| && s.users[u].field.At?
                && s.users[v].field.At? ::
                  s.users[u].field.p == s.users[v].field.p ==> u == v)
            && (s.pc == Untag(p) ==>
                  var s' := CollectorStep(s, o);
                  && !s'.fault
                  && (p !in s'.sets <==> s.sets[p].custody == OfCollector)
                  && (p !in s'.sets <==> NobodysSet(s, p)))
  {
    Invariant(start, steps);
    var s := Run(start, steps);
    FieldsDiffer(s);
    if s.pc == Untag(p) {
      UntagFreesCleared(s, p, o);
    }
  }

  lemma FieldsDiffer(s: State)
    requires SetInv(s)
    ensures forall u, v | 0 <= u < |s.users| && 0 <= v < |s.users| && s.users[u].field.At? && s.users[v].field.At? ::
              s.users[u].field.p == s.users[v].field.p ==> u == v
  {
  }

  lemma UntagFreesCleared(s: State, p: Ptr, o: Obj)
    requires SetInv(s) && CollectorInv(s) && !s.fault && s.pc == Untag(p)
    ensures var s' := CollectorStep(s, o);
            && !s'.fault && p in s.sets
            && (p !in s'.sets <==> s.sets[p].custody == OfCollector)
            && (p !in s'.sets <==> NobodysSet(s, p))
  {
    assert CustodyOk(s, p);
  }

  /** Conservation of working sets: each allocated one is in one user's field, with the collector, or
      with an owner about to free it; only line 88, as it is written, leaks one. */
  lemma WorkingSetsAccounted(start: State, steps: seq<Step>)
    requires Initial(start) && HazardFree(start, steps)
    ensures var s := Run(start, steps);
            forall p | p in s.sets :: CustodyOk(s, p) && (start.ownerFrees ==> s.sets[p].custody != Leaked)
  {
    Invariant(start, steps);
    NoLeak(start, steps);
  }

  predicate LeakFree(s: State) { s.ownerFrees ==> forall p | p in s.sets :: s.sets[p].custody != Leaked }

  lemma {:induction false} NoLeak(start: State, steps: seq<Step>)
    requires Initial(start)
    ensures var s := Run(start, steps); s.ownerFrees == start.ownerFrees && LeakFree(s)
  {
    if steps != [] {
      NoLeak(start, steps[..|steps| - 1]);
      StepLeaksNothing(Run(start, steps[..|steps| - 1]), steps[|steps| - 1]);
    }
  }

  lemma StepLeaksNothing(s: State, step: Step)
    requires LeakFree(s)
    ensures LeakFree(Apply(s, step)) && Apply(s, step).ownerFrees == s.ownerFrees
  {
    hide UserStep, CollectorStep, LeakFree;
    match step
    case Register => assert LeakFree(Apply(s, step)) by { RegisterLeaksNothing(s); }
    case Act(u, a) => if u < |s.users| { UserLeaksNothing(s, u, a); }
    case Collect(o) => CollectorLeaksNothing(s, o);
  }

  lemma RegisterLeaksNothing(s: State)
    requires LeakFree(s)
    ensures LeakFree(Apply(s, Register))
  {
  }

  lemma UserLeaksNothing(s: State, u: nat, a: Action)
    requires LeakFree(s) && u < |s.users|
    ensures LeakFree(UserStep(s, u, a)) && UserStep(s, u, a).ownerFrees == s.ownerFrees
  {
    UserFrames(s, u, a);
    match a
    case Commit(p, _) => if p in s.sets { } else { }
    case ClearField => if s.users[u].pc.Clearing? { if s.users[u].field.At? { } else { } }
    case FreeOwn => if s.users[u].pc.Freeing? { if s.ownerFrees { } else { } }
    case _ =>
  }

  lemma CollectorLeaksNothing(s: State, o: Obj)
    requires LeakFree(s)
    ensures LeakFree(CollectorStep(s, o)) && CollectorStep(s, o).ownerFrees == s.ownerFrees
  {
    CollectorFrames(s, o);
    if s.pc.Untag? {
      if Current(s) { }
    } else {
      hide CollectorStep;
    }
  }

  // ---------- reclamation delay ----------

  predicate InNoSet(s: State, o: Obj) { forall p | p in s.sets :: o !in s.sets[p].members }

  /** What stays true of o from a run's start at counter g on, as long as it is not taken off the list. */
  predicate Overdue(s: State, o: Obj, g: nat) {
    && o in s.freeList && s.freeList[o] <= g <= s.counter <= g + 2
    && (s.counter == g + 2 ==> InRun(s))
    && (s.counter == g + 2 && (s.pc.Sweep? || s.pc.Release?) ==> o in s.pc.due && o !in s.pc.visited)
  }

  lemma OverdueAtFirst(s: State, o: Obj)
    requires Inv(s) && s.pc == Waiting && o in s.freeList
    ensures Overdue(s, o, s.counter)
  {
    hide UsersInv, RetireInv, HoldInv, SetInv, Partition;
  }

  lemma OverdueOrReleased(s: State, step: Step, o: Obj, g: nat)
    requires Inv(s) && Overdue(s, o, g) && InNoSet(s, o)
    ensures var s' := Apply(s, step); Overdue(s', o, g) || (s'.pc.Release? && s'.pc.o == o)
  {
    hide UsersInv, RetireInv, HoldInv, Partition;
    match step
    case Register => hide CollectorStep;
    case Act(u, a) =>
      hide UserStep, CollectorStep, SetInv;
      if u < |s.users| { UserFrames(s, u, a); }
    case Collect(x) =>
      hide UserStep, Apply;
      assert Apply(s, step) == CollectorStep(s, x) by { CollectIsStep(s, x); }
      CollectorKeepsOverdue(s, x, o, g);
  }

  lemma CollectIsStep(s: State, x: Obj)
    ensures Apply(s, Collect(x)) == CollectorStep(s, x)
  {
  }

  lemma CollectorKeepsOverdue(s: State, x: Obj, o: Obj, g: nat)
    requires CollectorInv(s) && SetInv(s) && Overdue(s, o, g) && InNoSet(s, o)
    ensures var t := CollectorStep(s, x); Overdue(t, o, g) || (t.pc.Release? && t.pc.o == o)
  {
    match s.pc
    case Waiting =>
    case Counting =>
    case NextUser => if s.next == 0 { }
    case Mark(_, _, _) =>
    case Release(_, _, _) =>
    case Sweep(_, _) =>
      hide Overdue;
      assert CollectorStep(s, x) == SweepStep(s, x);
      SweepKeepsOverdue(s, x, o, g);
    case _ =>
      hide Overdue;
      RestKeepsOverdue(s, x, o, g);
  }

  lemma SweepKeepsOverdue(s: State, x: Obj, o: Obj, g: nat)
    requires CollectorInv(s) && Overdue(s, o, g) && s.pc.Sweep?
    ensures var t := SweepStep(s, x); Overdue(t, o, g) || (t.pc.Release? && t.pc.o == o)
  {
    if x in s.freeList && x !in s.pc.visited { VisitIs(s, x); } else { NoVisitIs(s, x); }
    assert !(s.pc.due <= s.pc.visited) || s.counter < g + 2;
    var t := SweepStep(s, x);
    assert t == s.(pc := Waiting) ==> s.pc.due <= s.pc.visited;
    hide SweepStep;
    if x == o { } else { }
  }

  lemma RestKeepsOverdue(s: State, x: Obj, o: Obj, g: nat)
    requires CollectorInv(s) && Overdue(s, o, g)
    requires s.pc.AwaitPending? || s.pc.LoadSet? || s.pc.TagSet? || s.pc.Scan? || s.pc.Untag?
    ensures Overdue(CollectorStep(s, x), o, g)
  {
    match s.pc
    case AwaitPending => if s.users[s.next - 1].pending { }
    case LoadSet => if Current(s) { }
    case TagSet(_) => TagFrame(s); TagStaysInRun(s); hide TagStep;
    case Scan(_, _) => MarkFrame(s); ScanStaysInRun(s); hide ScanStep;
    case Untag(_) => UntagFrame(s); ScanStaysInRun(s); hide ScanStep;
  }

  lemma TagStaysInRun(s: State)
    requires s.pc.TagSet?
    ensures InRun(TagStep(s)) && !TagStep(s).pc.Sweep? && !TagStep(s).pc.Release?
    ensures TagStep(s).counter == s.counter
  {
    if Current(s) { if s.pc.seen == Null { } else { } }
  }

  lemma ScanStaysInRun(s: State)
    requires s.pc.Scan? || s.pc.Untag?
    ensures InRun(ScanStep(s)) && !ScanStep(s).pc.Sweep? && !ScanStep(s).pc.Release?
    ensures ScanStep(s).counter == s.counter && ScanStep(s).freeList == s.freeList
  {
    if s.pc.Scan? {
      if s.pc.p in s.sets {
        if s.pc.k < |s.sets[s.pc.p].members| { ScanIs(s); } else { ScanEndIs(s); }
        hide ScanStep;
      }
    } else if Current(s) {
      UntagIs(s);
      hide ScanStep;
    }
  }

  /** Reclamation delay: take a moment i between runs with o on the free list. If o is in no working
      set from i to j, and at j two more runs have gone by, then o was released in between. */
  lemma FreedWithinTwoRuns(start: State, steps: seq<Step>, i: nat, j: nat, o: Obj) returns (k: nat)
    requires Initial(start) && HazardFree(start, steps)
    requires i <= j <= |steps|
    requires var s := Run(start, steps[..i]); s.pc == Waiting && o in s.freeList
    requires var s := Run(start, steps[..j]);
             s.pc == Waiting && s.counter >= Run(start, steps[..i]).counter + 2
    requires forall m | i <= m <= j :: InNoSet(Run(start, steps[..m]), o)
    ensures i < k <= j
    ensures var pc := Run(start, steps[..k]).pc; pc.Release? && pc.o == o
  {
    hide Apply, Inv;
    var g := Run(start, steps[..i]).counter;
    PrefixInvariant(start, steps, i);
    OverdueAtFirst(Run(start, steps[..i]), o);
    k := i;
    while k < j
      invariant i <= k <= j
      invariant Overdue(Run(start, steps[..k]), o, g)
    {
      var s := Run(start, steps[..k]);
      PrefixInvariant(start, steps, k);
      OverdueOrReleased(s, steps[k], o, g);
      assert steps[..k + 1][..k] == steps[..k] && steps[..k + 1][k] == steps[k];
      k := k + 1;
      if !Overdue(Run(start, steps[..k]), o, g) {
        return;
      }
    }
  }

  lemma PrefixInvariant(start: State, steps: seq<Step>, k: nat)
    requires Initial(start) && HazardFree(start, steps) && k <= |steps|
    ensures Inv(Run(start, steps[..k]))
  {
    GuardOfPrefix(start, steps, k);
    Invariant(start, steps[..k]);
  }

  /** The step at k frees o. */
  predicate FreesAt(start: State, steps: seq<Step>, k: nat, o: Obj) {
    k < |steps| && steps[k].Collect? &&
    var pc := Run(start, steps[..k]).pc; pc.Release? && pc.o == o
  }

  predicate Allocates(step: Step, o: Obj) { step.Act? && step.a == Link(o) }

  lemma OnlyLinkRevives(s: State, step: Step, o: Obj)
    requires o !in s.live
    ensures o in Apply(s, step).live ==> Allocates(step, o)
  {
    hide CollectorStep, UserStep;
    match step
    case Register =>
    case Act(u, a) => if u < |s.users| { UserRevives(s, u, a, o); }
    case Collect(x) => CollectorRevivesNothing(s, x, o);
  }

  lemma UserRevives(s: State, u: nat, a: Action, o: Obj)
    requires u < |s.users| && o !in s.live
    ensures o in UserStep(s, u, a).live ==> a == Link(o)
  {
    match a
    case Link(x) => if x == o { } else { }
    case ClearField => if s.users[u].pc.Clearing? { }
    case _ =>
  }

  lemma CollectorRevivesNothing(s: State, x: Obj, o: Obj)
    requires o !in s.live
    ensures o !in CollectorStep(s, x).live
  {
    CollectorFrames(s, x);
    if !s.pc.Release? { hide CollectorStep; }
  }

  /** Each retired object is freed at most once: for a second free, the address must have been given to a
      new object in between. */
  lemma FreedOnce(start: State, steps: seq<Step>, i: nat, j: nat, o: Obj) returns (k: nat)
    requires Initial(start) && HazardFree(start, steps)
    requires i < j && FreesAt(start, steps, i, o) && FreesAt(start, steps, j, o)
    ensures i < k < j && Allocates(steps[k], o)
  {
    hide Apply, Inv;
    RunOneMore(start, steps, i);
    ReleaseFrees(Run(start, steps[..i]), steps[i], o);
    k := i + 1;
    while k < j && !Allocates(steps[k], o)
      invariant i < k <= j && o !in Run(start, steps[..k]).live
    {
      RunOneMore(start, steps, k);
      OnlyLinkRevives(Run(start, steps[..k]), steps[k], o);
      k := k + 1;
    }
    if k == j {
      PrefixInvariant(start, steps, j);
      GcProof.ReleasedIsLive(Run(start, steps[..j]));
    }
  }

  lemma RunOneMore(start: State, steps: seq<Step>, k: nat)
    requires k < |steps|
    ensures Run(start, steps[..k + 1]) == Apply(Run(start, steps[..k]), steps[k])
  {
    hide Apply;
    assert steps[..k + 1][..k] == steps[..k];
  }

  lemma ReleaseFrees(s: State, step: Step, o: Obj)
    requires step.Collect? && s.pc.Release? && s.pc.o == o
    ensures o !in Apply(s, step).live
  {
    hide UserStep;
  }
}
