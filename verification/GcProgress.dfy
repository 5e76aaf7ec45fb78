/** gc_run ends: undisturbed, the collector finishes the run it is in, or waits for a pending user. */
module GcProgress {
  import opened Gc
  import opened GcFrame
  import opened GcInvariant
  import GcProof
  import opened GcTheorems

  /** No user that the run has yet to scan is pending. */
  predicate NobodyAwaited(s: State) {
    forall u | 0 <= u < |s.users| && u < s.next :: !s.users[u].pending
  }

  /** The sweep has visited what it took off the list. */
  predicate SweepOk(s: State) {
    (s.pc.Sweep? || s.pc.Release?) ==> s.pc.due <= s.freeList.Keys + s.pc.visited
  }

  /** What termination rests on; what the marks and the stamps are worth does not matter to it. */
  predicate Quiet(s: State) { CollectorInv(s) && SetInv(s) && NobodyAwaited(s) && SweepOk(s) }

  function Stage(pc: CollectorPc): nat {
    match pc
    case Waiting => 0
    case Counting => 3
    case Sweep(_, _) => 1
    case Release(_, _, _) => 1
    case _ => 2
  }

  /** What is left to do for the current user. */
  function OfUser(s: State): nat {
    match s.pc
    case NextUser => 6
    case AwaitPending => 5
    case LoadSet => 4
    case TagSet(seen) => if 0 < s.next <= |s.users| && seen != s.users[s.next - 1].field then 3 else 2
    case Scan(_, _) => 1
    case Mark(_, _, _) => 1
    case _ => 0
  }

  /** What is left of the working set, or of the sweep. */
  function OfSet(s: State): nat {
    match s.pc
    case Scan(p, k) => if p in s.sets && k <= |s.sets[p].members| then 2 * (|s.sets[p].members| - k) + 1 else 0
    case Mark(p, k, _) => if p in s.sets && k <= |s.sets[p].members| then 2 * (|s.sets[p].members| - k) else 0
    case Sweep(_, visited) => 2 * |s.freeList.Keys - visited|
    case Release(_, _, visited) => 2 * |s.freeList.Keys - visited| + 1
    case _ => 0
  }

  /** One step of the collector brings the end of the run nearer. */
  predicate Nearer(s: State, t: State) {
    || Stage(t.pc) < Stage(s.pc)
    || (Stage(t.pc) == Stage(s.pc) && t.next < s.next)
    || (Stage(t.pc) == Stage(s.pc) && t.next == s.next && OfUser(t) < OfUser(s))
    || (Stage(t.pc) == Stage(s.pc) && t.next == s.next && OfUser(t) == OfUser(s) && OfSet(t) < OfSet(s))
  }

  lemma UserGetsNearer(s: State)
    requires Quiet(s)
    requires s.pc == Counting || s.pc == NextUser || s.pc == AwaitPending || s.pc == LoadSet || s.pc.TagSet?
    ensures Nearer(s, CollectorStep(s, 0))
  {
    hide SetInv, SweepOk;
    if s.pc.TagSet? {
      assert CollectorStep(s, 0) == TagStep(s);
      hide CollectorStep, TagStep, NobodyAwaited;
      TagGetsNearer(s);
    } else {
      match s.pc
      case NextUser => if s.next == 0 { } else { }
      case _ =>
    }
  }

  lemma TagGetsNearer(s: State)
    requires CollectorInv(s) && s.pc.TagSet?
    ensures Nearer(s, TagStep(s))
  {
    if s.pc.seen == Null {
    } else if s.users[s.next - 1].field == s.pc.seen {
      TagIs(s);
      hide TagStep;
    } else {
    }
  }

  lemma SetGetsNearer(s: State)
    requires Quiet(s) && (s.pc.Scan? || s.pc.Mark? || s.pc.Untag?)
    ensures Nearer(s, CollectorStep(s, 0))
  {
    hide SweepOk, NobodyAwaited;
    var t := CollectorStep(s, 0);
    assert t == ScanStep(s);
    if s.pc.Untag? {
      UntagIs(s);
      hide CollectorStep, ScanStep, SetInv;
      assert t.next < s.next && Stage(t.pc) == Stage(s.pc);
    } else {
      MarkFrame(s);
      hide CollectorStep;
      MemberGetsNearer(s);
    }
  }

  lemma MemberGetsNearer(s: State)
    requires SetInv(s) && (s.pc.Scan? || s.pc.Mark?)
    ensures Nearer(s, ScanStep(s))
  {
    if s.pc.Scan? {
      ScanIsInside(s);
      hide SetInv;
      if s.pc.k < |s.sets[s.pc.p].members| { ScanIs(s); } else { ScanEndIs(s); }
      hide ScanStep;
    }
  }

  lemma NextNeverRises(s: State, o: Obj)
    requires s.pc != Waiting && CollectorInv(s)
    ensures CollectorStep(s, o).next <= s.next
  {
    match s.pc
    case AwaitPending => if s.users[s.next - 1].pending { }
    case TagSet(seen) => if seen == Null { } else { }
    case Sweep(_, _) => if o in s.freeList { } else { }
    case Scan(p, _) => if p in s.sets { }
    case _ =>
  }

  lemma NobodyStarts(s: State, o: Obj)
    requires NobodyAwaited(s) && s.pc != Waiting && CollectorInv(s)
    ensures NobodyAwaited(CollectorStep(s, o))
  {
    CollectorFrames(s, o);
    NextNeverRises(s, o);
    hide CollectorStep;
  }

  /** The collector's registers and the custody of the working sets. */
  lemma StructureIsKept(s: State, o: Obj)
    requires CollectorInv(s) && SetInv(s)
    ensures SetInv(CollectorStep(s, o))
  {
    hide SetInv, CollectorStep;
    match s.pc
    case Waiting => GcProof.LoadKeepsSets(s, o);
    case Counting => GcProof.CountKeepsSets(s, o);
    case NextUser => GcProof.NextKeepsSets(s, o);
    case AwaitPending | LoadSet => GcProof.AwaitKeepsSets(s, o);
    case TagSet(seen) =>
      if seen == Null {
        GcProof.TagNullKeepsSets(s, o);
      } else if s.users[s.next - 1].field == seen {
        GcProof.TagKeepsSets(s, o);
      } else {
        GcProof.TagMissedKeepsSets(s, o);
      }
    case Scan(p, k) =>
      ScanIsInside(s);
      if k < |s.sets[p].members| { GcProof.ScanKeepsSets(s, o); } else { GcProof.ScanEndKeepsSets(s, o); }
    case Mark(_, _, _) => GcProof.MarkKeepsSets(s, o);
    case Untag(p) =>
      if s.users[s.next - 1].field == At(p, true) {
        GcProof.UntagKeepsSets(s, o);
      } else {
        GcProof.HandKeepsSets(s, o);
      }
    case Sweep(_, _) => GcProof.SweepKeepsSets(s, o);
    case Release(_, _, _) => GcProof.ReleaseKeepsSets(s, o);
  }

  lemma ScanIsInside(s: State)
    requires SetInv(s) && s.pc.Scan?
    ensures s.pc.p in s.sets && s.pc.k <= |s.sets[s.pc.p].members|
  {
  }

  lemma RegistersAreKept(s: State, o: Obj)
    requires CollectorInv(s) && SetInv(s)
    ensures CollectorInv(CollectorStep(s, o))
  {
    hide CollectorInv, SetInv, StartStep, TagStep, ScanStep, SweepStep;
    if s.pc.LoadSet? || s.pc.TagSet? {
      TagKeepsRegisters(s);
    } else if s.pc.Scan? || s.pc.Mark? {
      ScanKeepsRegisters(s);
    } else if s.pc.Untag? {
      UntagKeepsRegisters(s);
    } else if s.pc.Sweep? || s.pc.Release? {
      SweepKeepsRegisters(s, o);
    } else {
      StartKeepsRegisters(s);
    }
  }

  lemma StartKeepsRegisters(s: State)
    requires CollectorInv(s) && (s.pc.Waiting? || s.pc.Counting? || s.pc.NextUser? || s.pc.AwaitPending?)
    ensures CollectorInv(StartStep(s))
  {
    match s.pc
    case NextUser => if s.next == 0 { }
    case AwaitPending => if s.users[s.next - 1].pending { }
    case _ =>
  }

  lemma TagKeepsRegisters(s: State)
    requires CollectorInv(s) && (s.pc.LoadSet? || s.pc.TagSet?)
    ensures CollectorInv(TagStep(s))
  {
    if s.pc.TagSet? {
      if s.pc.seen == Null {
      } else if s.users[s.next - 1].field == s.pc.seen {
        TagIs(s);
        hide TagStep;
      } else {
      }
    }
  }

  lemma ScanKeepsRegisters(s: State)
    requires CollectorInv(s) && SetInv(s) && (s.pc.Scan? || s.pc.Mark?)
    ensures CollectorInv(ScanStep(s))
  {
    MarkFrame(s);
    if s.pc.Scan? {
      ScanIsInside(s);
      hide SetInv;
      if s.pc.k < |s.sets[s.pc.p].members| { ScanIs(s); } else { ScanEndIs(s); }
      hide ScanStep;
    } else {
      hide SetInv;
    }
  }

  lemma UntagKeepsRegisters(s: State)
    requires CollectorInv(s) && SetInv(s) && s.pc.Untag?
    ensures CollectorInv(ScanStep(s))
  {
    UntagFrame(s);
    UntagIs(s);
    hide SetInv;
    var t := ScanStep(s);
    assert t.pc == NextUser && t.next == s.next - 1;
    hide ScanStep;
  }

  lemma SweepKeepsRegisters(s: State, o: Obj)
    requires CollectorInv(s) && (s.pc.Sweep? || s.pc.Release?)
    ensures CollectorInv(SweepStep(s, o))
  {
    if s.pc.Sweep? {
      if o in s.freeList && o !in s.pc.visited { VisitIs(s, o); } else { NoVisitIs(s, o); }
      hide SweepStep;
    }
  }

  lemma ScanKeepsSweep(s: State)
    requires CollectorInv(s) && Stage(s.pc) >= 2
    ensures SweepOk(CollectorStep(s, 0))
  {
    if s.pc != NextUser {
      NoSweepYet(s, 0);
      hide CollectorStep;
    }
  }

  lemma ReleaseGetsNearer(s: State)
    requires Quiet(s) && s.pc.Release?
    ensures Nearer(s, CollectorStep(s, 0)) && SweepOk(CollectorStep(s, 0))
  {
    hide SetInv;
  }

  lemma VisitGetsNearer(s: State, o: Obj)
    requires CollectorInv(s) && SweepOk(s) && s.pc.Sweep? && o in s.freeList && o !in s.pc.visited
    ensures Nearer(s, CollectorStep(s, o)) && SweepOk(CollectorStep(s, o))
  {
    SweepKeepsSweep(s, o);
    VisitIs(s, o);
    var t := CollectorStep(s, o);
    assert t == SweepStep(s, o);
    assert (s.freeList - {o}).Keys == s.freeList.Keys - {o};
    hide CollectorStep, SweepStep, CollectorInv, SweepOk, Nearer;
    VisitedIsCounted(s, t, o);
  }

  lemma VisitedIsCounted(s: State, t: State, o: Obj)
    requires s.pc.Sweep? && o in s.freeList && o !in s.pc.visited && t.next == s.next
    requires (t.pc.Sweep? || t.pc.Release?) && t.pc.visited == s.pc.visited + {o}
    requires t.freeList.Keys == if t.pc.Sweep? then s.freeList.Keys else s.freeList.Keys - {o}
    ensures Nearer(s, t)
  {
    hide Nearer;
    FewerAreLeft(s.freeList.Keys, s.pc.visited, o);
    NearerByCount(s, t);
  }

  lemma NearerByCount(s: State, t: State)
    requires s.pc.Sweep? && (t.pc.Sweep? || t.pc.Release?) && t.next == s.next
    requires |t.freeList.Keys - t.pc.visited| < |s.freeList.Keys - s.pc.visited|
    ensures Nearer(s, t)
  {
  }

  lemma FewerAreLeft(keys: set<Obj>, visited: set<Obj>, o: Obj)
    requires o in keys && o !in visited
    ensures |keys - (visited + {o})| < |keys - visited|
    ensures |(keys - {o}) - (visited + {o})| < |keys - visited|
  {
    var left := keys - visited;
    assert keys - (visited + {o}) == left - {o};
    assert (keys - {o}) - (visited + {o}) == left - {o};
    assert |left - {o}| == |left| - 1;
  }

  lemma SweepGetsNearer(s: State) returns (o: Obj)
    requires Quiet(s) && s.pc.Sweep?
    ensures Nearer(s, CollectorStep(s, o)) && SweepOk(CollectorStep(s, o))
  {
    hide SetInv;
    var left := s.freeList.Keys - s.pc.visited;
    if left == {} {
      o := Outside(s.freeList.Keys);
      assert forall x | x in s.pc.due :: x in s.freeList.Keys ==> x !in left ==> x in s.pc.visited;
      assert s.pc.due <= s.pc.visited;
    } else {
      o :| o in left;
      VisitGetsNearer(s, o);
    }
  }

  lemma GetsNearer(s: State) returns (o: Obj)
    requires Quiet(s) && s.pc != Waiting
    ensures Nearer(s, CollectorStep(s, o)) && Quiet(CollectorStep(s, o))
  {
    o := 0;
    match s.pc {
      case Scan(_, _) => SetGetsNearer(s);
      case Mark(_, _, _) => SetGetsNearer(s);
      case Untag(_) => SetGetsNearer(s);
      case Release(_, _, _) => ReleaseGetsNearer(s);
      case Sweep(_, _) => o := SweepGetsNearer(s);
      case _ => UserGetsNearer(s);
    }
    if Stage(s.pc) >= 2 { ScanKeepsSweep(s); }
    NobodyStarts(s, o);
    StructureIsKept(s, o);
    RegistersAreKept(s, o);
    hide CollectorStep, CollectorInv, SetInv, Nearer, SweepOk, NobodyAwaited;
  }

  /** An object that is not in the set. */
  lemma Outside(os: set<Obj>) returns (o: Obj)
    ensures o !in os
  {
    o := 0;
    var rest := os;
    while exists x :: x in rest && x >= o
      invariant rest <= os && forall x | x in os && x !in rest :: x < o
      decreases |rest|
    {
      var x :| x in rest && x >= o;
      o := x + 1;
      rest := rest - {x};
    }
    assert forall x | x in os :: x < o;
  }

  lemma RunCons(s: State, step: Step, rest: seq<Step>)
    ensures Run(s, [step] + rest) == Run(Apply(s, step), rest)
    decreases |rest|
  {
    hide Apply;
    if rest == [] {
      assert ([step] + rest)[..0] == [];
    } else {
      var n := |rest| - 1;
      RunCons(s, step, rest[..n]);
      assert ([step] + rest)[..n + 1] == [step] + rest[..n];
    }
  }

  /** The collector alone finishes the run it is in. */
  lemma {:induction false} CollectorFinishes(s: State) returns (steps: seq<Step>)
    requires Quiet(s)
    ensures (forall k | 0 <= k < |steps| :: steps[k].Collect?) && Run(s, steps).pc == Waiting
    decreases Stage(s.pc), s.next, OfUser(s), OfSet(s)
  {
    if s.pc == Waiting {
      return [];
    }
    var o := GetsNearer(s);
    hide CollectorStep, Quiet;
    var rest := CollectorFinishes(CollectorStep(s, o));
    RunCons(s, Collect(o), rest);
    steps := [Collect(o)] + rest;
  }

  lemma CollectorKeepsSweep(s: State, o: Obj)
    requires SweepOk(s)
    ensures SweepOk(CollectorStep(s, o))
  {
    if s.pc.Sweep? || s.pc.Release? {
      SweepKeepsSweep(s, o);
      assert CollectorStep(s, o) == SweepStep(s, o);
      hide CollectorStep, SweepStep;
    } else if s.pc != NextUser {
      NoSweepYet(s, o);
      hide CollectorStep;
    }
  }

  lemma SweepKeepsSweep(s: State, o: Obj)
    requires SweepOk(s) && (s.pc.Sweep? || s.pc.Release?)
    ensures SweepOk(SweepStep(s, o))
  {
    if s.pc.Sweep? {
      if o in s.freeList && o !in s.pc.visited { VisitIs(s, o); } else { NoVisitIs(s, o); }
      hide SweepStep;
      if o in s.freeList { assert (s.freeList - {o}).Keys == s.freeList.Keys - {o}; }
    }
  }

  lemma NoSweepYet(s: State, o: Obj)
    requires !s.pc.Sweep? && !s.pc.Release? && s.pc != NextUser
    ensures !CollectorStep(s, o).pc.Sweep? && !CollectorStep(s, o).pc.Release?
  {
    match s.pc
    case AwaitPending => if Current(s) { }
    case TagSet(_) => if Current(s) { }
    case Scan(p, k) => if p in s.sets { if k < |s.sets[p].members| { } else { } }
    case Untag(_) => if Current(s) { UntagIs(s); hide ScanStep; }
    case _ =>
  }

  lemma {:induction false} SweepIsOk(start: State, steps: seq<Step>)
    requires Initial(start)
    ensures SweepOk(Run(start, steps))
  {
    hide UserStep, CollectorStep;
    if steps != [] {
      var s := Run(start, steps[..|steps| - 1]);
      SweepIsOk(start, steps[..|steps| - 1]);
      match steps[|steps| - 1]
      case Register =>
      case Act(u, a) => if u < |s.users| { UserFrames(s, u, a); }
      case Collect(o) => CollectorKeepsSweep(s, o);
    }
  }

  /** Termination of gc_run: wherever a hazard-free schedule has brought it, once nobody that it still has to
      scan is pending the collector's own steps finish the run. */
  lemma UndisturbedRunEnds(start: State, steps: seq<Step>) returns (more: seq<Step>)
    requires Initial(start) && HazardFree(start, steps)
    requires NobodyAwaited(Run(start, steps))
    ensures (forall k | 0 <= k < |more| :: more[k].Collect?)
    ensures Run(Run(start, steps), more).pc == Waiting
  {
    hide Run, Inv, CollectorInv, SetInv, NobodyAwaited, SweepOk;
    Invariant(start, steps);
    SweepIsOk(start, steps);
    InvIsStructured(Run(start, steps));
    more := CollectorFinishes(Run(start, steps));
  }

  lemma InvIsStructured(s: State)
    requires Inv(s)
    ensures CollectorInv(s) && SetInv(s)
  {
    hide CollectorInv, SetInv, HoldInv, RetireInv, UsersInv, ObjectInv;
  }
}
