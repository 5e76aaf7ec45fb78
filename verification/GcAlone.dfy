/** The collector of module Gc, run with no user step in between, computes what the method GcRun.GcState.Run
    does: a whole run turns the free list into AfterRun of it. */
module GcAlone {
  import opened Gc
  import opened GcFrame
  import opened GcInvariant
  import opened GcTheorems
  import GcRun

  function MembersOf(s: State, u: nat): seq<Obj>
    requires u < |s.users|
  {
    var f := s.users[u].field;
    if f.At? && f.p in s.sets then s.sets[f.p].members else []
  }

  /** The members of the users' working sets. */
  function SetsOf(s: State): seq<seq<Obj>> {
    seq(|s.users|, u requires 0 <= u < |s.users| => MembersOf(s, u))
  }

  /** What the working sets from user k on name. */
  function NamedFrom(s: State, k: nat): set<Obj>
    decreases |s.users| - k
  {
    if k >= |s.users| then {} else (set o | o in MembersOf(s, k)) + NamedFrom(s, k + 1)
  }

  /** The first k members of a working set. */
  function Firsts(members: seq<Obj>, k: nat): set<Obj>
    requires k <= |members|
  {
    set i | 0 <= i < k :: members[i]
  }

  function MarkedAs(freeList: map<Obj, nat>, named: set<Obj>, ctr: nat): map<Obj, nat> {
    map o | o in freeList :: if o in named then ctr else freeList[o]
  }

  lemma {:induction false} NamedIsSome(s: State, k: nat, o: Obj)
    requires k <= |s.users|
    ensures o in NamedFrom(s, k) <==> exists u :: k <= u < |s.users| && o in SetsOf(s)[u]
    decreases |s.users| - k
  {
    if k < |s.users| {
      NamedIsSome(s, k + 1, o);
      assert SetsOf(s)[k] == MembersOf(s, k);
    }
  }

  lemma MarkedIsMarked(s: State, ctr: nat)
    requires 0 !in s.freeList
    ensures MarkedAs(s.freeList, NamedFrom(s, 0), ctr) == GcRun.Marked(s.freeList, SetsOf(s), ctr)
  {
    forall o | o in s.freeList
      ensures o in NamedFrom(s, 0) <==> GcRun.InSome(SetsOf(s), o)
    {
      NamedIsSome(s, 0, o);
    }
  }

  // ---------- where a run stands that began at s0 ----------

  /** All users below `next` are still to be scanned; what the others name, and `named`, has been marked. */
  predicate ScanOk(s0: State, s: State, named: set<Obj>) {
    && s.counter == s0.counter + 1 && s.epoch == s0.counter && s.next <= |s0.users|
    && s.sets == s0.sets && s.live == s0.live
    && s.freeList == MarkedAs(s0.freeList, NamedFrom(s0, s.next) + named, s0.counter)
  }

  predicate TaggedOk(s0: State, s: State, p: Ptr) {
    && 0 < s.next <= |s0.users| && s0.users[s.next - 1].field == At(p, false) && p in s0.sets
    && s.users == s0.users[s.next - 1 := s0.users[s.next - 1].(field := At(p, true))]
  }

  function AllMarked(s0: State): map<Obj, nat> {
    MarkedAs(s0.freeList, NamedFrom(s0, 0), s0.counter)
  }

  /** The sweep has visited `visited` and freed of it what was older than the run, but for `pending`. */
  predicate SweepOk(s0: State, s: State, due: set<Obj>, visited: set<Obj>, pending: set<Obj>) {
    var m := AllMarked(s0);
    && s.counter == s0.counter + 1 && s.epoch == s0.counter && s.sets == s0.sets && s.users == s0.users
    && due == s0.freeList.Keys && s.freeList.Keys <= m.Keys
    && (forall o | o in s.freeList :: s.freeList[o] == m[o] && (o in visited ==> m[o] >= s0.counter))
    && (forall o | o in m && o !in s.freeList :: o in visited && m[o] < s0.counter)
    && s.live == s0.live - (s0.freeList.Keys - s.freeList.Keys - pending)
  }

  predicate Finished(s0: State, s: State) {
    && s.pc == Waiting && s.counter == s0.counter + 1 && s.sets == s0.sets && s.users == s0.users
    && s.freeList == GcRun.Swept(AllMarked(s0), s0.counter)
    && s.live == s0.live - (s0.freeList.Keys - s.freeList.Keys)
  }

  predicate Alone(s0: State, s: State) {
    && s.marks && s.table == s0.table && s.limbo == s0.limbo
    && match s.pc
       case Waiting => s == s0 || Finished(s0, s)
       case Counting => s == s0.(pc := Counting, next := |s0.users|)
       case NextUser => s.users == s0.users && ScanOk(s0, s, {})
       case AwaitPending => s.users == s0.users && ScanOk(s0, s, {}) && 0 < s.next
       case LoadSet => s.users == s0.users && ScanOk(s0, s, {}) && 0 < s.next
       case TagSet(seen) =>
         s.users == s0.users && ScanOk(s0, s, {}) && 0 < s.next && seen == s.users[s.next - 1].field
       case Scan(p, k) =>
         && TaggedOk(s0, s, p) && k <= |s0.sets[p].members|
         && ScanOk(s0, s, Firsts(s0.sets[p].members, k))
       case Mark(p, k, o) =>
         && TaggedOk(s0, s, p) && k < |s0.sets[p].members| && o == s0.sets[p].members[k] && o in s.freeList
         && ScanOk(s0, s, Firsts(s0.sets[p].members, k))
       case Untag(p) =>
         && TaggedOk(s0, s, p)
         && ScanOk(s0, s, Firsts(s0.sets[p].members, |s0.sets[p].members|))
       case Sweep(due, visited) => SweepOk(s0, s, due, visited, {})
       case Release(o, due, visited) => o in s0.freeList && o !in s.freeList && SweepOk(s0, s, due, visited, {o})
  }

  /** What is used of the state in which the run begins. */
  predicate StartOk(s0: State) {
    && s0.pc == Waiting && s0.marks && s0.freeList.Keys <= s0.live && 0 !in s0.freeList
    && (forall u | 0 <= u < |s0.users| && s0.users[u].field.At? ::
          !s0.users[u].field.tagged && s0.users[u].field.p in s0.sets)
  }

  lemma InvStarts(s0: State)
    requires Inv(s0) && s0.pc == Waiting && s0.marks
    ensures StartOk(s0)
  {
    hide UsersInv, RetireInv, HoldInv;
  }

  lemma StartAlone(s0: State, s: State)
    requires StartOk(s0) && Alone(s0, s) && (s == s0 || s.pc == Counting || s.pc == AwaitPending)
    ensures Alone(s0, StartStep(s))
  {
    hide GcRun.Swept;
    if s == s0 {
    } else if s.pc == Counting {
      assert s.users == s0.users && NamedFrom(s0, |s0.users|) == {};
    } else {
      if s.users[s.next - 1].pending { } else { }
    }
  }

  lemma NextAlone(s0: State, s: State)
    requires StartOk(s0) && Alone(s0, s) && s.pc == NextUser
    ensures Alone(s0, StartStep(s))
  {
    hide GcRun.Swept;
    if s.next == 0 {
      assert NamedFrom(s0, 0) + {} == NamedFrom(s0, 0);
      assert s.freeList == AllMarked(s0);
    }
  }

  lemma LoadAlone(s0: State, s: State)
    requires StartOk(s0) && Alone(s0, s) && s.pc.LoadSet?
    ensures Alone(s0, TagStep(s))
  {
    hide GcRun.Swept, NamedFrom;
  }

  lemma TagNullAlone(s0: State, s: State)
    requires StartOk(s0) && Alone(s0, s) && s.pc == TagSet(Null)
    ensures Alone(s0, TagStep(s))
  {
    hide GcRun.Swept;
    assert NamedFrom(s0, s.next - 1) == NamedFrom(s0, s.next);
  }

  lemma TagAlone(s0: State, s: State)
    requires StartOk(s0) && Alone(s0, s) && s.pc.TagSet? && s.pc.seen.At?
    ensures Alone(s0, TagStep(s))
  {
    hide GcRun.Swept, NamedFrom;
    TagIs(s);
    hide TagStep;
    assert Firsts(s0.sets[s.pc.seen.p].members, 0) == {};
  }

  lemma MarkMore(freeList: map<Obj, nat>, named: set<Obj>, ctr: nat, o: Obj)
    ensures MarkedAs(freeList, named + {o}, ctr) ==
            if o in freeList then MarkedAs(freeList, named, ctr)[o := ctr] else MarkedAs(freeList, named, ctr)
  {
  }

  lemma OneMoreMember(members: seq<Obj>, k: nat, rest: set<Obj>)
    requires k < |members|
    ensures rest + Firsts(members, k + 1) == rest + Firsts(members, k) + {members[k]}
  {
  }

  lemma MemberAlone(s0: State, s: State)
    requires StartOk(s0) && Alone(s0, s) && s.pc.Scan? && s.pc.k < |s0.sets[s.pc.p].members|
    ensures Alone(s0, ScanStep(s))
  {
    hide GcRun.Swept;
    var p, k := s.pc.p, s.pc.k;
    var members := s0.sets[p].members;
    ScanIs(s);
    hide ScanStep;
    if members[k] == 0 || members[k] !in s.freeList {
      OneMoreMember(members, k, NamedFrom(s0, s.next));
      MarkMore(s0.freeList, NamedFrom(s0, s.next) + Firsts(members, k), s0.counter, members[k]);
    }
  }

  lemma MarkAlone(s0: State, s: State)
    requires StartOk(s0) && Alone(s0, s) && s.pc.Mark?
    ensures Alone(s0, ScanStep(s))
  {
    hide GcRun.Swept;
    var p, k := s.pc.p, s.pc.k;
    var members := s0.sets[p].members;
    OneMoreMember(members, k, NamedFrom(s0, s.next));
    MarkMore(s0.freeList, NamedFrom(s0, s.next) + Firsts(members, k), s0.counter, members[k]);
  }

  lemma ScanEndAlone(s0: State, s: State)
    requires StartOk(s0) && Alone(s0, s) && s.pc.Scan? && s.pc.k == |s0.sets[s.pc.p].members|
    ensures Alone(s0, ScanStep(s))
  {
    hide GcRun.Swept;
  }

  lemma UntagAlone(s0: State, s: State)
    requires StartOk(s0) && Alone(s0, s) && s.pc.Untag?
    ensures Alone(s0, ScanStep(s))
  {
    hide GcRun.Swept;
    var p, members := s.pc.p, s0.sets[s.pc.p].members;
    UntagIs(s);
    var t := ScanStep(s);
    assert t.users == s0.users;
    hide ScanStep;
    assert MembersOf(s0, t.next) == members;
    assert NamedFrom(s0, s.next) + Firsts(members, |members|) == NamedFrom(s0, t.next) + {};
  }

  lemma VisitAlone(s0: State, s: State, o: Obj)
    requires StartOk(s0) && Alone(s0, s) && s.pc.Sweep? && o in s.freeList && o !in s.pc.visited
    ensures Alone(s0, SweepStep(s, o))
  {
    hide GcRun.Swept, AllMarked;
    VisitIs(s, o);
    hide SweepStep;
    assert AllMarked(s0).Keys == s0.freeList.Keys by { KeysOfMarked(s0); }
    if s.freeList[o] < s.epoch {
      assert s0.freeList.Keys - (s.freeList - {o}).Keys - {o} == s0.freeList.Keys - s.freeList.Keys - {};
    }
  }

  lemma KeysOfMarked(s0: State)
    ensures AllMarked(s0).Keys == s0.freeList.Keys
  {
  }

  lemma NoVisitAlone(s0: State, s: State, o: Obj)
    requires StartOk(s0) && Alone(s0, s) && s.pc.Sweep? && !(o in s.freeList && o !in s.pc.visited)
    ensures Alone(s0, SweepStep(s, o))
  {
    hide AllMarked;
    assert AllMarked(s0).Keys == s0.freeList.Keys by { KeysOfMarked(s0); }
    if s.pc.due <= s.pc.visited && o !in s.freeList {
      var m := AllMarked(s0);
      assert forall x | x in m :: x in s.pc.due;
      assert s.freeList == GcRun.Swept(m, s0.counter);
      assert s0.freeList.Keys - s.freeList.Keys - {} == s0.freeList.Keys - s.freeList.Keys;
    }
  }

  lemma ReleaseAlone(s0: State, s: State, o: Obj)
    requires StartOk(s0) && Alone(s0, s) && s.pc.Release?
    ensures Alone(s0, SweepStep(s, o))
  {
    hide GcRun.Swept, AllMarked;
    var t := SweepStep(s, o);
    assert s0.live - (s0.freeList.Keys - s.freeList.Keys - {s.pc.o}) - {s.pc.o}
        == s0.live - (s0.freeList.Keys - s.freeList.Keys - {});
  }

  lemma StepAlone(s0: State, s: State, o: Obj)
    requires StartOk(s0) && Alone(s0, s) && !(s != s0 && s.pc == Waiting)
    ensures Alone(s0, CollectorStep(s, o))
  {
    hide Alone, StartOk, StartStep, TagStep, ScanStep, SweepStep;
    match s.pc
    case Waiting => StartAlone(s0, s);
    case Counting => StartAlone(s0, s);
    case AwaitPending => StartAlone(s0, s);
    case NextUser => NextAlone(s0, s);
    case LoadSet => LoadAlone(s0, s);
    case TagSet(seen) => if seen == Null { TagNullAlone(s0, s); } else { TagAlone(s0, s); }
    case Scan(p, k) =>
      ScanIsKnown(s0, s);
      if k < |s0.sets[p].members| { MemberAlone(s0, s); } else { ScanEndAlone(s0, s); }
    case Mark(_, _, _) => MarkAlone(s0, s);
    case Untag(_) => UntagAlone(s0, s);
    case Sweep(_, visited) =>
      if o in s.freeList && o !in visited { VisitAlone(s0, s, o); } else { NoVisitAlone(s0, s, o); }
    case Release(_, _, _) => ReleaseAlone(s0, s, o);
  }

  lemma ScanIsKnown(s0: State, s: State)
    requires Alone(s0, s) && s.pc.Scan?
    ensures s.pc.p in s0.sets && s.pc.k <= |s0.sets[s.pc.p].members|
  {
  }

  /** The run is over and the next one has begun. */
  predicate Past(s0: State, s: State) {
    s.counter > s0.counter + 1 || (s.counter == s0.counter + 1 && s.pc == Counting)
  }

  lemma StepPast(s0: State, s: State, o: Obj)
    requires Past(s0, s) || Finished(s0, s)
    ensures Past(s0, CollectorStep(s, o))
  {
    CollectorFrames(s, o);
    if s.pc != Counting && s.pc != Waiting { hide CollectorStep; }
  }

  lemma {:induction false} RunAlone(s0: State, steps: seq<Step>)
    requires StartOk(s0) && forall k | 0 <= k < |steps| :: steps[k].Collect?
    ensures var s := Run(s0, steps); Alone(s0, s) || Past(s0, s)
  {
    hide Alone, StartOk, CollectorStep, Past, Finished;
    if steps == [] {
      assert Alone(s0, s0) by { StartIsAlone(s0); }
    } else {
      var n := |steps| - 1;
      RunAlone(s0, steps[..n]);
      var s := Run(s0, steps[..n]);
      if Past(s0, s) {
        StepPast(s0, s, steps[n].o);
      } else if s != s0 && s.pc == Waiting {
        WaitingIsFinished(s0, s);
        StepPast(s0, s, steps[n].o);
      } else {
        StepAlone(s0, s, steps[n].o);
      }
    }
  }

  lemma StartIsAlone(s0: State)
    requires StartOk(s0)
    ensures Alone(s0, s0)
  {
  }

  lemma WaitingIsFinished(s0: State, s: State)
    requires Alone(s0, s) && s != s0 && s.pc == Waiting
    ensures Finished(s0, s)
  {
  }

  /** Whatever order the sweep takes: the collector's steps that make up one whole run, with no user step in
      between, turn the free list into what GcRun.GcState.Run turns it into, free exactly what leaves it, and
      hand every working set back. */
  lemma RunAloneIsRun(s0: State, steps: seq<Step>)
    requires Inv(s0) && s0.pc == Waiting && s0.marks
    requires forall k | 0 <= k < |steps| :: steps[k].Collect?
    requires Run(s0, steps).pc == Waiting && Run(s0, steps).counter == s0.counter + 1
    ensures var s := Run(s0, steps);
            && s.freeList == GcRun.AfterRun(s0.freeList, SetsOf(s0), s0.counter)
            && s.live == s0.live - (s0.freeList.Keys - s.freeList.Keys)
            && s.users == s0.users && s.sets == s0.sets
  {
    hide Inv, Run;
    InvStarts(s0);
    RunAlone(s0, steps);
    WaitingIsFinished(s0, Run(s0, steps));
    MarkedIsMarked(s0, s0.counter);
  }
}
