/** The two hazards are exact: from any state that a hazard-free schedule reaches, a hazardous step can be
    continued so that an object in use is freed, and no other step can be, short of a further hazard. */
module GcHazards {
  import opened Gc
  import opened GcFrame
  import opened GcInvariant
  import opened GcTheorems
  import opened GcScripts
  import GcProof

  /** Some hazard-free continuation frees an object in use. */
  ghost predicate Dangerous(s: State) {
    exists more :: HazardFree(s, more) && !Safe(Run(s, more))
  }

  lemma LeadsToDanger(s: State, t: State)
    requires Leads(s, t) && !Safe(t)
    ensures Dangerous(s)
  {
    hide Safe, HazardFree, Run;
    var steps :| HazardFree(s, steps) && Run(s, steps) == t;
  }

  lemma InvIsNotDangerous(s: State)
    requires Inv(s)
    ensures !Dangerous(s)
  {
    hide Inv, HazardFree, Safe, Run;
    forall more | HazardFree(s, more)
      ensures Safe(Run(s, more))
    {
      InvariantFrom(s, more);
      InvIsSafe(Run(s, more));
    }
  }

  lemma InvIsApart(s: State)
    requires Inv(s) && !s.pc.Scan? && !s.pc.Mark? && !s.pc.Untag?
    ensures Apart(s)
  {
    hide HoldInv, CollectorInv, ObjectInv, Partition;
    forall u | 0 <= u < |s.users|
      ensures Fits(s.users[u], u, s.limbo) && OwnSets(s.users[u]) <= s.sets.Keys
    {
      assert UserOk(s.users[u], s.table, s.limbo, s.freeList, s.sets);
    }
    forall u, v | 0 <= u < v < |s.users|
      ensures OwnSets(s.users[u]) !! OwnSets(s.users[v])
    {
    }
  }

  // ---------- the end of a scan that has marked nothing ----------

  /** The last part of both stories: nobody below `next` is in the way, o is older than the run, and the sweep
      visits it first. */
  lemma SweptAway(s: State, v: nat, o: Obj)
    requires s.pc == NextUser && s.next <= |s.users| && forall w | 0 <= w < s.next :: AtRest(s.users[w])
    requires o in s.freeList && s.freeList[o] < s.epoch && v < |s.users| && o in s.users[v].held
    ensures Dangerous(s)
  {
    hide Leads;
    PassResters(s, 0);
    var s0 := s.(next := 0);
    var keys := s.freeList.Keys;
    var s1 := s0.(pc := Sweep(keys, {}));
    LeadsOn(s, s0, Collect(0));
    assert Apply(s0, Collect(0)) == s1;
    var s2 := s1.(freeList := s.freeList - {o}, pc := Release(o, keys, {} + {o}));
    LeadsOn(s, s1, Collect(o));
    assert Apply(s1, Collect(o)) == s2;
    LeadsOn(s, s2, Collect(o));
    var s3 := Apply(s2, Collect(o));
    assert o in s3.users[v].held && o !in s3.live;
    LeadsToDanger(s, s3);
  }

  lemma DangerFollows(s: State, t: State)
    requires Leads(s, t) && Dangerous(t)
    ensures Dangerous(s)
  {
    hide Safe, HazardFree, Run, Leads;
    var more :| HazardFree(t, more) && !Safe(Run(t, more));
    assert Leads(t, Run(t, more)) by { LeadsBy(t, more); }
    LeadsTransitive(s, t, Run(t, more));
    LeadsToDanger(s, Run(t, more));
  }

  lemma LeadsBy(s: State, steps: seq<Step>)
    requires HazardFree(s, steps)
    ensures Leads(s, Run(s, steps))
  {
  }

  /** The step that ends a scan, and what it leaves of the state. */
  lemma UntagLeaves(s: State)
    requires s.pc.Untag? && Current(s)
    ensures var t := CollectorStep(s, 0); var x := s.next - 1;
            && CollectorFrame(s, t) && t.pc == NextUser && t.next == x && t.freeList == s.freeList
            && (if s.users[x].field == At(s.pc.p, true)
                then t.users == s.users[x := s.users[x].(field := At(s.pc.p, false))] && t.sets == s.sets
                else t.users == s.users && t.sets == s.sets - {s.pc.p})
  {
    UntagFrame(s);
    hide CollectorFrame;
    if s.users[s.next - 1].field == At(s.pc.p, true) { } else { }
  }

  /** A set that the collector frees is no user's any more. */
  lemma FreedSetIsNobodys(s: State, u: nat)
    requires Inv(s) && s.pc.Untag? && u < |s.users| && s.users[s.next - 1].field != At(s.pc.p, true)
    ensures s.pc.p !in OwnSets(s.users[u])
  {
    hide HoldInv, RetireInv, ObjectInv, Partition, UsersInv;
    assert CustodyOk(s, s.pc.p);
  }

  lemma UntagKeepsFits(s: State, u: nat)
    requires Inv(s) && s.pc.Untag? && u < |s.users|
    ensures var t := CollectorStep(s, 0);
            |t.users| == |s.users| && Fits(t.users[u], u, t.limbo) && OwnSets(t.users[u]) <= t.sets.Keys
            && OwnSets(t.users[u]) == OwnSets(s.users[u])
  {
    UntagLeaves(s);
    hide CollectorStep, HoldInv, Partition;
    assert UserOk(s.users[u], s.table, s.limbo, s.freeList, s.sets);
    hide UsersOk;
    if s.users[s.next - 1].field != At(s.pc.p, true) { FreedSetIsNobodys(s, u); }
  }

  lemma UntagKeepsApart(s: State)
    requires Inv(s) && s.pc.Untag?
    ensures Apart(CollectorStep(s, 0))
  {
    var t := CollectorStep(s, 0);
    forall u | 0 <= u < |t.users|
      ensures Fits(t.users[u], u, t.limbo) && OwnSets(t.users[u]) <= t.sets.Keys
      ensures |t.users| == |s.users| && OwnSets(t.users[u]) == OwnSets(s.users[u])
    {
      UntagLeaves(s);
      UntagKeepsFits(s, u);
    }
    hide CollectorStep, HoldInv, RetireInv, ObjectInv, UsersInv;
    forall u, v | 0 <= u < v < |t.users|
      ensures OwnSets(t.users[u]) !! OwnSets(t.users[v])
    {
      assert OwnSets(s.users[u]) !! OwnSets(s.users[v]) by { OwnSetsDiffer(s, u, v); }
    }
  }

  lemma OwnSetsDiffer(s: State, u: nat, v: nat)
    requires SetInv(s) && u < v < |s.users|
    ensures OwnSets(s.users[u]) !! OwnSets(s.users[v])
  {
  }

  lemma UnheededFrees(s: State)
    requires Inv(s) && UnheededSet(s)
    ensures Dangerous(CollectorStep(s, 0))
  {
    hide Inv, Leads, Apart, CollectorStep, Dangerous;
    var t, x := CollectorStep(s, 0), s.next - 1;
    UntagLeaves(s);
    UntagKeepsApart(s);
    var o :| o in s.users[x].held && Low(s, o);
    var r := ClearAll(t, x, x);
    SweptAway(r, x, o);
    DangerFollows(t, r);
  }

  // ---------- the bump in front of a retirement that has read the old counter ----------

  /** User u is about to retire o; v, which comes after u in the list, holds o and has published it. Nobody else
      has anything. */
  predicate Poised(s: State, u: nat, v: nat, o: Obj) {
    && u < v < |s.users| && (s.marks || s.users[v].held == {o}) && Apart(s)
    && s.users[u].pc.Storing? && s.users[u].pc.o == o && o !in s.freeList && o in s.limbo && s.limbo[o] == u
    && Settled(s.users[v], {o}, s.sets)
    && (forall w | 0 <= w < |s.users| && w != u && w != v :: AtRest(s.users[w]))
  }

  lemma GetPoised(s: State, u: nat, v: nat, o: Obj) returns (t: State)
    requires Apart(s) && u < v < |s.users| && s.users[u].pc.Storing? && s.users[u].pc.o == o
    requires s.marks || Lean(s.users[v], {o})
    requires o in s.users[v].held && o !in s.freeList && o in s.limbo && s.limbo[o] == u
    ensures Leads(s, t) && Poised(t, u, v, o) && t.users[u] == s.users[u] && |t.users| == |s.users|
    ensures t.pc == s.pc && t.next == s.next && t.epoch == s.epoch && t.counter == s.counter
  {
    hide Leads, Apart;
    var r := ClearAll(s, u, v);
    ApartMeansDriving(r, v, {o});
    t := Drive(r, v, {o});
    LeadsTransitive(s, r, t);
    AsideKeepsApart(r, t, v, {o});
  }

  /** The run of the bump ends without having waited for u. */
  lemma FirstRunEnds(s: State, u: nat, v: nat, o: Obj) returns (t: State)
    requires Poised(s, u, v, o) && s.pc == NextUser && s.next <= u
    ensures Leads(s, t) && Poised(t, u, v, o) && t.pc == Waiting && t.counter == s.counter && t.users == s.users
  {
    hide Leads, Fits;
    PassResters(s, 0);
    var s0 := s.(next := 0);
    var s1 := s0.(pc := Sweep(s.freeList.Keys, {}));
    LeadsOn(s, s0, Collect(0));
    assert Apply(s0, Collect(0)) == s1;
    t := SweepAll(s1);
    LeadsTransitive(s, s1, t);
    assert o !in t.freeList.Keys;
  }

  lemma FieldIsUntagged(s: State, v: nat)
    requires Apart(s) && v < |s.users| && s.users[v].field.At?
    ensures !s.users[v].field.tagged
  {
    assert Fits(s.users[v], v, s.limbo);
  }

  /** The next run scans v, with o not on the free list yet, and comes to u. */
  lemma HolderIsScanned(s: State, u: nat, v: nat, o: Obj) returns (t: State)
    requires Poised(s, u, v, o) && s.pc == Waiting
    ensures Leads(s, t) && Poised(t, u, v, o) && t.pc == NextUser && t.next == u + 1
    ensures t.epoch == s.counter && t.users == s.users
  {
    hide Leads, Fits;
    LeadsNowhere(s);
    var s1 := s.(pc := Counting, next := |s.users|);
    LeadsOn(s, s, Collect(0));
    assert Apply(s, Collect(0)) == s1;
    var s2 := s1.(pc := NextUser, epoch := s.counter, counter := s.counter + 1);
    LeadsOn(s, s1, Collect(0));
    assert Apply(s1, Collect(0)) == s2;
    PassResters(s2, v + 1);
    var s3 := s2.(next := v + 1);
    LeadsTransitive(s, s2, s3);
    FieldIsUntagged(s, v);
    var s4 := PassHolder(s3);
    LeadsTransitive(s, s3, s4);
    PassResters(s4, u + 1);
    t := s4.(next := u + 1);
    LeadsTransitive(s, s4, t);
    assert o !in t.freeList.Keys;
  }

  /** Now u puts o on the free list, with its old stamp, and goes. */
  lemma DeleterIsLate(s: State, u: nat, v: nat, o: Obj)
    requires Poised(s, u, v, o) && s.pc == NextUser && s.next == u + 1 && s.users[u].pc.stamp < s.epoch
    ensures Dangerous(s)
  {
    hide Leads, Fits, Dangerous;
    LeadsNowhere(s);
    ApartMeansDriving(s, u, {});
    var s1 := UserStep(s, u, Store);
    LeadsOn(s, s, Act(u, Store));
    StoreOne(s, u, {});
    assert o in s1.freeList && s1.freeList[o] == s.users[u].pc.stamp;
    hide UserStep;
    var t := Drive(s1, u, {});
    LeadsTransitive(s, s1, t);
    AsideTransitive(s, s1, t, u);
    assert t.freeList[o] < t.epoch;
    SweptAway(t, v, o);
    DangerFollows(s, t);
  }

  lemma BumpKeepsApart(s: State)
    requires Apart(s) && s.pc == Counting
    ensures var t := CollectorStep(s, 0);
            t == s.(pc := NextUser, epoch := s.counter, counter := s.counter + 1) && Apart(t)
  {
  }

  lemma UnsafeBumpFrees(s: State, u: nat, v: nat)
    requires Inv(s) && s.pc == Counting && s.next <= u < v < |s.users|
    requires s.users[u].pc.Storing? && s.users[u].pc.o in s.users[v].held
    requires s.marks || Lean(s.users[v], {s.users[u].pc.o})
    ensures Dangerous(CollectorStep(s, 0))
  {
    hide Leads, Dangerous, Apart, Poised, Lean;
    var o, stamp := s.users[u].pc.o, s.users[u].pc.stamp;
    StampAtBump(s, u);
    InvIsApart(s);
    BumpKeepsApart(s);
    var t := CollectorStep(s, 0);
    hide Inv, CollectorStep;
    var t1 := GetPoised(t, u, v, o);
    assert Poised(t1, u, v, o) && t1.users[u].pc == Storing(o, stamp);
    var t2 := FirstRunEnds(t1, u, v, o);
    var t3 := HolderIsScanned(t2, u, v, o);
    DeleterIsLate(t3, u, v, o);
    DangerFollows(t2, t3);
    DangerFollows(t1, t2);
    DangerFollows(t, t1);
  }

  /** In the window of a run, a stamp read by a user that the run does not list is the counter. */
  lemma StampAtBump(s: State, u: nat)
    requires Inv(s) && s.pc == Counting && s.next <= u < |s.users| && s.users[u].pc.Storing?
    ensures var o := s.users[u].pc.o;
            s.users[u].pc.stamp == s.counter && o in s.limbo && s.limbo[o] == u && o !in s.freeList
  {
    hide UsersInv, SetInv, HoldInv, LimboOk;
    assert StampOk(s, u);
  }

  // ---------- the theorems ----------

  /** An unsafe bump whose holder is still fetching or holds nothing else. */
  predicate LeanBump(s: State) {
    s.pc == Counting && exists u, v | s.next <= u < v < |s.users| ::
      && s.users[u].pc.Storing? && s.users[u].pc.o in s.users[v].held
      && Lean(s.users[v], {s.users[u].pc.o})
  }

  lemma BumpIsNoScan(s: State)
    requires s.pc == Counting
    ensures !UnheededSet(s)
  {
  }

  /** With the mark as it is meant: the bump of a run is followed, in some continuation without another hazard,
      by the freeing of an object in use, if and only if a user that registered in its window is about to
      retire an object that a user registered after it holds. With the mark as it is written that condition is
      needed as well, and suffices if the holder is still fetching or holds nothing else. */
  lemma BumpExactly(start: State, steps: seq<Step>)
    requires Initial(start) && HazardFree(start, steps) && Run(start, steps).pc == Counting
    ensures var s := Run(start, steps);
            && (start.marks ==> (UnsafeBump(s) <==> Dangerous(CollectorStep(s, 0))))
            && (Dangerous(CollectorStep(s, 0)) ==> UnsafeBump(s))
            && (LeanBump(s) ==> Dangerous(CollectorStep(s, 0)))
  {
    hide Inv, Dangerous, Lean;
    var s := Run(start, steps);
    Invariant(start, steps);
    RunKeepsMarks(start, steps);
    if UnsafeBump(s) {
      if s.marks {
        var u, v :| s.next <= u < v < |s.users| && s.users[u].pc.Storing? && s.users[u].pc.o in s.users[v].held;
        UnsafeBumpFrees(s, u, v);
      } else if LeanBump(s) {
        var u, v :| s.next <= u < v < |s.users| && s.users[u].pc.Storing? && s.users[u].pc.o in s.users[v].held
            && Lean(s.users[v], {s.users[u].pc.o});
        UnsafeBumpFrees(s, u, v);
      }
    } else {
      hide UnsafeBump;
      BumpIsNoScan(s);
      GcProof.StepKeepsInv(s, Collect(0));
      InvIsNotDangerous(CollectorStep(s, 0));
    }
  }

  lemma {:induction false} RunKeepsMarks(s: State, steps: seq<Step>)
    ensures Run(s, steps).marks == s.marks
  {
    hide Apply;
    if steps != [] {
      RunKeepsMarks(s, steps[..|steps| - 1]);
      StepKeepsMarks(Run(s, steps[..|steps| - 1]), steps[|steps| - 1]);
    }
  }

  /** With the mark as it is written: the end of the scan of a working set is followed, in some continuation
      without another hazard, by the freeing of an object in use, if and only if its user still holds an
      object that was retired before the run. */
  lemma UntagExactly(start: State, steps: seq<Step>)
    requires Initial(start) && !start.marks && HazardFree(start, steps) && Run(start, steps).pc.Untag?
    ensures var s := Run(start, steps); UnheededSet(s) <==> Dangerous(CollectorStep(s, 0))
  {
    hide Inv, Dangerous, UnheededSet;
    var s := Run(start, steps);
    Invariant(start, steps);
    if UnheededSet(s) {
      UnheededFrees(s);
    } else {
      GcProof.StepKeepsInv(s, Collect(0));
      InvIsNotDangerous(CollectorStep(s, 0));
    }
  }
}
