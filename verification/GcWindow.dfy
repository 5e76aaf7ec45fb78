/** Both hazards occur: schedules that end with a user holding an object that has been freed. */
module GcWindow {
  import opened Gc
  import GcInvariant
  import opened GcTheorems
  import opened GcScripts
  import opened GcHazards

  const RESTING := User(Resting, false, Null, {})
  const LOCKED := User(Fetching, true, Null, {})

  lemma TwoUsersAt(s: State, t: State)
    requires Leads(s, t) && t.users == [] && (t.pc == Waiting || t.pc == Counting)
    ensures Leads(s, t.(users := [LOCKED, LOCKED]))
  {
    hide Leads;
    LeadsOn(s, t, Register);
    var t1 := t.(users := [RESTING]);
    assert Apply(t, Register) == t1;
    LeadsOn(s, t1, Register);
    var t2 := t.(users := [RESTING, RESTING]);
    assert Apply(t1, Register) == t2;
    LeadsOn(s, t2, Act(0, Lock));
    var t3 := t.(users := [LOCKED, RESTING]);
    assert Apply(t2, Act(0, Lock)) == t3;
    LeadsOn(s, t3, Act(1, Lock));
    assert Apply(t3, Act(1, Lock)) == t.(users := [LOCKED, LOCKED]);
  }

  // ---------- a registration in the window ----------

  /** Both users registered between the load and the bump; user 0 retires object 1, which user 1 holds. */
  function InWindow(ownerFrees: bool, marks: bool): State {
    Init(ownerFrees, marks).(
      pc := Counting, limbo := map[1 := 0], live := {1},
      users := [User(Storing(1, 0), true, Null, {}), User(Fetching, true, Null, {1})])
  }

  lemma WindowIsReached(ownerFrees: bool, marks: bool)
    ensures Leads(Init(ownerFrees, marks), InWindow(ownerFrees, marks)) && UnsafeBump(InWindow(ownerFrees, marks))
  {
    hide Leads;
    var s := Init(ownerFrees, marks);
    LeadsNowhere(s);
    LeadsOn(s, s, Collect(0));
    var s1 := s.(pc := Counting);
    assert Apply(s, Collect(0)) == s1;
    TwoUsersAt(s, s1);
    var s2 := s1.(users := [LOCKED, LOCKED]);
    LeadsOn(s, s2, Act(1, Link(1)));
    var holder := LOCKED.(held := {1});
    var s3 := s1.(users := [LOCKED, holder], table := {1}, live := {1});
    assert LOCKED.held + {1} == {1};
    assert Apply(s2, Act(1, Link(1))) == s3;
    DeleterReadsStamp(s, s3);
    var t := InWindow(ownerFrees, marks);
    assert t.next <= 0 < 1 < |t.users| && t.users[0].pc.Storing? && t.users[0].pc.o in t.users[1].held;
  }

  lemma DeleterReadsStamp(s: State, t: State)
    requires t == InWindow(t.ownerFrees, t.marks).(
                  table := {1}, limbo := map[], users := [LOCKED, LOCKED.(held := {1})])
    requires Leads(s, t)
    ensures Leads(s, InWindow(t.ownerFrees, t.marks))
  {
    hide Leads;
    LeadsOn(s, t, Act(0, Unlink({1})));
    var r := t.(table := {}, limbo := map[1 := 0]);
    assert Apply(t, Act(0, Unlink({1}))) == r;
    LeadsOn(s, r, Act(0, ReadStamp(1)));
    assert Apply(r, Act(0, ReadStamp(1))) == InWindow(t.ownerFrees, t.marks);
  }

  lemma DangerIsReal(s: State, t: State, step: Step)
    requires Leads(s, t) && Dangerous(Apply(t, step))
    ensures exists steps :: !Safe(Run(s, steps))
  {
    hide Safe, HazardFree, Apply, Run;
    var a :| HazardFree(s, a) && Run(s, a) == t;
    var b :| HazardFree(Apply(t, step), b) && !Safe(Run(Apply(t, step), b));
    assert Run(t, [step]) == Apply(t, step) by { OneStep(t, step); }
    RunAppend(s, a, [step]);
    RunAppend(s, a + [step], b);
  }

  lemma OneStep(s: State, step: Step)
    ensures Run(s, [step]) == Apply(s, step)
  {
    hide Apply;
    assert [step][..0] == [];
  }

  /** With the mark as it is meant or as it is written: after a registration in the window a user may follow a
      reference to an object that has been freed. */
  lemma RegistrationInTheWindowIsUnsafe(ownerFrees: bool, marks: bool)
    ensures exists steps :: !Safe(Run(Init(ownerFrees, marks), steps))
  {
    var start, t := Init(ownerFrees, marks), InWindow(ownerFrees, marks);
    WindowIsReached(ownerFrees, marks);
    LeadsKeepsInv(start, t);
    UnsafeBumpFrees(t, 0, 1);
    assert Apply(t, Collect(0)) == CollectorStep(t, 0);
    DangerIsReal(start, t, Collect(0));
  }

  // ---------- the mark as it is written ----------

  /** User 0 uses object 1, which it has published; user 1 has retired it at counter 0. */
  function Published(ownerFrees: bool): State {
    Init(ownerFrees, false).(
      live := {1}, freeList := map[1 := 0], sets := map[5 := WorkingSet([1], InField(0))],
      users := [User(Using, false, At(5, false), {1}), RESTING])
  }

  lemma ObjectIsPublished(ownerFrees: bool)
    ensures var using := Published(ownerFrees).users[0];
            Leads(Init(ownerFrees, false), Published(ownerFrees).(
              table := {1}, freeList := map[], users := [using, LOCKED]))
  {
    hide Leads;
    var s := Init(ownerFrees, false);
    LeadsNowhere(s);
    TwoUsersAt(s, s);
    var s1 := s.(users := [LOCKED, LOCKED]);
    LeadsOn(s, s1, Act(0, Link(1)));
    var s2 := s.(users := [LOCKED.(held := {1}), LOCKED], table := {1}, live := {1});
    assert Apply(s1, Act(0, Link(1))) == s2;
    LeadsOn(s, s2, Act(0, Commit(5, [1])));
    var sets := map[5 := WorkingSet([1], InField(0))];
    var s3 := s2.(users := [User(Committed, true, At(5, false), {1}), LOCKED], sets := sets);
    assert Apply(s2, Act(0, Commit(5, [1]))) == s3;
    LeadsOn(s, s3, Act(0, Unpend));
    var s4 := s3.(users := [User(Using, false, At(5, false), {1}), LOCKED]);
    assert Apply(s3, Act(0, Unpend)) == s4;
  }

  lemma ObjectIsRetired(ownerFrees: bool)
    ensures Leads(Init(ownerFrees, false), Published(ownerFrees))
  {
    ObjectIsPublished(ownerFrees);
    hide Leads;
    var s, r := Init(ownerFrees, false), Published(ownerFrees);
    var using := r.users[0];
    var s1 := r.(table := {1}, freeList := map[], users := [using, LOCKED]);
    LeadsOn(s, s1, Act(1, Unlink({1})));
    var s2 := s1.(table := {}, limbo := map[1 := 1]);
    assert Apply(s1, Act(1, Unlink({1}))) == s2;
    LeadsOn(s, s2, Act(1, ReadStamp(1)));
    var s3 := s2.(users := [using, LOCKED.(pc := Storing(1, 0))]);
    assert Apply(s2, Act(1, ReadStamp(1))) == s3;
    LeadsOn(s, s3, Act(1, Store));
    var s4 := r.(users := [using, LOCKED]);
    assert s3.limbo - {1} == map[];
    assert Apply(s3, Act(1, Store)) == s4;
    DeleterCommits(s, s4);
  }

  lemma DeleterCommits(s: State, t: State)
    requires var r := Published(t.ownerFrees); t == r.(users := [r.users[0], LOCKED])
    requires Leads(s, t)
    ensures Leads(s, Published(t.ownerFrees))
  {
    hide Leads;
    var r := Published(t.ownerFrees);
    var using := r.users[0];
    LeadsOn(s, t, Act(1, CommitNull));
    var s5 := r.(users := [using, LOCKED.(pc := Committed)]);
    assert Apply(t, Act(1, CommitNull)) == s5;
    LeadsOn(s, s5, Act(1, Unpend));
    assert Apply(s5, Act(1, Unpend)) == r;
  }

  /** A run comes to the end of the scan of user 0's set. */
  lemma SetIsScanned(s: State) returns (t: State)
    requires s == Published(s.ownerFrees).(counter := s.counter, epoch := s.epoch, next := s.next)
    ensures Leads(s, t) && t == s.(pc := Untag(5), next := 1, counter := s.counter + 1, epoch := s.counter,
              users := [User(Using, false, At(5, true), {1}), RESTING])
  {
    hide Leads;
    LeadsNowhere(s);
    var s1 := s.(pc := Counting, next := 2);
    LeadsOn(s, s, Collect(0));
    assert Apply(s, Collect(0)) == s1;
    var s2 := s1.(pc := NextUser, counter := s.counter + 1, epoch := s.counter);
    LeadsOn(s, s1, Collect(0));
    assert Apply(s1, Collect(0)) == s2;
    PassRester(s2);
    var s3 := s2.(next := 1);
    LeadsTransitive(s, s2, s3);
    var s4 := TagHolder(s3);
    LeadsTransitive(s, s3, s4);
    t := ScanAll(s4);
    LeadsTransitive(s, s4, t);
    assert t.users == [User(Using, false, At(5, true), {1}), RESTING];
  }

  /** The first run after the retirement is too early to free the object. */
  lemma FirstRunKeeps(ownerFrees: bool)
    ensures Leads(Init(ownerFrees, false), Published(ownerFrees).(counter := 1))
  {
    ObjectIsRetired(ownerFrees);
    hide Leads;
    var s, r := Init(ownerFrees, false), Published(ownerFrees);
    var s1 := SetIsScanned(r);
    LeadsTransitive(s, r, s1);
    LeadsOn(s, s1, Collect(0));
    var s2 := r.(pc := NextUser, counter := 1);
    assert Apply(s1, Collect(0)) == s2;
    LeadsOn(s, s2, Collect(0));
    var s3 := s2.(pc := Sweep({1}, {}));
    assert r.freeList.Keys == {1};
    assert Apply(s2, Collect(0)) == s3;
    LeadsOn(s, s3, Collect(1));
    var s4 := s2.(pc := Sweep({1}, {} + {1}));
    assert Apply(s3, Collect(1)) == s4;
    LeadsOn(s, s4, Collect(0));
    assert Apply(s4, Collect(0)) == r.(counter := 1);
  }

  /** The next one is not: with the mark as it is written, an object that a user has published and still uses
      is freed. No user registers while a run is on. */
  lemma MarkAsWrittenIsUnsafe(ownerFrees: bool)
    ensures exists steps :: !Safe(Run(Init(ownerFrees, false), steps))
  {
    FirstRunKeeps(ownerFrees);
    hide Leads;
    var start, s := Init(ownerFrees, false), Published(ownerFrees).(counter := 1);
    var t := SetIsScanned(s);
    LeadsTransitive(start, s, t);
    assert 1 in t.users[0].held && Low(t, 1);
    LeadsKeepsInv(start, t);
    UnheededFrees(t);
    assert Apply(t, Collect(0)) == CollectorStep(t, 0);
    DangerIsReal(start, t, Collect(0));
  }

  lemma LeadsKeepsInv(start: State, t: State)
    requires Initial(start) && Leads(start, t)
    ensures GcInvariant.Inv(t)
  {
    hide Run, HazardFree, GcInvariant.Inv;
    var steps :| HazardFree(start, steps) && Run(start, steps) == t;
    Invariant(start, steps);
  }
}
