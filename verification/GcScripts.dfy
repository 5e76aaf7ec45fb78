/** Building schedules: a user can always be brought to rest, and the collector past users at rest. */
module GcScripts {
  import opened Gc
  import opened GcFrame
  import opened GcTheorems

  /** A hazard-free schedule leads from s to t. */
  ghost predicate Leads(s: State, t: State) {
    exists steps :: HazardFree(s, steps) && Run(s, steps) == t
  }

  lemma LeadsNowhere(s: State)
    ensures Leads(s, s)
  {
    assert HazardFree(s, []) && Run(s, []) == s;
  }

  lemma LeadsOn(s: State, t: State, step: Step)
    requires Leads(s, t) && !Hazard(t, step)
    ensures Leads(s, Apply(t, step))
  {
    hide Apply, Hazard;
    var steps :| HazardFree(s, steps) && Run(s, steps) == t;
    var longer := steps + [step];
    assert longer[..|longer| - 1] == steps;
    assert HazardFree(s, longer) && Run(s, longer) == Apply(t, step);
  }

  lemma {:induction false} RunAppend(s: State, a: seq<Step>, b: seq<Step>)
    ensures Run(s, a + b) == Run(Run(s, a), b)
    ensures HazardFree(s, a) && HazardFree(Run(s, a), b) ==> HazardFree(s, a + b)
    decreases |b|
  {
    hide Apply, Hazard;
    if b == [] {
      assert a + b == a;
    } else {
      var n := |b| - 1;
      RunAppend(s, a, b[..n]);
      assert (a + b)[..|a + b| - 1] == a + b[..n];
    }
  }

  lemma LeadsTransitive(s: State, t: State, r: State)
    requires Leads(s, t) && Leads(t, r)
    ensures Leads(s, r)
  {
    hide HazardFree, Run;
    var a :| HazardFree(s, a) && Run(s, a) == t;
    var b :| HazardFree(t, b) && Run(t, b) == r;
    RunAppend(s, a, b);
  }

  // ---------- bringing a user to rest ----------

  predicate AtRest(usr: User) { usr == User(Resting, false, Null, {}) }

  /** The working sets a user refers to. */
  function OwnSets(usr: User): set<Ptr> {
    (if usr.field.At? then {usr.field.p} else {}) + (if usr.pc.Freeing? then {usr.pc.p} else {})
  }

  /** A user's record makes sense. */
  predicate Fits(usr: User, u: nat, limbo: map<Obj, nat>) {
    && (usr.pending <==> usr.pc == Fetching || usr.pc.Storing? || usr.pc == Committed)
    && (usr.pc.Storing? ==> usr.pc.o in limbo && limbo[usr.pc.o] == u)
    && (usr.pc == Resting || usr.pc.Freeing? ==> usr.held == {} && usr.field == Null)
    && (usr.pc == Committed && usr.field == Null ==> usr.held == {})
    && ((usr.pc == Fetching || usr.pc.Storing?) ==> usr.field == Null)
    && (usr.pc == Using || usr.pc.Clearing? ==> usr.field.At?)
    && (usr.field.At? ==> !usr.field.tagged)
  }

  /** What steps of user u alone leave to the others. */
  predicate Aside(s: State, t: State, u: nat) {
    && u < |s.users| && UserFrame(s, t, u)
    && (forall x | x in s.limbo && s.limbo[x] != u :: x in t.limbo)
    && (forall x | x in t.limbo :: x in s.limbo && t.limbo[x] == s.limbo[x])
    && (forall x | x in t.freeList && x !in s.freeList :: x in s.limbo && s.limbo[x] == u)
    && (forall p | p in s.sets && p !in OwnSets(s.users[u]) :: p in t.sets && t.sets[p] == s.sets[p])
    && (forall p | p in OwnSets(t.users[u]) :: p in OwnSets(s.users[u]) || p !in s.sets)
  }

  lemma AsideItself(s: State, u: nat)
    requires u < |s.users|
    ensures Aside(s, s, u)
  {
  }

  lemma AsideTransitive(s: State, t: State, r: State, u: nat)
    requires Aside(s, t, u) && Aside(t, r, u)
    ensures Aside(s, r, u)
  {
  }

  /** Done with: at rest, or with keep published and the pending flag cleared. */
  predicate Settled(usr: User, keep: set<Obj>, sets: map<Ptr, WorkingSet>) {
    if keep == {} then AtRest(usr)
    else (usr.pc == Using || usr.pc.Clearing?) && !usr.pending && keep <= usr.held
         && usr.field.At? && usr.field.p in sets
  }

  function Stage(usr: User, keep: set<Obj>): nat {
    match usr.pc
    case Fetching => 6
    case Storing(_, _) => 6
    case Committed => 5
    case Using => if keep != {} then 0 else 3
    case Clearing(seen) => if keep != {} then 0 else if seen != usr.field then 4 else 2
    case Freeing(_) => 1
    case Resting => 0
  }

  function OwnLimbo(limbo: map<Obj, nat>, u: nat): set<Obj> {
    set x | x in limbo && limbo[x] == u
  }

  predicate Closer(s: State, t: State, u: nat, keep: set<Obj>)
    requires u < |s.users| && u < |t.users|
  {
    var a, b := s.users[u], t.users[u];
    || Stage(b, keep) < Stage(a, keep)
    || (Stage(b, keep) == Stage(a, keep) && |OwnLimbo(t.limbo, u)| < |OwnLimbo(s.limbo, u)|)
    || (Stage(b, keep) == Stage(a, keep) && t.limbo == s.limbo && |b.held| < |a.held|)
    || (Stage(b, keep) == Stage(a, keep) && t.limbo == s.limbo && b.held == a.held && a.pc == Fetching && b.pc.Storing?)
  }

  predicate Driving(s: State, u: nat, keep: set<Obj>) {
    && u < |s.users| && Fits(s.users[u], u, s.limbo) && keep <= s.users[u].held
    && OwnSets(s.users[u]) <= s.sets.Keys
    && (forall x | x in keep :: x !in s.limbo || s.limbo[x] != u)
  }

  /** A user that holds nothing but keep, or can still let go of the rest. */
  predicate Lean(usr: User, keep: set<Obj>) { usr.pc == Fetching || usr.pc.Storing? || usr.held == keep }

  predicate LeanKept(s: State, t: State, u: nat, keep: set<Obj>)
    requires u < |s.users| && u < |t.users|
  {
    Lean(s.users[u], keep) ==> Lean(t.users[u], keep)
  }

  /** One step of the user on its way. */
  predicate Driven(s: State, t: State, u: nat, keep: set<Obj>)
    requires u < |s.users|
  {
    Driving(t, u, keep) && Aside(s, t, u) && Closer(s, t, u, keep) && LeanKept(s, t, u, keep)
  }

  lemma RetireOne(s: State, u: nat, x: Obj, keep: set<Obj>)
    requires Driving(s, u, keep) && s.users[u].pc == Fetching && x in s.limbo && s.limbo[x] == u
    ensures Driven(s, UserStep(s, u, ReadStamp(x)), u, keep)
  {
    UserFrames(s, u, ReadStamp(x));
    hide UserFrame;
  }

  lemma DropOne(s: State, u: nat, x: Obj, keep: set<Obj>)
    requires Driving(s, u, keep) && s.users[u].pc == Fetching && x in s.users[u].held && x !in keep
    ensures Driven(s, UserStep(s, u, Drop(x)), u, keep)
  {
    UserFrames(s, u, Drop(x));
    hide UserFrame;
  }

  lemma StoreOne(s: State, u: nat, keep: set<Obj>)
    requires Driving(s, u, keep) && s.users[u].pc.Storing?
    ensures Driven(s, UserStep(s, u, Store), u, keep)
  {
    UserFrames(s, u, Store);
    hide UserFrame;
    var t, x := UserStep(s, u, Store), s.users[u].pc.o;
    assert OwnLimbo(t.limbo, u) == OwnLimbo(s.limbo, u) - {x};
    assert x in OwnLimbo(s.limbo, u);
  }

  lemma CommitNothing(s: State, u: nat)
    requires Driving(s, u, {}) && s.users[u].pc == Fetching && s.users[u].held == {} && OwnLimbo(s.limbo, u) == {}
    ensures Driven(s, UserStep(s, u, CommitNull), u, {})
  {
    UserFrames(s, u, CommitNull);
    hide UserFrame;
    assert forall x | x in s.limbo && s.limbo[x] == u :: x in OwnLimbo(s.limbo, u);
  }

  lemma CommitOne(s: State, u: nat, p: Ptr, o: Obj)
    requires Driving(s, u, {o}) && s.users[u].pc == Fetching && s.users[u].held == {o} && OwnLimbo(s.limbo, u) == {}
    requires p !in s.sets
    ensures Driven(s, UserStep(s, u, Commit(p, [o])), u, {o})
  {
    UserFrames(s, u, Commit(p, [o]));
    var t := UserStep(s, u, Commit(p, [o]));
    CommitIsDone(s, u, p, o);
    hide UserStep, UserFrame;
  }

  lemma CommitIsDone(s: State, u: nat, p: Ptr, o: Obj)
    requires u < |s.users| && s.users[u].pc == Fetching && s.users[u].held == {o} && OwnLimbo(s.limbo, u) == {}
    requires p !in s.sets
    ensures UserStep(s, u, Commit(p, [o])) ==
            s.(users := s.users[u := s.users[u].(pc := Committed, field := At(p, false))],
               sets := s.sets[p := WorkingSet([o], InField(u))])
  {
    assert forall x | x in s.limbo && s.limbo[x] == u :: x in OwnLimbo(s.limbo, u);
  }

  lemma UnpendOne(s: State, u: nat, keep: set<Obj>)
    requires Driving(s, u, keep) && s.users[u].pc == Committed
    ensures Driven(s, UserStep(s, u, Unpend), u, keep)
  {
    UserFrames(s, u, Unpend);
    hide UserFrame;
  }

  lemma LoadOne(s: State, u: nat)
    requires Driving(s, u, {}) && s.users[u].pc == Using
    ensures Driven(s, UserStep(s, u, LoadField), u, {})
  {
    UserFrames(s, u, LoadField);
    hide UserFrame;
  }

  lemma MissOne(s: State, u: nat)
    requires Driving(s, u, {}) && s.users[u].pc.Clearing? && s.users[u].pc.seen != s.users[u].field
    ensures Driven(s, UserStep(s, u, ClearField), u, {})
  {
    UserFrames(s, u, ClearField);
    hide UserFrame;
  }

  lemma ClearOne(s: State, u: nat)
    requires Driving(s, u, {}) && s.users[u].pc.Clearing? && s.users[u].pc.seen == s.users[u].field
    ensures Driven(s, UserStep(s, u, ClearField), u, {})
  {
    UserFrames(s, u, ClearField);
    hide UserFrame;
    if s.users[u].field.tagged { } else { }
  }

  lemma FreeOne(s: State, u: nat)
    requires Driving(s, u, {}) && s.users[u].pc.Freeing?
    ensures Driven(s, UserStep(s, u, FreeOwn), u, {})
  {
    UserFrames(s, u, FreeOwn);
    hide UserFrame;
    if s.ownerFrees { } else { }
  }

  /** An address at which nothing is allocated. */
  lemma FreshPtr(ps: set<Ptr>) returns (p: Ptr)
    ensures p !in ps
  {
    p := 0;
    var rest := ps;
    while exists x :: x in rest && x >= p
      invariant rest <= ps && forall x | x in ps && x !in rest :: x < p
      decreases |rest|
    {
      var x :| x in rest && x >= p;
      p := x + 1;
      rest := rest - {x};
    }
    assert forall x | x in ps :: x < p;
  }

  /** One step of the user brings it nearer. */
  lemma DriveStep(s: State, u: nat, keep: set<Obj>) returns (a: Action)
    requires Driving(s, u, keep) && !Settled(s.users[u], keep, s.sets) && (keep == {} || exists o :: keep == {o})
    ensures Driven(s, UserStep(s, u, a), u, keep)
  {
    hide UserStep, Driven;
    var usr := s.users[u];
    match usr.pc
    case Fetching =>
      if x :| x in usr.held && x !in keep {
        a := Drop(x);
        DropOne(s, u, x, keep);
      } else if x :| x in OwnLimbo(s.limbo, u) {
        a := ReadStamp(x);
        RetireOne(s, u, x, keep);
      } else if keep == {} {
        a := CommitNull;
        assert usr.held == {} && OwnLimbo(s.limbo, u) == {};
        CommitNothing(s, u);
      } else {
        var o :| keep == {o};
        assert usr.held == {o} && OwnLimbo(s.limbo, u) == {};
        var p := FreshPtr(s.sets.Keys);
        a := Commit(p, [o]);
        CommitOne(s, u, p, o);
      }
    case Storing(_, _) => a := Store; StoreOne(s, u, keep);
    case Committed => a := Unpend; UnpendOne(s, u, keep);
    case Using => a := LoadField; LoadOne(s, u);
    case Clearing(seen) => a := ClearField; if seen == usr.field { ClearOne(s, u); } else { MissOne(s, u); }
    case Freeing(_) => a := FreeOwn; FreeOne(s, u);
  }

  /** A user can be brought to rest, or to use just what it keeps. */
  lemma {:induction false} Drive(s: State, u: nat, keep: set<Obj>) returns (t: State)
    requires Driving(s, u, keep) && (keep == {} || exists o :: keep == {o})
    ensures Leads(s, t) && Aside(s, t, u) && Driving(t, u, keep) && Settled(t.users[u], keep, t.sets)
    ensures LeanKept(s, t, u, keep)
    decreases Stage(s.users[u], keep), |OwnLimbo(s.limbo, u)|, |s.users[u].held|, s.users[u].pc == Fetching
  {
    hide UserStep, Leads, Settled, Stage, OwnLimbo, Aside, Fits, OwnSets;
    if Settled(s.users[u], keep, s.sets) {
      LeadsNowhere(s);
      AsideItself(s, u);
      return s;
    }
    var a := DriveStep(s, u, keep);
    var next := UserStep(s, u, a);
    assert Apply(s, Act(u, a)) == next;
    LeadsNowhere(s);
    LeadsOn(s, s, Act(u, a));
    t := Drive(next, u, keep);
    LeadsTransitive(s, next, t);
    AsideTransitive(s, next, t, u);
  }

  /** Every user's record makes sense, and no two refer to one working set. */
  predicate Apart(s: State) {
    && (forall u | 0 <= u < |s.users| :: Fits(s.users[u], u, s.limbo) && OwnSets(s.users[u]) <= s.sets.Keys)
    && (forall u, v | 0 <= u < v < |s.users| :: OwnSets(s.users[u]) !! OwnSets(s.users[v]))
  }

  lemma AsideKeepsApart(s: State, t: State, u: nat, keep: set<Obj>)
    requires Apart(s) && Aside(s, t, u) && Driving(t, u, keep)
    ensures Apart(t)
  {
    forall v | 0 <= v < |t.users|
      ensures Fits(t.users[v], v, t.limbo) && OwnSets(t.users[v]) <= t.sets.Keys
    {
      if v != u {
        assert OwnSets(s.users[v]) !! OwnSets(s.users[u]);
      }
    }
    forall v, w | 0 <= v < w < |t.users|
      ensures OwnSets(t.users[v]) !! OwnSets(t.users[w])
    {
      assert OwnSets(s.users[v]) !! OwnSets(s.users[w]);
    }
  }

  /** What bringing all users but two to rest leaves of the state. */
  predicate Cleared(s: State, t: State, a: nat, b: nat) {
    && t.pc == s.pc && t.next == s.next && t.epoch == s.epoch && t.counter == s.counter && t.marks == s.marks
    && |t.users| == |s.users| && Apart(t)
    && (a < |s.users| ==> t.users[a] == s.users[a]) && (b < |s.users| ==> t.users[b] == s.users[b])
    && (forall x | x in s.limbo && (s.limbo[x] == a || s.limbo[x] == b) ::
          x in t.limbo && t.limbo[x] == s.limbo[x] && (x !in s.freeList ==> x !in t.freeList))
    && (forall x | x in s.freeList :: x in t.freeList && t.freeList[x] == s.freeList[x])
  }

  lemma ClearedFurther(s: State, t: State, r: State, a: nat, b: nat, w: nat)
    requires Cleared(s, t, a, b) && Aside(t, r, w) && Apart(r) && w != a && w != b
    ensures Cleared(s, r, a, b)
  {
    hide Apart;
  }

  lemma ApartMeansDriving(s: State, u: nat, keep: set<Obj>)
    requires Apart(s) && u < |s.users| && keep <= s.users[u].held
    requires forall x | x in keep :: x !in s.limbo || s.limbo[x] != u
    ensures Driving(s, u, keep)
  {
  }

  /** All users but a and b can be brought to rest. */
  lemma ClearAll(s: State, a: nat, b: nat) returns (t: State)
    requires Apart(s)
    ensures Leads(s, t) && Cleared(s, t, a, b)
    ensures forall w | 0 <= w < |t.users| && w != a && w != b :: AtRest(t.users[w])
  {
    hide Leads, Apart, Driving;
    LeadsNowhere(s);
    t := s;
    var w := 0;
    while w < |s.users|
      invariant w <= |s.users| && Leads(s, t) && Cleared(s, t, a, b)
      invariant forall x | 0 <= x < w && x != a && x != b :: AtRest(t.users[x])
    {
      if w != a && w != b {
        ApartMeansDriving(t, w, {});
        var r := Drive(t, w, {});
        LeadsTransitive(s, t, r);
        AsideKeepsApart(t, r, w, {});
        ClearedFurther(s, t, r, a, b, w);
        t := r;
      }
      w := w + 1;
    }
  }

  // ---------- the collector past users at rest ----------

  /** Four steps for a user with an empty field. */
  lemma PassRester(s: State)
    requires s.pc == NextUser && 0 < s.next <= |s.users| && AtRest(s.users[s.next - 1])
    ensures Leads(s, s.(next := s.next - 1))
  {
    hide Leads;
    var s1 := s.(pc := AwaitPending);
    var s2 := s.(pc := LoadSet);
    var s3 := s.(pc := TagSet(Null));
    LeadsNowhere(s);
    LeadsOn(s, s, Collect(0));
    assert Apply(s, Collect(0)) == s1;
    LeadsOn(s, s1, Collect(0));
    assert Apply(s1, Collect(0)) == s2;
    LeadsOn(s, s2, Collect(0));
    assert Apply(s2, Collect(0)) == s3;
    LeadsOn(s, s3, Collect(0));
    assert Apply(s3, Collect(0)) == s.(next := s.next - 1);
  }

  lemma {:induction false} PassResters(s: State, m: nat)
    requires s.pc == NextUser && m <= s.next <= |s.users|
    requires forall w | m <= w < s.next :: AtRest(s.users[w])
    ensures Leads(s, s.(next := m))
    decreases s.next
  {
    hide Leads;
    if m == s.next {
      LeadsNowhere(s);
      assert s.(next := m) == s;
    } else {
      var t := s.(next := s.next - 1);
      PassRester(s);
      PassResters(t, m);
      LeadsTransitive(s, t, t.(next := m));
    }
  }

  /** Between runs again: the sweep takes nothing else and changes nothing else. */
  predicate Swept(s: State, t: State) {
    && t.pc == Waiting && t.users == s.users && t.sets == s.sets && t.limbo == s.limbo && t.marks == s.marks
    && t.counter == s.counter && t.freeList.Keys <= s.freeList.Keys
  }

  /** The sweep visits o. */
  lemma SweepOne(s: State, o: Obj) returns (t: State)
    requires s.pc.Sweep? && o in s.freeList && o !in s.pc.visited
    ensures Leads(s, t) && t.pc == Sweep(s.pc.due, s.pc.visited + {o})
    ensures t.users == s.users && t.sets == s.sets && t.limbo == s.limbo && t.marks == s.marks && t.counter == s.counter
    ensures s.freeList.Keys - {o} <= t.freeList.Keys <= s.freeList.Keys
  {
    hide Leads;
    LeadsNowhere(s);
    var due, visited := s.pc.due, s.pc.visited;
    if s.freeList[o] < s.epoch {
      var mid := s.(freeList := s.freeList - {o}, pc := Release(o, due, visited + {o}));
      t := mid.(pc := Sweep(due, visited + {o}), live := s.live - {o}, fault := s.fault || o !in s.live);
      LeadsOn(s, s, Collect(o));
      assert Apply(s, Collect(o)) == mid;
      LeadsOn(s, mid, Collect(o));
      assert Apply(mid, Collect(o)) == t;
    } else {
      t := s.(pc := Sweep(due, visited + {o}));
      LeadsOn(s, s, Collect(o));
      assert Apply(s, Collect(o)) == t;
    }
  }

  lemma SweepEnds(s: State)
    requires s.pc.Sweep? && s.pc.due <= s.pc.visited
    ensures Leads(s, s.(pc := Waiting))
  {
    hide Leads;
    LeadsNowhere(s);
    var o := FreshPtr(s.freeList.Keys);
    LeadsOn(s, s, Collect(o));
    assert Apply(s, Collect(o)) == s.(pc := Waiting);
  }

  lemma {:induction false} SweepAll(s: State) returns (t: State)
    requires s.pc.Sweep? && s.pc.due <= s.freeList.Keys + s.pc.visited
    ensures Leads(s, t) && Swept(s, t)
    decreases s.freeList.Keys - s.pc.visited
  {
    hide Leads;
    var visited := s.pc.visited;
    if o :| o in s.freeList.Keys - visited {
      var next := SweepOne(s, o);
      assert next.freeList.Keys - next.pc.visited < s.freeList.Keys - visited;
      t := SweepAll(next);
      LeadsTransitive(s, next, t);
    } else {
      forall x | x in s.pc.due
        ensures x in visited
      {
        assert x !in s.freeList.Keys - visited;
      }
      t := s.(pc := Waiting);
      SweepEnds(s);
    }
  }

  // ---------- the collector past a user that has published its working set ----------

  lemma ScanMember(s: State) returns (t: State)
    requires s.pc.Scan? && s.pc.p in s.sets && s.pc.k < |s.sets[s.pc.p].members|
    ensures Leads(s, t) && t == s.(pc := Scan(s.pc.p, s.pc.k + 1), freeList := t.freeList)
    ensures t.freeList.Keys == s.freeList.Keys && (!s.marks ==> t.freeList == s.freeList)
  {
    hide Leads;
    LeadsNowhere(s);
    var p, k := s.pc.p, s.pc.k;
    var m := s.sets[p].members[k];
    LeadsOn(s, s, Collect(0));
    if m == 0 || m !in s.freeList {
      t := s.(pc := Scan(p, k + 1));
      assert Apply(s, Collect(0)) == t;
    } else {
      var mid := s.(pc := Mark(p, k, m));
      assert Apply(s, Collect(0)) == mid;
      LeadsOn(s, mid, Collect(0));
      t := s.(freeList := if s.marks then s.freeList[m := s.epoch] else s.freeList, pc := Scan(p, k + 1));
      assert Apply(mid, Collect(0)) == t;
    }
  }

  lemma {:induction false} ScanAll(s: State) returns (t: State)
    requires s.pc.Scan? && s.pc.p in s.sets && s.pc.k <= |s.sets[s.pc.p].members|
    ensures Leads(s, t) && t == s.(pc := Untag(s.pc.p), freeList := t.freeList)
    ensures t.freeList.Keys == s.freeList.Keys && (!s.marks ==> t.freeList == s.freeList)
    decreases |s.sets[s.pc.p].members| - s.pc.k
  {
    hide Leads;
    if s.pc.k == |s.sets[s.pc.p].members| {
      t := s.(pc := Untag(s.pc.p));
      LeadsNowhere(s);
      LeadsOn(s, s, Collect(0));
      assert Apply(s, Collect(0)) == t;
    } else {
      var next := ScanMember(s);
      t := ScanAll(next);
      LeadsTransitive(s, next, t);
    }
  }

  lemma TagHolder(s: State) returns (t: State)
    requires s.pc == NextUser && 0 < s.next <= |s.users|
    requires var usr := s.users[s.next - 1]; !usr.pending && usr.field.At? && !usr.field.tagged
    ensures var v, p := s.next - 1, s.users[s.next - 1].field.p;
            t == s.(pc := Scan(p, 0), users := s.users[v := s.users[v].(field := At(p, true))])
    ensures Leads(s, t)
  {
    hide Leads;
    var v := s.next - 1;
    var f := s.users[v].field;
    LeadsNowhere(s);
    var s1 := s.(pc := AwaitPending);
    LeadsOn(s, s, Collect(0));
    assert Apply(s, Collect(0)) == s1;
    var s2 := s.(pc := LoadSet);
    LeadsOn(s, s1, Collect(0));
    assert Apply(s1, Collect(0)) == s2;
    var s3 := s.(pc := TagSet(f));
    LeadsOn(s, s2, Collect(0));
    assert Apply(s2, Collect(0)) == s3;
    t := s.(pc := Scan(f.p, 0), users := s.users[v := s.users[v].(field := At(f.p, true))]);
    LeadsOn(s, s3, Collect(0));
    assert Apply(s3, Collect(0)) == t;
  }

  /** A published working set is scanned and handed back; with the mark as it is written, one that names nothing
      retired that its user holds. */
  lemma PassHolder(s: State) returns (t: State)
    requires s.pc == NextUser && 0 < s.next <= |s.users|
    requires s.marks || forall x | x in s.users[s.next - 1].held :: x !in s.freeList
    requires var usr := s.users[s.next - 1];
             !usr.pending && usr.field.At? && !usr.field.tagged && usr.field.p in s.sets
    ensures Leads(s, t) && t == s.(next := s.next - 1, freeList := t.freeList)
    ensures t.freeList.Keys == s.freeList.Keys
  {
    hide Leads;
    var v, p := s.next - 1, s.users[s.next - 1].field.p;
    var s1 := TagHolder(s);
    var s2 := ScanAll(s1);
    LeadsTransitive(s, s1, s2);
    t := s.(next := v, freeList := s2.freeList);
    assert !UnheededSet(s2) by {
      assert s2.users[v].held == s.users[v].held;
      assert forall x | Low(s2, x) :: x in s.freeList.Keys;
    }
    LeadsOn(s, s2, Collect(0));
    assert s2.users[v := s2.users[v].(field := At(p, false))] == s.users;
    assert Apply(s2, Collect(0)) == t;
  }
}
