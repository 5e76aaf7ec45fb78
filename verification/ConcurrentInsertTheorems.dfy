/** What concurrent stores, finds and splices may rely on, and exactly when. */
module ConcurrentInsertTheorems {
  import opened Bytes
  import opened SplitOrder
  import opened HashTables
  import opened ConcurrentInsert
  import opened ConcurrentInsertProof

  /** Along the schedule every link is made behind a node of the list: none behind a sentinel that line 279
      has put into its slot and line 289 has not linked yet. */
  ghost predicate LinksOnList(steps: seq<Step>) {
    steps == [] ||
    (var before, last := steps[..|steps| - 1], steps[|steps| - 1];
     LinksOnList(before) && !LinksOffList(Run(before), last))
  }

  lemma {:induction false} Invariant(steps: seq<Step>)
    requires LinksOnList(steps)
    ensures Inv(Run(steps))
  {
    hide Inv, Apply, LinksOffList;
    if steps == [] {
      InitInv();
    } else {
      Invariant(steps[..|steps| - 1]);
      StepKeepsInv(Run(steps[..|steps| - 1]), steps[|steps| - 1]);
    }
  }

  lemma InitInv()
    ensures Inv(Init())
  {
    hide HashOf, ThreadOk, CellOk, ListInv, UnlinkedInv, NothingTwice;
    var s := Init();
    TwoCells(s.cells);
    SentinelsAreOk(s.cells);
    assert s.threads == [];
  }

  lemma SentinelsAreOk(cs: seq<Cell>)
    requires forall i | 0 <= i < |cs| :: cs[i].key.None? && cs[i].linked
    ensures forall i | 0 <= i < |cs| :: CellOk(cs[i], i, [])
  {
  }

  lemma TwoCells(cs: seq<Cell>)
    requires cs == Init().cells
    ensures ListInv(cs) && UnlinkedInv(cs) && NothingTwice(cs)
  {
    hide NoKeySkipped;
    assert |cs| == 2 && cs[0].linked && cs[1].linked;
  }

  lemma {:induction false} GuardOfPrefix(steps: seq<Step>, k: nat)
    requires LinksOnList(steps) && k <= |steps|
    ensures LinksOnList(steps[..k])
  {
    hide Run, LinksOffList;
    if k == |steps| {
      assert steps[..k] == steps;
    } else {
      GuardOfPrefix(steps[..|steps| - 1], k);
      assert steps[..|steps| - 1][..k] == steps[..k];
    }
  }

  // ---------- the list that starts at the head ----------

  ghost function After(cs: seq<Cell>, a: nat): set<nat>
    requires a < |cs|
  {
    set i: nat | i < |cs| && cs[i].linked && Less(cs, a, i)
  }

  lemma NextIsCloser(cs: seq<Cell>, a: nat)
    requires Closed(cs) && ListInv(cs) && a < |cs| && cs[a].linked && a != END
    ensures cs[cs[a].next].linked && After(cs, cs[a].next) < After(cs, a)
  {
    hide Less;
    var n := cs[a].next;
    assert n in After(cs, a);
    LessTransitive(cs, n, n, n);
    forall i: nat | i in After(cs, n)
      ensures i in After(cs, a)
    {
      LessTransitive(cs, a, n, i);
    }
  }

  /** The nodes met by following `next` from a to the end node. */
  ghost function ListFrom(cs: seq<Cell>, a: nat): (l: seq<nat>)
    requires Closed(cs) && ListInv(cs) && a < |cs| && cs[a].linked
    ensures |l| > 0 && l[0] == a
    ensures forall i | 0 <= i < |l| :: l[i] < |cs|
    decreases After(cs, a)
  {
    if a == END then [END] else NextIsCloser(cs, a); [a] + ListFrom(cs, cs[a].next)
  }

  ghost predicate Increasing(cs: seq<Cell>, l: seq<nat>) {
    && (forall i | 0 <= i < |l| :: l[i] < |cs|)
    && (forall i, j | 0 <= i < j < |l| :: Less(cs, l[i], l[j]))
  }

  lemma {:induction false} ListIsSorted(cs: seq<Cell>, a: nat)
    requires Closed(cs) && ListInv(cs) && a < |cs| && cs[a].linked
    ensures Increasing(cs, ListFrom(cs, a))
    decreases After(cs, a)
  {
    hide Less;
    if a != END {
      var n := cs[a].next;
      NextIsCloser(cs, a);
      ListIsSorted(cs, n);
      var m := ListFrom(cs, n);
      var l := [a] + m;
      forall i, j | 0 <= i < j < |l|
        ensures Less(cs, l[i], l[j])
      {
        LessTransitive(cs, a, n, l[j]);
        if i == 0 && j > 1 { assert Less(cs, m[0], m[j - 1]); }
        if i > 0 { assert Less(cs, m[i - 1], m[j - 1]); }
      }
    }
  }

  lemma {:induction false} ListIsComplete(cs: seq<Cell>, a: nat, x: nat)
    requires Closed(cs) && ListInv(cs) && a < |cs| && cs[a].linked
    requires x < |cs| && cs[x].linked && (x == a || Less(cs, a, x))
    ensures x in ListFrom(cs, a)
    decreases After(cs, a)
  {
    hide Less;
    if x != a {
      LessTransitive(cs, END, x, END);
      NextIsCloser(cs, a);
      ListIsComplete(cs, cs[a].next, x);
    }
  }

  lemma {:induction false} ListIsLinked(cs: seq<Cell>, a: nat, x: nat)
    requires Closed(cs) && ListInv(cs) && a < |cs| && cs[a].linked && x in ListFrom(cs, a)
    ensures x < |cs| && cs[x].linked
    decreases After(cs, a)
  {
    hide Less;
    if a != END {
      NextIsCloser(cs, a);
      if x != a { ListIsLinked(cs, cs[a].next, x); }
    }
  }

  /** Whatever the interleaving: following `next` from the head meets every key node ever made and every
      sentinel whose splice is done, once, sorted by hash, and no two of them carry one key. */
  lemma SortedAndComplete(steps: seq<Step>)
    requires LinksOnList(steps)
    ensures Inv(Run(steps))
    ensures var cs := Run(steps).cells; var l := ListFrom(cs, HEAD);
            && (forall x: nat | x < |cs| :: x in l <==> cs[x].linked)
            && (forall x | 0 <= x < |cs| && cs[x].key.Some? :: cs[x].linked)
            && (forall i, j | 0 <= i < j < |l| ::
                  && l[i] != l[j] && cs[l[i]].hash <= cs[l[j]].hash
                  && (cs[l[i]].key.Some? ==> cs[l[i]].key != cs[l[j]].key))
  {
    hide Less, ThreadOk, CellOk, UnlinkedInv;
    Invariant(steps);
    KeysAreLinked(Run(steps));
    var cs := Run(steps).cells;
    var l := ListFrom(cs, HEAD);
    ListIsSorted(cs, HEAD);
    forall x: nat | x < |cs|
      ensures x in l <==> cs[x].linked
    {
      if cs[x].linked { ListIsComplete(cs, HEAD, x); }
      if x in l { ListIsLinked(cs, HEAD, x); }
    }
    forall i, j | 0 <= i < j < |l|
      ensures l[i] != l[j] && cs[l[i]].hash <= cs[l[j]].hash
      ensures cs[l[i]].key.Some? ==> cs[l[i]].key != cs[l[j]].key
    {
      LessTransitive(cs, l[i], l[j], l[i]);
      LessByHash(cs, l[i], l[j]);
    }
  }

  // ---------- exactly when nothing is lost ----------

  /** The k-th node behind a. */
  ghost function Nth(cs: seq<Cell>, a: nat, k: nat): (n: nat)
    requires Closed(cs) && a < |cs|
    ensures n < |cs|
    decreases k
  {
    if k == 0 then a else Nth(cs, cs[a].next, k - 1)
  }

  ghost predicate OnList(cs: seq<Cell>, x: nat)
    requires Closed(cs)
  {
    exists k: nat :: Nth(cs, HEAD, k) == x
  }

  /** Every node for which a store has answered HT_GOOD, and every sentinel whose splice is done, is on the
      list. */
  ghost predicate Intact(s: State)
    requires Shape(s)
  {
    forall t | 0 <= t < |s.threads| && !s.threads[t].errand.Lookup? && s.threads[t].pc.Done?
               && s.threads[t].pc.status == Good :: OnList(s.cells, s.threads[t].pc.node)
  }

  lemma {:induction false} ListIsNth(cs: seq<Cell>, a: nat, i: nat)
    requires Closed(cs) && ListInv(cs) && a < |cs| && cs[a].linked && i < |ListFrom(cs, a)|
    ensures Nth(cs, a, i) == ListFrom(cs, a)[i]
    decreases i
  {
    hide Less, ListInv;
    if i > 0 {
      assert a != END;
      NextIsCloser(cs, a);
      ListIsNth(cs, cs[a].next, i - 1);
    }
  }

  lemma InvIsIntact(s: State)
    requires Inv(s)
    ensures Intact(s)
  {
    hide Less, UnlinkedInv, NothingTwice, HashOf, NoKeySkipped, WalkOk;
    forall t | 0 <= t < |s.threads| && !s.threads[t].errand.Lookup? && s.threads[t].pc.Done?
               && s.threads[t].pc.status == Good
      ensures OnList(s.cells, s.threads[t].pc.node)
    {
      assert ThreadOk(s.cells, s.threads[t], t);
      KeysAreLinked(s);
      var x := s.threads[t].pc.node;
      ListIsComplete(s.cells, HEAD, x);
      var i :| 0 <= i < |ListFrom(s.cells, HEAD)| && ListFrom(s.cells, HEAD)[i] == x;
      ListIsNth(s.cells, HEAD, i);
    }
  }

  /** What is linked off the list leaves the way from the head as it was. */
  lemma {:induction false} HeadStaysOnList(cs: seq<Cell>, ds: seq<Cell>, a: nat, k: nat)
    requires Closed(cs) && ListInv(cs) && Closed(ds) && |cs| <= |ds| && a < |cs| && cs[a].linked
    requires forall i | 0 <= i < |cs| && cs[i].linked :: ds[i].next == cs[i].next
    ensures Nth(ds, a, k) < |cs| && cs[Nth(ds, a, k)].linked
    decreases k
  {
    hide Less;
    if k > 0 { HeadStaysOnList(cs, ds, cs[a].next, k - 1); }
  }

  lemma OffListIsNotIntact(s: State, step: Step)
    requires Inv(s) && LinksOffList(s, step)
    ensures !Intact(Apply(s, step))
  {
    hide ListInv, UnlinkedInv, NothingTwice, HashOf, CellOk, WalkOk, NoKeySkipped;
    var s', t := Apply(s, step), step.t;
    var cs, ds := s.cells, s'.cells;
    var pc, node := s.threads[t].pc, s'.threads[t].pc.node;
    assert ThreadOk(cs, s.threads[t], t);
    assert s'.threads[t].pc == Done(Good, node) && !s'.threads[t].errand.Lookup?;
    forall k: nat
      ensures Nth(ds, HEAD, k) != node
    {
      HeadIsLinked(cs);
      HeadStaysOnList(cs, ds, HEAD, k);
    }
  }

  lemma HeadIsLinked(cs: seq<Cell>)
    requires Closed(cs) && ListInv(cs)
    ensures cs[HEAD].linked
  {
  }

  lemma {:induction false} FirstLossShows(steps: seq<Step>) returns (k: nat)
    requires !LinksOnList(steps)
    ensures k <= |steps| && !Intact(Run(steps[..k]))
  {
    hide Inv, Apply, LinksOffList, Intact;
    var n := |steps| - 1;
    if LinksOnList(steps[..n]) {
      Invariant(steps[..n]);
      OffListIsNotIntact(Run(steps[..n]), steps[n]);
      assert steps[..n + 1] == steps;
      k := n + 1;
    } else {
      k := FirstLossShows(steps[..n]);
      assert steps[..n][..k] == steps[..k];
    }
  }

  /** Nothing is lost, at any moment of a schedule, if and only if no link is made behind a sentinel that is
      in its slot and not yet in the list. */
  lemma NothingLostExactly(steps: seq<Step>)
    ensures (forall k | 0 <= k <= |steps| :: Intact(Run(steps[..k]))) <==> LinksOnList(steps)
  {
    hide Inv, Intact, Run;
    if LinksOnList(steps) {
      forall k | 0 <= k <= |steps|
        ensures Intact(Run(steps[..k]))
      {
        GuardOfPrefix(steps, k);
        Invariant(steps[..k]);
        InvIsIntact(Run(steps[..k]));
      }
    } else {
      var k := FirstLossShows(steps);
    }
  }

  // ---------- what no step undoes ----------

  /** Nodes keep their content and, once linked, are never taken out; threads keep their errand and their
      answer. */
  ghost predicate Keeps(a: State, b: State) {
    && |a.cells| <= |b.cells| && |a.threads| <= |b.threads|
    && (forall i | 0 <= i < |a.cells| ::
          b.cells[i].key == a.cells[i].key && b.cells[i].hash == a.cells[i].hash
          && b.cells[i].owner == a.cells[i].owner && (a.cells[i].linked ==> b.cells[i].linked))
    && (forall t | 0 <= t < |a.threads| ::
          && b.threads[t].errand == a.threads[t].errand
          && (a.threads[t].pc.Done? ==> b.threads[t] == a.threads[t])
          && (a.threads[t].pc.Begin? && !a.threads[t].errand.Install? ==>
                b.threads[t].pc.Begin? || |a.cells| <= b.threads[t].born)
          && (!a.threads[t].pc.Begin? ==> !b.threads[t].pc.Begin? && b.threads[t].born == a.threads[t].born))
  }

  lemma StepKeeps(s: State, step: Step)
    requires Shape(s)
    ensures Keeps(s, Apply(s, step))
  {
    hide HashOf;
  }

  /** Nothing is lost later on. */
  lemma {:induction false} RunKeeps(steps: seq<Step>, more: seq<Step>)
    ensures Keeps(Run(steps), Run(steps + more))
  {
    hide Apply;
    if more == [] {
      assert steps + more == steps;
    } else {
      var n := |more| - 1;
      RunKeeps(steps, more[..n]);
      assert (steps + more)[..|steps + more| - 1] == steps + more[..n];
      StepKeeps(Run(steps + more[..n]), more[n]);
      KeepsTransitive(Run(steps), Run(steps + more[..n]), Run(steps + more));
    }
  }

  lemma KeepsTransitive(a: State, b: State, c: State)
    requires Keeps(a, b) && Keeps(b, c)
    ensures Keeps(a, c)
  {
  }

  // ---------- answers ----------

  /** Of the stores of a key that have answered, w alone got HT_GOOD; all hand out its node. */
  ghost predicate OnlyWinner(s: State, w: nat, key: Key, node: nat) {
    && w < |s.threads| && s.threads[w].errand == Insert(key)
    && forall u: nat | u < |s.threads| && s.threads[u].errand == Insert(key) && s.threads[u].pc.Done? ::
         s.threads[u].pc == Done(if u == w then Good else DuplicateKey, node)
  }

  /** Exactly one store of a key answers HT_GOOD; every other one that has answered says
      HT_DUPLICATE_KEY, hands out that store's node, and that store has answered too. */
  lemma OneWinnerPerKey(steps: seq<Step>, t: nat)
    requires LinksOnList(steps)
    requires var s := Run(steps); t < |s.threads| && s.threads[t].errand.Insert? && s.threads[t].pc.Done?
    ensures var s := Run(steps); var key := s.threads[t].errand.key; var node := s.threads[t].pc.node;
            && node < |s.cells| && s.cells[node].key == Some(key) && s.cells[node].linked
            && exists w: nat :: OnlyWinner(s, w, key, node) && s.threads[w].pc.Done?
  {
    hide HashOf, ListInv, UnlinkedInv, Closed;
    var s := Run(steps);
    Invariant(steps);
    var key, node := s.threads[t].errand.key, s.threads[t].pc.node;
    assert ThreadOk(s.cells, s.threads[t], t);
    var w := s.cells[node].owner;
    assert CellOk(s.cells[node], node, s.threads);
    forall u: nat | u < |s.threads| && s.threads[u].errand == Insert(key) && s.threads[u].pc.Done?
      ensures s.threads[u].pc == Done(if u == w then Good else DuplicateKey, node)
    {
      assert ThreadOk(s.cells, s.threads[u], u);
      var other := s.threads[u].pc.node;
      assert other == node;
    }
    assert OnlyWinner(s, w, key, node);
  }

  lemma NotYetOwned(steps: seq<Step>, t: nat, i: nat)
    requires LinksOnList(steps)
    requires var s := Run(steps);
             t < |s.threads| && s.threads[t].pc.Begin? && i < |s.cells| && s.cells[i].key.Some?
    ensures Run(steps).cells[i].owner != t
  {
    hide HashOf, ListInv, UnlinkedInv, Closed, NothingTwice, ThreadOk, Run;
    var s := Run(steps);
    Invariant(steps);
    assert CellOk(s.cells[i], i, s.threads);
  }

  /** A key that is in the list when a find or a store begins: the store hands out its node, whatever others
      link meanwhile, and so does the find, if and only if it has not stepped over the node. */
  lemma StoredIsFound(steps: seq<Step>, more: seq<Step>, t: nat, i: nat)
    requires LinksOnList(steps + more)
    requires var s := Run(steps);
             && t < |s.threads| && s.threads[t].pc.Begin? && !s.threads[t].errand.Install?
             && i < |s.cells| && s.cells[i].key == Some(s.threads[t].errand.key)
    requires var s := Run(steps + more); t < |s.threads| && s.threads[t].pc.Done?
    ensures var th := Run(steps + more).threads[t];
            && (th.errand.Insert? ==> th.pc == Done(DuplicateKey, i))
            && (th.errand.Lookup? ==> if th.missed then th.pc.status == NotFound else th.pc == Done(Good, i))
  {
    hide HashOf, ListInv, UnlinkedInv, Closed, Run;
    var s, s' := Run(steps), Run(steps + more);
    RunKeeps(steps, more);
    Invariant(steps + more);
    GuardOfPrefix(steps + more, |steps|);
    assert (steps + more)[..|steps|] == steps;
    NotYetOwned(steps, t, i);
    hide CellOk;
    assert s'.cells[i].key == s.cells[i].key;
    assert ThreadOk(s'.cells, s'.threads[t], t);
    var th := s'.threads[t];
    assert s'.cells[i].key == Some(th.errand.key);
    if th.errand.Insert? || !th.missed { assert th.pc.node == i; }
  }

  /** A find that has answered said HT_NOT_FOUND although a node of its key was there when it began, if and only
      if it has stepped over one. Otherwise HT_GOOD comes with a node of the key, and HT_NOT_FOUND means that the
      find began before any store of the key had linked its node. */
  lemma FindIsRight(steps: seq<Step>, t: nat)
    requires LinksOnList(steps)
    requires var s := Run(steps); t < |s.threads| && s.threads[t].errand.Lookup? && s.threads[t].pc.Done?
    ensures var s := Run(steps); var th := s.threads[t]; var key := th.errand.key;
            && (th.pc.status == Good || th.pc.status == NotFound)
            && (th.pc.status == Good ==> th.pc.node < |s.cells| && s.cells[th.pc.node].key == Some(key))
            && (th.missed <==> th.pc.status == NotFound && WasThere(s.cells, key, th.born))
  {
    hide HashOf, ListInv, UnlinkedInv, Closed, WasThere;
    Invariant(steps);
    var s := Run(steps);
    assert ThreadOk(s.cells, s.threads[t], t);
  }

  /** When that happens: at a load from a sentinel that line 287 has set and line 289 has not linked, in front of
      whose successor a node of the key has been linked, and at no other step. */
  lemma MissesAtAstraySentinel(steps: seq<Step>, step: Step, t: nat)
    requires LinksOnList(steps + [step])
    requires var s := Run(steps); t < |s.threads| && s.threads[t].errand.Lookup? && !s.threads[t].missed
    ensures var s := Run(steps); var th, pc := s.threads[t], s.threads[t].pc;
            Run(steps + [step]).threads[t].missed <==>
              && step.Act? && step.t == t && (pc.LoadFirst? || (pc.Walk? && s.cells[pc.n].hash < HashOf(th.errand.key)))
              && var a := if pc.LoadFirst? then pc.start else pc.n;
                 Astray(s.cells, a) && Skips(s.cells, th.errand.key, th.born, a)
  {
    var s := Run(steps);
    assert (steps + [step])[..|steps|] == steps;
    Invariant(steps);
    hide LinksOnList, Run;
    KeysAreLinked(s);
    if step.Act? && step.t == t {
      LoadMisses(s, t, step.start);
    } else {
      OthersMissNothing(s, step, t);
    }
  }

  lemma OthersMissNothing(s: State, step: Step, t: nat)
    requires Shape(s) && t < |s.threads| && !(step.Act? && step.t == t)
    ensures t < |Apply(s, step).threads| && Apply(s, step).threads[t] == s.threads[t]
  {
    hide HashOf;
  }

  lemma LoadMisses(s: State, t: nat, start: nat)
    requires Inv(s) && t < |s.threads| && s.threads[t].errand.Lookup? && !s.threads[t].missed
    ensures var th, pc := s.threads[t], s.threads[t].pc;
            ThreadStep(s, t, start).threads[t].missed <==>
              && (pc.LoadFirst? || (pc.Walk? && s.cells[pc.n].hash < HashOf(th.errand.key)))
              && var a := if pc.LoadFirst? then pc.start else pc.n;
                 Astray(s.cells, a) && Skips(s.cells, th.errand.key, th.born, a)
  {
    hide HashOf, ListInv, UnlinkedInv, NothingTwice, CellOk, Less, Skips, NoKeySkipped, Astray, MissedOk;
    var cs, th := s.cells, s.threads[t];
    var key, pc := th.errand.key, th.pc;
    assert ThreadOk(cs, th, t);
    KeysAreLinked(s);
    var a := if pc.LoadFirst? then pc.start else if pc.Walk? || pc.Match? then pc.n else HEAD;
    if cs[a].hash <= HashOf(key) {
      HashIsBelowEnd(cs, a);
      if Skips(cs, key, th.born, a) {
        OnlyAstraySkips(cs, key, a, th.born);
        if pc.Match? { MatchedIsLinked(cs, key, pc.p, a); }
      }
    }
  }

  lemma MatchedIsLinked(cs: seq<Cell>, key: Key, p: nat, n: nat)
    requires p < |cs| && n < |cs| && cs[n].next < |cs| && WalkOk(cs, key, p, n) && HashOf(key) <= cs[n].hash
    ensures !Astray(cs, n)
  {
    hide HashOf;
  }

  /** n steps of thread t in a row. */
  function Solo(s: State, t: nat, n: nat): (r: State)
    requires Shape(s) && t < |s.threads|
    ensures Shape(r) && |r.threads| == |s.threads|
    decreases n
  {
    if n == 0 then s else Solo(ThreadStep(s, t, 0), t, n - 1)
  }

  /** Such a find says HT_NOT_FOUND three steps later. */
  lemma StrayFindMisses(s: State, t: nat, x: nat)
    requires Inv(s) && t < |s.threads| && s.threads[t].errand.Lookup? && s.threads[t].pc.LoadFirst?
    requires Astray(s.cells, s.threads[t].pc.start)
    requires x < |s.cells| && s.cells[x].key == Some(s.threads[t].errand.key)
    requires Less(s.cells, x, s.cells[s.threads[t].pc.start].next)
    ensures Solo(s, t, 3).threads[t].pc.Done? && Solo(s, t, 3).threads[t].pc.status == NotFound
  {
    hide HashOf, ListInv, NothingTwice, CellOk, WalkOk;
    var cs, th := s.cells, s.threads[t];
    var op, n := th.pc.start, cs[th.pc.start].next;
    assert ThreadOk(cs, th, t);
    KeysAreLinked(s);
    StartIsBefore(cs, th.errand.key, op);
    assert HashOf(th.errand.key) < cs[n].hash;
    var s1 := ThreadStep(s, t, 0);
    assert s1.cells == cs && s1.threads[t].pc == Walk(op, op, n);
    var s2 := ThreadStep(s1, t, 0);
    assert s2.cells == cs && s2.threads[t].pc == Match(op, op, n);
    var s3 := ThreadStep(s2, t, 0);
    assert s3.threads[t].pc == Done(NotFound, n);
    SoloIsThree(s, t, s1, s2, s3);
  }

  lemma SoloIsThree(s: State, t: nat, s1: State, s2: State, s3: State)
    requires Shape(s) && t < |s.threads| && s1 == ThreadStep(s, t, 0)
    requires s2 == ThreadStep(s1, t, 0) && s3 == ThreadStep(s2, t, 0)
    ensures Solo(s, t, 3) == s3
  {
    hide ThreadStep;
    assert Solo(s2, t, 1) == Solo(s3, t, 0) == s3;
    assert Solo(s1, t, 2) == Solo(s2, t, 1);
  }
}
