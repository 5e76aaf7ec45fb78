/** The retry loops of ht_store, ht_find and ht_get_sentinel end: from any reachable state, a thread that is
    no longer disturbed answers after finitely many of its own steps. */
module ConcurrentInsertProgress {
  import opened Bytes
  import opened SplitOrder
  import opened HashTables
  import opened ConcurrentInsert
  import opened ConcurrentInsertProof
  import opened ConcurrentInsertTheorems

  /** Whether the node the thread looks at is still the successor of the one it came from. */
  predicate Current(cs: seq<Cell>, errand: Errand, pc: Pc)
    requires PcShape(errand, pc, |cs|)
  {
    match pc
    case Walk(_, p, n) => cs[p].next == n
    case Match(_, p, n) => cs[p].next == n
    case Swap(_, p, n) => cs[p].next == n
    case SpliceWalk(_, p, n) => cs[p].next == n
    case SpliceSet(_, p, n) => cs[p].next == n
    case SpliceSwap(_, p, n) => cs[p].next == n
    case _ => true
  }

  function Phase(pc: Pc): nat {
    match pc
    case Begin => 4
    case LoadFirst(_) => 3
    case Walk(_, _, _) => 2
    case Match(_, _, _) => 1
    case SpliceLoad(_, _) => 3
    case SpliceWalk(_, _, _) => 2
    case SpliceSet(_, _, _) => 1
    case _ => 0
  }

  /** How far up the way still leads over sentinels that point at their parents. */
  function Climb(cs: seq<Cell>, a: nat): nat
    requires a < |cs|
  {
    if cs[a].linked then 0 else cs[a].hash + 1
  }

  /** The node the walk looks at. */
  function Ahead(cs: seq<Cell>, errand: Errand, pc: Pc): (n: nat)
    requires PcShape(errand, pc, |cs|) && |cs| > END
    ensures n < |cs|
  {
    match pc
    case Walk(_, _, n) => n
    case Match(_, _, n) => n
    case SpliceWalk(_, _, n) => n
    case _ => END
  }

  /** The step to `next` leads up to a parent, or on along the list. */
  ghost predicate Shorter(cs: seq<Cell>, b: nat, a: nat)
    requires a < |cs| && b < |cs|
  {
    Climb(cs, b) < Climb(cs, a) || (Climb(cs, b) == Climb(cs, a) && After(cs, b) < After(cs, a))
  }

  lemma NextIsShorter(cs: seq<Cell>, a: nat)
    requires Closed(cs) && ListInv(cs) && UnlinkedInv(cs) && a < |cs| && a != END
    ensures Shorter(cs, cs[a].next, a)
  {
    hide Less, NoKeySkipped;
    if cs[a].linked { NextIsCloser(cs, a); }
  }

  /** Thread t is nearer to its answer: a stale view is given up for a current one, then the phase or the
      way shrinks. */
  ghost predicate Nearer(s: State, s': State, t: nat)
    requires Shape(s) && Shape(s') && t < |s.threads| == |s'.threads|
  {
    var e, e', pc, pc' := s.threads[t].errand, s'.threads[t].errand, s.threads[t].pc, s'.threads[t].pc;
    || (!Current(s.cells, e, pc) && Current(s'.cells, e', pc'))
    || (Current(s.cells, e, pc) == Current(s'.cells, e', pc') && Phase(pc') < Phase(pc))
    || (Current(s.cells, e, pc) == Current(s'.cells, e', pc') && Phase(pc') == Phase(pc) && s'.cells == s.cells
        && Shorter(s.cells, Ahead(s.cells, e', pc'), Ahead(s.cells, e, pc)))
  }

  /** A link that succeeds is the thread's answer; every other step keeps the invariant. */
  lemma LinkAnswers(s: State, t: nat)
    requires Inv(s) && t < |s.threads| && !s.threads[t].pc.Begin? && !s.threads[t].pc.Done?
    ensures var s' := ThreadStep(s, t, 0); s'.threads[t].pc.Done? || Inv(s')
  {
    hide ThreadStep, LinksOffList, Shape, ThreadOk, CellOk, ListInv, UnlinkedInv, NothingTwice;
    if LinksOffList(s, Act(t, 0)) {
      OffListLinkAnswers(s, t);
    } else {
      StepKeepsInv(s, Act(t, 0));
    }
  }

  lemma OffListLinkAnswers(s: State, t: nat)
    requires Inv(s) && t < |s.threads| && !s.threads[t].pc.Begin? && LinksOffList(s, Act(t, 0))
    ensures ThreadStep(s, t, 0).threads[t].pc.Done?
  {
    hide HashOf, ListInv, UnlinkedInv, NothingTwice, CellOk, WalkOk, NoKeySkipped;
    assert ThreadOk(s.cells, s.threads[t], t);
  }

  lemma KeyStepGetsNearer(s: State, t: nat, key: Key)
    requires Inv(s) && t < |s.threads| && !s.threads[t].pc.Begin? && !s.threads[t].pc.Done?
    requires s.threads[t].errand == Insert(key) || s.threads[t].errand == Lookup(key)
    ensures var s' := KeyStep(s, t, key);
            !s'.threads[t].pc.Begin? && (s'.threads[t].pc.Done? || Nearer(s, s', t))
  {
    hide HashOf, ListInv, UnlinkedInv, NothingTwice, CellOk, WalkOk, NoKeySkipped, Less, Shorter;
    var cs, th := s.cells, s.threads[t];
    assert ThreadOk(cs, th, t);
    match th.pc
    case Walk(_, p, n) => if HashOf(key) > cs[n].hash { HashIsBelowEnd(cs, n); NextIsShorter(cs, n); }
    case Match(_, p, n) => if cs[n].hash == HashOf(key) { HashIsBelowEnd(cs, n); NextIsShorter(cs, n); }
    case _ =>
  }

  lemma SpliceStepGetsNearer(s: State, t: nat)
    requires Inv(s) && t < |s.threads| && s.threads[t].errand.Install?
    requires !s.threads[t].pc.Begin? && !s.threads[t].pc.Done?
    ensures var s' := SpliceStep(s, t);
            !s'.threads[t].pc.Begin? && (s'.threads[t].pc.Done? || Nearer(s, s', t))
  {
    hide HashOf, ListInv, UnlinkedInv, NothingTwice, CellOk, NoKeySkipped, Less, Shorter;
    var cs, th := s.cells, s.threads[t];
    assert ThreadOk(cs, th, t);
    match th.pc
    case SpliceWalk(_, p, n) => if cs[n].hash < th.errand.hash { HashIsBelowEnd(cs, n); NextIsShorter(cs, n); }
    case _ =>
  }

  /** Each of a thread's own steps answers, or brings it nearer. */
  lemma StepGetsNearer(s: State, t: nat)
    requires Inv(s) && t < |s.threads| && !s.threads[t].pc.Begin? && !s.threads[t].pc.Done?
    ensures var s' := ThreadStep(s, t, 0);
            && !s'.threads[t].pc.Begin?
            && (s'.threads[t].pc.Done? || (Inv(s') && Nearer(s, s', t)))
  {
    LinkAnswers(s, t);
    hide Inv, Nearer, KeyStep, SpliceStep;
    match s.threads[t].errand
    case Insert(key) => KeyStepGetsNearer(s, t, key);
    case Lookup(key) => KeyStepGetsNearer(s, t, key);
    case Install(_) => SpliceStepGetsNearer(s, t);
  }

  /** Termination: an undisturbed store, find or splice answers. */
  lemma {:induction false} UndisturbedThreadAnswers(s: State, t: nat) returns (n: nat)
    requires Shape(s) && t < |s.threads| && !s.threads[t].pc.Begin? && (s.threads[t].pc.Done? || Inv(s))
    ensures Solo(s, t, n).threads[t].pc.Done?
    decreases !s.threads[t].pc.Done?, !Current(s.cells, s.threads[t].errand, s.threads[t].pc),
              Phase(s.threads[t].pc), Climb(s.cells, Ahead(s.cells, s.threads[t].errand, s.threads[t].pc)),
              After(s.cells, Ahead(s.cells, s.threads[t].errand, s.threads[t].pc))
  {
    hide Inv, ThreadStep, Current, Ahead, Phase, Climb, After;
    if s.threads[t].pc.Done? {
      return 0;
    }
    StepGetsNearer(s, t);
    n := UndisturbedThreadAnswers(ThreadStep(s, t, 0), t);
    n := n + 1;
  }
}
