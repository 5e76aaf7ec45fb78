/** What line 287 must not do, exactly: a node is cut off for good if and only if a splice overwrites what another
    thread has put behind its sentinel. */
module ConcurrentInsertLossTheorems {
  import opened Bytes
  import opened SplitOrder
  import opened HashTables
  import opened ConcurrentInsert
  import opened ConcurrentInsertProof
  import opened ConcurrentInsertTheorems
  import opened ConcurrentInsertLoss
  import opened ConcurrentInsertLossProof

  // ---------- the threads ----------

  /** A node's home stays, or becomes a lower one. */
  predicate HomeSinks(cs: seq<Cell>, h: int, ds: seq<Cell>, h': int) {
    h' == h || h' == HEAD || h' == LOST || (0 < h < |cs| && 0 < h' < |ds| && ds[h'].hash <= cs[h].hash)
  }

  lemma SinksKeepsBelow(cs: seq<Cell>, h: int, ds: seq<Cell>, h': int, hash: nat)
    requires |cs| <= |ds| && (forall i | 0 <= i < |cs| :: ds[i].hash == cs[i].hash)
    requires HomeSinks(cs, h, ds, h') && Below(cs, h, hash)
    ensures Below(ds, h', hash)
  {
  }

  /** What a thread's step leaves of the nodes and the history. */
  predicate Grows(cs: seq<Cell>, tr: Trace, ds: seq<Cell>, tr': Trace)
    requires |tr.home| == |tr.left| == |cs| && |tr'.home| == |tr'.left| == |ds|
  {
    && |cs| <= |ds|
    && (forall i | 0 <= i < |cs| ::
          ds[i].key == cs[i].key && ds[i].hash == cs[i].hash && ds[i].owner == cs[i].owner
          && (cs[i].linked ==> ds[i].linked))
    && (forall i | 0 <= i < |cs| :: HomeSinks(cs, tr.home[i], ds, tr'.home[i]))
  }

  /** And of a sentinel that another thread splices. */
  predicate Spares(cs: seq<Cell>, tr: Trace, ds: seq<Cell>, tr': Trace, own: nat)
    requires |tr.home| == |tr.left| == |cs| && |tr'.home| == |tr'.left| == |ds| && |cs| <= |ds| && own < |cs|
  {
    ds[own].linked == cs[own].linked && tr'.left[own] == tr.left[own] && (SetAhead(cs, own) ==> SetAhead(ds, own))
  }

  lemma GrowsKeepsClaim(cs: seq<Cell>, tr: Trace, ds: seq<Cell>, tr': Trace, th: Thread, t: nat)
    requires |tr.home| == |tr.left| == |cs| && |tr'.home| == |tr'.left| == |ds| && Grows(cs, tr, ds, tr')
    requires PcShape(th.errand, th.pc, |cs|) && ThreadClaim(cs, tr, th, t)
    requires forall own | 0 <= own < |cs| && Splices(th.pc, own) :: Spares(cs, tr, ds, tr', own)
    ensures ThreadClaim(ds, tr', th, t)
  {
    hide HashOf, Below, SetAhead, HomeSinks;
    var hash := HashFor(th.errand);
    match th.pc
    case SpliceLoad(own, p) => assert Splices(th.pc, own);
    case SpliceWalk(own, p, n) =>
      assert Splices(th.pc, own);
      SinksKeepsBelow(cs, tr.home[n], ds, tr'.home[n], hash);
    case SpliceSet(own, p, n) =>
      assert Splices(th.pc, own);
      SinksKeepsBelow(cs, tr.home[n], ds, tr'.home[n], hash);
    case SpliceSwap(own, p, n) => assert Splices(th.pc, own);
    case _ =>
  }

  lemma ClaimedIsMine(cs: seq<Cell>, tr: Trace, th: Thread, t: nat, own: nat)
    requires |tr.home| == |tr.left| == |cs| && PcShape(th.errand, th.pc, |cs|) && ThreadClaim(cs, tr, th, t)
    requires own < |cs| && Splices(th.pc, own)
    ensures cs[own].owner == t && !cs[own].linked && th.errand.Install?
  {
    hide HashOf;
  }

  ghost predicate OwnersOk(s: State) {
    forall i | 0 <= i < |s.cells| :: OwnerOk(s.cells[i], i, s.threads)
  }

  ghost predicate ClaimsOk(s: State, tr: Trace)
    requires Fits(s, tr)
  {
    forall t | 0 <= t < |s.threads| :: ThreadClaim(s.cells, tr, s.threads[t], t)
  }

  lemma LossInvIs(s: State, tr: Trace)
    ensures LossInv(s, tr) <==> Fits(s, tr) && NodesInv(s.cells, tr) && OwnersOk(s) && ClaimsOk(s, tr)
  {
    hide CellsInv, HomeInv, EdgeInv, PathInv, OwnerOk, ThreadClaim;
  }

  /** Thread t moves, and perhaps makes, sets or links nodes. */
  lemma ChangeKeeps(s: State, tr: Trace, t: nat, ds: seq<Cell>, tr': Trace, th: Thread)
    requires LossInv(s, tr) && t < |s.threads| && !s.threads[t].pc.Done? && th.errand == s.threads[t].errand
    requires Closed(ds) && |tr'.home| == |tr'.left| == |ds| && NodesInv(ds, tr') && Grows(s.cells, tr, ds, tr')
    requires PcShape(th.errand, th.pc, |ds|) && ThreadClaim(ds, tr', th, t)
    requires forall i | 0 <= i < |s.cells| && s.cells[i].owner != t ::
               ds[i].linked == s.cells[i].linked && (!ds[i].linked ==> Spares(s.cells, tr, ds, tr', i))
    requires forall i | 0 <= i < |ds| && ds[i].owner == t ::
               i == HEAD || i == END || OwnerOk(ds[i], i, s.threads[t := th])
    requires forall i | |s.cells| <= i < |ds| :: ds[i].owner == t
    ensures LossInv(s.(cells := ds, threads := s.threads[t := th]), tr')
  {
    var r := s.(cells := ds, threads := s.threads[t := th]);
    LossInvIs(s, tr);
    hide LossInv, NodesInv, Spares, ThreadClaim;
    var cs := s.cells;
    forall u | 0 <= u < |r.threads|
      ensures PcShape(r.threads[u].errand, r.threads[u].pc, |ds|) && ThreadClaim(ds, tr', r.threads[u], u)
    {
      if u != t {
        OtherKeeps(s, tr, t, ds, tr', u);
      }
    }
    assert Shape(r) && Fits(r, tr') && ClaimsOk(r, tr');
    forall i | 0 <= i < |ds|
      ensures OwnerOk(ds[i], i, r.threads)
    {
      if i < |cs| && ds[i].owner != t { assert OwnerOk(cs[i], i, s.threads); }
    }
    assert OwnersOk(r);
    LossInvIs(r, tr');
  }

  lemma PcShapeGrows(errand: Errand, pc: Pc, m: nat, n: nat)
    requires PcShape(errand, pc, m) && m <= n
    ensures PcShape(errand, pc, n)
  {
  }

  lemma OtherKeeps(s: State, tr: Trace, t: nat, ds: seq<Cell>, tr': Trace, u: nat)
    requires LossInv(s, tr) && u < |s.threads| && u != t && |tr'.home| == |tr'.left| == |ds|
    requires Grows(s.cells, tr, ds, tr')
    requires forall i | 0 <= i < |s.cells| && s.cells[i].owner != t ::
               ds[i].linked == s.cells[i].linked && (!ds[i].linked ==> Spares(s.cells, tr, ds, tr', i))
    ensures PcShape(s.threads[u].errand, s.threads[u].pc, |ds|) && ThreadClaim(ds, tr', s.threads[u], u)
  {
    hide CellsInv, HomeInv, EdgeInv, PathInv, OwnerOk, ThreadClaim, Spares;
    var cs, th := s.cells, s.threads[u];
    PcShapeGrows(th.errand, th.pc, |cs|, |ds|);
    forall own | 0 <= own < |cs| && Splices(th.pc, own)
      ensures Spares(cs, tr, ds, tr', own)
    {
      ClaimedIsMine(cs, tr, th, u, own);
    }
    GrowsKeepsClaim(cs, tr, ds, tr', th, u);
  }

  lemma OwnedByMover(s: State, tr: Trace, t: nat, i: nat)
    requires LossInv(s, tr) && t < |s.threads| && !s.threads[t].pc.Done? && i < |s.cells| && s.cells[i].owner == t
    ensures i == HEAD || i == END ||
            (!s.cells[i].linked && s.threads[t].errand == Install(s.cells[i].hash) && Splices(s.threads[t].pc, i))
  {
    hide CellsInv, HomeInv, EdgeInv, PathInv, ThreadClaim;
    assert OwnerOk(s.cells[i], i, s.threads);
  }

  /** A step that moves one thread and leaves the nodes alone. */
  lemma MoveKeeps(s: State, tr: Trace, t: nat, th: Thread)
    requires LossInv(s, tr) && t < |s.threads| && !s.threads[t].pc.Done? && th.errand == s.threads[t].errand
    requires PcShape(th.errand, th.pc, |s.cells|) && ThreadClaim(s.cells, tr, th, t)
    requires forall i :: Splices(s.threads[t].pc, i) ==> Splices(th.pc, i)
    ensures LossInv(s.(threads := s.threads[t := th]), tr)
  {
    LossInvIs(s, tr);
    hide LossInv, NodesInv, ThreadClaim;
    forall i | 0 <= i < |s.cells| && s.cells[i].owner == t
      ensures i == HEAD || i == END || OwnerOk(s.cells[i], i, s.threads[t := th])
    {
      OwnedByMover(s, tr, t, i);
    }
    ChangeKeeps(s, tr, t, s.cells, tr, th);
  }

  lemma NextOk(cs: seq<Cell>, p: nat, hash: nat)
    requires Closed(cs) && CellsInv(cs) && p < |cs| && cs[p].hash <= hash < LAST
    ensures var n := cs[p].next;
            (cs[n].linked || cs[n].hash < hash) && (cs[p].linked ==> cs[n].linked && cs[p].hash <= cs[n].hash)
  {
    assert CellAt(cs, p);
  }

  lemma NextBelow(cs: seq<Cell>, tr: Trace, p: nat, hash: nat)
    requires NodesInv(cs, tr) && p < |cs| && cs[p].hash < hash
    ensures Below(cs, tr.home[cs[p].next], hash)
  {
    hide CellsInv, PathInv;
    assert HomeAt(cs, tr, p) && EdgeAt(cs, tr, p);
    var h := tr.home[p];
    if h != HEAD && h != LOST { assert HomeAt(cs, tr, h); }
  }

  lemma KeyMove(s: State, tr: Trace, t: nat, key: Key)
    requires LossInv(s, tr) && t < |s.threads| && !s.threads[t].pc.Begin? && !s.threads[t].pc.Done?
    requires s.threads[t].errand == Insert(key) || s.threads[t].errand == Lookup(key)
    requires s.threads[t].pc.Swap? ==> s.cells[s.threads[t].pc.p].next != s.threads[t].pc.n
    ensures LossInv(KeyStep(s, t, key), tr)
  {
    hide HomeInv, EdgeInv, PathInv, OwnerOk, HashOf, CellsInv, Skips;
    var cs, th, r := s.cells, s.threads[t], KeyStep(s, t, key);
    assert ThreadClaim(cs, tr, th, t);
    KeyStepMovesOne(s, t, key);
    match th.pc
    case LoadFirst(op) => NextOk(cs, op, HashOf(key)); MoveKeeps(s, tr, t, r.threads[t]);
    case Walk(_, p, n) =>
      if HashOf(key) > cs[n].hash { NextOk(cs, n, HashOf(key)); }
      MoveKeeps(s, tr, t, r.threads[t]);
    case Match(_, p, n) =>
      if HashOf(key) == cs[n].hash { NextOk(cs, n, HashOf(key)); }
      MoveKeeps(s, tr, t, r.threads[t]);
    case Swap(_, _, _) => MoveKeeps(s, tr, t, r.threads[t]);
  }

  lemma SpliceMove(s: State, tr: Trace, t: nat)
    requires LossInv(s, tr) && t < |s.threads| && s.threads[t].errand.Install?
    requires var pc := s.threads[t].pc;
             pc.SpliceLoad? || pc.SpliceWalk? || (pc.SpliceSwap? && s.cells[pc.p].next != pc.n)
    ensures LossInv(SpliceStep(s, t), tr)
  {
    hide HomeInv, EdgeInv, PathInv, OwnerOk, HashOf, CellsInv, Below, SetAhead;
    var cs, th, r := s.cells, s.threads[t], SpliceStep(s, t);
    assert ThreadClaim(cs, tr, th, t);
    assert r == s.(threads := s.threads[t := r.threads[t]]);
    var a := if th.pc.SpliceWalk? then th.pc.n else th.pc.p;
    if cs[a].hash < th.errand.hash {
      NextOk(cs, a, th.errand.hash);
      NextBelow(cs, tr, a, th.errand.hash);
    }
    MoveKeeps(s, tr, t, r.threads[t]);
  }

  // ---------- the steps that change nodes ----------

  lemma SetGrows(cs: seq<Cell>, tr: Trace, own: nat, n: nat)
    requires |tr.home| == |tr.left| == |cs| && own < |cs|
    ensures Grows(cs, tr, Set(cs, own, n), SetTrace(tr, own, n))
    ensures forall i | 0 <= i < |cs| && i != own :: Spares(cs, tr, Set(cs, own, n), SetTrace(tr, own, n), i)
  {
  }

  lemma SetKeepsNodes(cs: seq<Cell>, tr: Trace, own: nat, n: nat)
    requires NodesInv(cs, tr) && own < |cs| && n < |cs| && !cs[own].linked && cs[n].linked
    requires Below(cs, tr.home[n], cs[own].hash)
    ensures NodesInv(Set(cs, own, n), SetTrace(tr, own, n))
  {
    SetKeepsCellsInv(cs, own, n);
    SetKeepsHomes(cs, tr, own, n);
    SetKeepsPaths(cs, tr, own, n);
    hide CellsInv, HomeInv, EdgeInv, PathInv, Set;
  }

  /** Line 287, whether or not somebody has changed `next` meanwhile. */
  lemma SetStep(s: State, tr: Trace, t: nat)
    requires LossInv(s, tr) && t < |s.threads| && s.threads[t].errand.Install? && s.threads[t].pc.SpliceSet?
    ensures LossInv(SpliceStep(s, t), SetTrace(tr, s.threads[t].pc.own, s.threads[t].pc.n))
  {
    LossInvIs(s, tr);
    hide LossInv, NodesInv, HashOf, Below, Set, Spares, Grows;
    var cs, th, r := s.cells, s.threads[t], SpliceStep(s, t);
    var own, n := th.pc.own, th.pc.n;
    assert ThreadClaim(cs, tr, th, t);
    var ds, tr' := Set(cs, own, n), SetTrace(tr, own, n);
    SetKeepsNodes(cs, tr, own, n);
    SetGrows(cs, tr, own, n);
    SetIs(cs, own, n);
    forall i | 0 <= i < |ds| && ds[i].owner == t
      ensures i == HEAD || i == END || OwnerOk(ds[i], i, s.threads[t := r.threads[t]])
    {
      OwnedByMover(s, tr, t, i);
    }
    ChangeKeeps(s, tr, t, ds, tr', r.threads[t]);
  }

  lemma SetIs(cs: seq<Cell>, own: nat, n: nat)
    requires own < |cs|
    ensures var ds := Set(cs, own, n);
            |ds| == |cs| && ds[own] == cs[own].(next := n) && forall i | 0 <= i < |cs| && i != own :: ds[i] == cs[i]
    ensures Set(cs, own, n) == cs[own := cs[own].(next := n)]
  {
  }

  lemma FillGrows(cs: seq<Cell>, tr: Trace, hash: nat, start: nat, t: nat)
    requires |tr.home| == |tr.left| == |cs|
    ensures var ds, tr' := Filled(cs, hash, start, t), FilledTrace(tr, |cs|, start);
            Grows(cs, tr, ds, tr') && forall i | 0 <= i < |cs| :: Spares(cs, tr, ds, tr', i)
  {
  }

  lemma FillKeepsNodes(cs: seq<Cell>, tr: Trace, hash: nat, start: nat, t: nat)
    requires NodesInv(cs, tr) && start < |cs| && cs[start].hash < hash < LAST && SlotEmpty(cs, hash)
    ensures NodesInv(Filled(cs, hash, start, t), FilledTrace(tr, |cs|, start))
  {
    FillKeepsCells(cs, hash, start, t);
    FillKeepsHomes(cs, tr, hash, start, t);
    FillKeepsPaths(cs, tr, hash, start, t);
    hide CellsInv, HomeInv, EdgeInv, PathInv;
  }

  /** Line 279: a new sentinel in its slot. */
  lemma FillStep(s: State, tr: Trace, t: nat, start: nat)
    requires LossInv(s, tr) && t < |s.threads| && s.threads[t].errand.Install? && s.threads[t].pc.Begin?
    requires start < |s.cells| && s.cells[start].key.None? && s.cells[start].hash < s.threads[t].errand.hash
    requires SlotEmpty(s.cells, s.threads[t].errand.hash)
    ensures LossInv(BeginStep(s, t, start), FilledTrace(tr, |s.cells|, start))
  {
    LossInvIs(s, tr);
    hide LossInv, NodesInv, HashOf, Below, Spares, Grows;
    var cs, th, r := s.cells, s.threads[t], BeginStep(s, t, start);
    assert ThreadClaim(cs, tr, th, t);
    var hash := th.errand.hash;
    var ds, tr' := Filled(cs, hash, start, t), FilledTrace(tr, |cs|, start);
    FillKeepsNodes(cs, tr, hash, start, t);
    FillGrows(cs, tr, hash, start, t);
    forall i | 0 <= i < |ds| && ds[i].owner == t
      ensures i == HEAD || i == END || OwnerOk(ds[i], i, s.threads[t := r.threads[t]])
    {
      if i < |cs| { OwnedByMover(s, tr, t, i); }
    }
    ChangeKeeps(s, tr, t, ds, tr', r.threads[t]);
  }

  lemma StoreGrows(cs: seq<Cell>, ds: seq<Cell>, tr: Trace, key: Key, p: nat, n: nat, t: nat)
    requires Closed(cs) && |tr.home| == |tr.left| == |cs| && CanStore(cs, key, p, n)
    requires IsStored(cs, ds, key, p, n, t) && Closed(ds)
    ensures Grows(cs, tr, ds, StoredTrace(tr, p, n))
    ensures forall i | 0 <= i < |cs| :: Spares(cs, tr, ds, StoredTrace(tr, p, n), i)
  {
    hide HashOf;
  }

  lemma StoreKeepsNodes(cs: seq<Cell>, tr: Trace, key: Key, p: nat, n: nat, t: nat)
    requires NodesInv(cs, tr) && CanStore(cs, key, p, n)
    ensures NodesInv(Stored(cs, key, p, n, t), StoredTrace(tr, p, n))
  {
    StoreKeepsCells(cs, key, p, n, t);
    StoreKeepsHomes(cs, tr, key, p, n, t);
    StoreKeepsPaths(cs, tr, key, p, n, t);
    hide CellsInv, HomeInv, EdgeInv, PathInv, Stored;
  }

  /** Line 402 succeeds, on the list or off it. */
  lemma StoreStep(s: State, tr: Trace, t: nat, key: Key)
    requires LossInv(s, tr) && t < |s.threads| && s.threads[t].errand == Insert(key) && s.threads[t].pc.Swap?
    requires s.cells[s.threads[t].pc.p].next == s.threads[t].pc.n
    ensures LossInv(KeyStep(s, t, key), StoredTrace(tr, s.threads[t].pc.p, s.threads[t].pc.n))
  {
    LossInvIs(s, tr);
    hide LossInv, NodesInv, HashOf, Below, Spares, Grows, Join;
    var cs, th, r := s.cells, s.threads[t], KeyStep(s, t, key);
    var p, n := th.pc.p, th.pc.n;
    assert ThreadClaim(cs, tr, th, t);
    var ds, tr' := Stored(cs, key, p, n, t), StoredTrace(tr, p, n);
    StoredIs(cs, key, p, n, t);
    StoreKeepsNodes(cs, tr, key, p, n, t);
    StoreGrows(cs, ds, tr, key, p, n, t);
    forall i | 0 <= i < |ds| && ds[i].owner == t
      ensures i == HEAD || i == END || OwnerOk(ds[i], i, s.threads[t := r.threads[t]])
    {
      if i < |cs| { OwnedByMover(s, tr, t, i); }
    }
    ChangeKeeps(s, tr, t, ds, tr', r.threads[t]);
  }

  lemma SpliceGrows(cs: seq<Cell>, ds: seq<Cell>, tr: Trace, p: nat, own: nat, n: nat)
    requires Closed(cs) && |tr.home| == |tr.left| == |cs| && CanSplice(cs, tr, p, own, n)
    requires IsJoined(cs, ds, p, own) && HomesOk(cs, tr, p, own)
    ensures Grows(cs, tr, ds, SpliceTrace(tr, p, own))
    ensures forall i | 0 <= i < |cs| && i != own :: Spares(cs, tr, ds, SpliceTrace(tr, p, own), i)
  {
  }

  lemma SpliceKeepsNodes(cs: seq<Cell>, tr: Trace, p: nat, own: nat, n: nat)
    requires NodesInv(cs, tr) && CanSplice(cs, tr, p, own, n)
    ensures NodesInv(Join(cs, p, own), SpliceTrace(tr, p, own))
  {
    SpliceKeepsCells(cs, tr, p, own, n);
    SpliceKeepsHomes(cs, tr, p, own, n);
    SpliceKeepsPaths(cs, tr, p, own, n);
    hide CellsInv, HomeInv, EdgeInv, PathInv, Join, SpliceTrace;
  }

  /** Line 289 succeeds, on the list or off it. */
  lemma SpliceStepKeeps(s: State, tr: Trace, t: nat)
    requires LossInv(s, tr) && t < |s.threads| && s.threads[t].errand.Install? && s.threads[t].pc.SpliceSwap?
    requires s.cells[s.threads[t].pc.p].next == s.threads[t].pc.n
    ensures LossInv(SpliceStep(s, t), SpliceTrace(tr, s.threads[t].pc.p, s.threads[t].pc.own))
  {
    LossInvIs(s, tr);
    hide LossInv, HashOf, Below, Spares, Grows, Join, CellsInv, HomeInv, EdgeInv, PathInv, SpliceTrace, HomesOk, Less;
    var cs, th, r := s.cells, s.threads[t], SpliceStep(s, t);
    var p, own, n := th.pc.p, th.pc.own, th.pc.n;
    assert ThreadClaim(cs, tr, th, t);
    var ds, tr' := Join(cs, p, own), SpliceTrace(tr, p, own);
    JoinIs(cs, p, own);
    SpliceKeepsNodes(cs, tr, p, own, n);
    var end := EndOfOwn(cs, tr, p, own, n);
    SpliceGrows(cs, ds, tr, p, own, n);
    hide NodesInv;
    forall i | 0 <= i < |ds| && ds[i].owner == t
      ensures i == HEAD || i == END || OwnerOk(ds[i], i, s.threads[t := r.threads[t]])
    {
      OwnedByMover(s, tr, t, i);
    }
    ChangeKeeps(s, tr, t, ds, tr', r.threads[t]);
  }

  // ---------- every step ----------

  lemma SpawnKeeps(s: State, tr: Trace, errand: Errand)
    requires LossInv(s, tr)
    ensures LossInv(Apply(s, Spawn(errand)), tr)
  {
    hide HashOf, CellsInv, HomeInv, EdgeInv, PathInv;
    var r := Apply(s, Spawn(errand));
    forall i | 0 <= i < |s.cells|
      ensures OwnerOk(r.cells[i], i, r.threads)
    {
      assert OwnerOk(s.cells[i], i, s.threads);
    }
    forall u | 0 <= u < |r.threads|
      ensures ThreadClaim(r.cells, tr, r.threads[u], u)
    {
      if u < |s.threads| { assert ThreadClaim(s.cells, tr, s.threads[u], u); }
    }
  }

  lemma BeginKeeps(s: State, tr: Trace, t: nat, start: nat)
    requires LossInv(s, tr) && t < |s.threads| && s.threads[t].pc.Begin?
    ensures LossInv(BeginStep(s, t, start), Traced(s, tr, Act(t, start)))
  {
    hide HashOf, CellsInv, HomeInv, EdgeInv, PathInv, OwnerOk, SlotEmpty, Apply;
    var cs, th, r := s.cells, s.threads[t], BeginStep(s, t, start);
    assert ThreadClaim(cs, tr, th, t);
    if r.cells != cs {
      FillStep(s, tr, t, start);
    } else if r != s {
      assert r == s.(threads := s.threads[t := r.threads[t]]);
      MoveKeeps(s, tr, t, r.threads[t]);
    }
  }

  lemma KeyStepKeeps(s: State, tr: Trace, t: nat, key: Key, start: nat)
    requires LossInv(s, tr) && t < |s.threads| && !s.threads[t].pc.Begin?
    requires s.threads[t].errand == Insert(key) || s.threads[t].errand == Lookup(key)
    ensures LossInv(KeyStep(s, t, key), Traced(s, tr, Act(t, start)))
  {
    var th := s.threads[t];
    assert ThreadClaim(s.cells, tr, th, t);
    hide LossInv, Apply, HashOf, Below, Join;
    if th.pc.Done? {
      assert KeyStep(s, t, key) == s;
    } else if th.pc.Swap? && s.cells[th.pc.p].next == th.pc.n {
      StoreStep(s, tr, t, key);
    } else {
      hide KeyStep;
      KeyMove(s, tr, t, key);
    }
  }

  lemma SpliceKeeps(s: State, tr: Trace, t: nat, start: nat)
    requires LossInv(s, tr) && t < |s.threads| && !s.threads[t].pc.Begin? && s.threads[t].errand.Install?
    ensures LossInv(SpliceStep(s, t), Traced(s, tr, Act(t, start)))
  {
    var th := s.threads[t];
    assert ThreadClaim(s.cells, tr, th, t);
    hide LossInv, Apply, HashOf, Below, Join, SpliceTrace, SetTrace, ThreadClaim;
    if th.pc.Done? {
      assert SpliceStep(s, t) == s;
    } else {
      hide SpliceStep;
      if th.pc.SpliceSet? {
        SetStep(s, tr, t);
      } else if th.pc.SpliceSwap? && s.cells[th.pc.p].next == th.pc.n {
        SpliceStepKeeps(s, tr, t);
      } else {
        SpliceMove(s, tr, t);
      }
    }
  }

  lemma StepKeepsLossInv(s: State, tr: Trace, step: Step)
    requires LossInv(s, tr)
    ensures LossInv(Apply(s, step), Traced(s, tr, step))
  {
    hide LossInv, KeyStep, SpliceStep, BeginStep;
    match step
    case Spawn(errand) => SpawnKeeps(s, tr, errand);
    case Act(t, start) =>
      if t < |s.threads| {
        if s.threads[t].pc.Begin? {
          BeginKeeps(s, tr, t, start);
        } else {
          match s.threads[t].errand
          case Insert(key) => KeyStepKeeps(s, tr, t, key, start);
          case Lookup(key) => KeyStepKeeps(s, tr, t, key, start);
          case Install(_) => SpliceKeeps(s, tr, t, start);
        }
      }
  }

  lemma InitLossInv()
    ensures LossInv(Init(), Trace([HEAD, HEAD], [END, END]))
  {
    var s, tr := Init(), Trace([HEAD, HEAD], [END, END]);
    assert |s.cells| == 2 && s.cells[0].linked && s.cells[1].linked;
    assert Precedes(s.cells, tr, HEAD, END);
  }

  /** Every schedule, whatever it links or overwrites. */
  lemma {:induction false} LossInvariant(steps: seq<Step>)
    ensures LossInv(Run(steps), TraceOf(steps))
  {
    hide LossInv, Apply, Traced;
    if steps == [] {
      InitLossInv();
    } else {
      LossInvariant(steps[..|steps| - 1]);
      StepKeepsLossInv(Run(steps[..|steps| - 1]), TraceOf(steps[..|steps| - 1]), steps[|steps| - 1]);
    }
  }

  // ---------- homes and ways ----------

  lemma {:induction false} NthNext(cs: seq<Cell>, a: nat, k: nat)
    requires Closed(cs) && a < |cs|
    ensures Nth(cs, a, k + 1) == cs[Nth(cs, a, k)].next
    decreases k
  {
    if k > 0 { NthNext(cs, cs[a].next, k - 1); }
  }

  lemma EdgeStaysHome(cs: seq<Cell>, tr: Trace, y: nat)
    requires Closed(cs) && |tr.home| == |tr.left| == |cs| && y < |cs| && EdgeAt(cs, tr, y)
    ensures var h, n := tr.home[y], cs[y].next;
            tr.home[n] == h || h == LOST || (HEAD != h && 0 <= h < |cs| && n == tr.left[h])
  {
  }

  /** From the head one meets only nodes at home there. */
  lemma {:induction false} HeadIsClosed(cs: seq<Cell>, tr: Trace, k: nat)
    requires NodesInv(cs, tr)
    ensures tr.home[Nth(cs, HEAD, k)] == HEAD
  {
    hide CellsInv, PathInv, HomeAt, EdgeAt;
    if k == 0 {
    } else {
      HeadIsClosed(cs, tr, k - 1);
      NthNext(cs, HEAD, k - 1);
      assert EdgeAt(cs, tr, Nth(cs, HEAD, k - 1));
      EdgeStaysHome(cs, tr, Nth(cs, HEAD, k - 1));
    }
  }

  lemma NthOfNone(cs: seq<Cell>, a: nat)
    requires Closed(cs) && a < |cs|
    ensures Nth(cs, a, 0) == a
  {
  }

  lemma UnlinkedAtHome(cs: seq<Cell>, tr: Trace, u: nat)
    requires NodesInv(cs, tr) && u < |cs| && !cs[u].linked
    ensures tr.home[u] == u != HEAD
  {
    HeadLinked(cs);
    assert HomeAt(cs, tr, u);
  }

  lemma SegmentGoesOn(cs: seq<Cell>, tr: Trace, u: nat, y: nat)
    requires NodesInv(cs, tr) && u < |cs| && !cs[u].linked && y < |cs| && tr.home[y] == u && cs[y].next != tr.left[u]
    ensures tr.home[cs[y].next] == u
  {
    hide CellsInv, PathInv, HomeInv, EdgeAt;
    UnlinkedAtHome(cs, tr, u);
    assert EdgeAt(cs, tr, y);
    EdgeStaysHome(cs, tr, y);
  }

  /** And from a sentinel that is not in the list, before what its thread left there. */
  lemma {:induction false} SegmentIsClosed(cs: seq<Cell>, tr: Trace, u: nat, k: nat)
    requires Closed(cs) && NodesInv(cs, tr) && u < |cs| && !cs[u].linked && |tr.left| == |tr.home| == |cs|
    requires forall j: nat | 0 < j <= k :: Nth(cs, u, j) != tr.left[u]
    ensures tr.home[Nth(cs, u, k)] == u
  {
    hide NodesInv, Nth, Closed;
    if k == 0 {
      NthOfNone(cs, u);
      UnlinkedAtHome(cs, tr, u);
    } else {
      SegmentIsClosed(cs, tr, u, k - 1);
      NthNext(cs, u, k - 1);
      SegmentGoesOn(cs, tr, u, Nth(cs, u, k - 1));
    }
  }

  /** The way to a node that is not lost. */
  ghost predicate Way(cs: seq<Cell>, tr: Trace, x: nat)
    requires Closed(cs) && |tr.home| == |tr.left| == |cs| && x < |cs|
  {
    if tr.home[x] == HEAD then OnList(cs, x)
    else 0 <= tr.home[x] < |cs| && !cs[tr.home[x]].linked && HangsBehind(cs, tr.left, tr.home[x], x)
  }

  lemma OneFurther(cs: seq<Cell>, left: seq<nat>, u: nat, y: nat, x: nat)
    requires Closed(cs) && |left| == |cs| && u < |cs| && y < |cs| && cs[y].next == x && x != left[u]
    requires y == u || HangsBehind(cs, left, u, y)
    ensures HangsBehind(cs, left, u, x)
  {
    if y == u {
      NthNext(cs, u, 0);
      assert Nth(cs, u, 1) == x;
    } else {
      var k: nat :| k > 0 && Nth(cs, u, k) == y && forall j: nat | 0 < j <= k :: Nth(cs, u, j) != left[u];
      NthNext(cs, u, k);
      assert Nth(cs, u, k + 1) == x;
    }
  }

  lemma {:induction false} NotLostHasWay(cs: seq<Cell>, tr: Trace, x: nat)
    requires NodesInv(cs, tr) && x < |cs| && cs[x].linked && tr.home[x] != LOST
    ensures Way(cs, tr, x)
    decreases NotAfter(cs, x)
  {
    HeadLinked(cs);
    hide CellsInv, EdgeInv, Less, HangsBehind;
    if x == HEAD {
      assert Nth(cs, HEAD, 0) == x;
    } else {
      var y: nat :| Precedes(cs, tr, y, x);
      PredIsLess(cs, y, x);
      assert HomeAt(cs, tr, x) && HomeAt(cs, tr, y);
      var h := tr.home[x];
      if cs[y].linked { NotLostHasWay(cs, tr, y); }
      if h == HEAD {
        var k: nat :| Nth(cs, HEAD, k) == y;
        NthNext(cs, HEAD, k);
        assert Nth(cs, HEAD, k + 1) == x;
      } else {
        assert HomeAt(cs, tr, h);
        HomeOfLeft(cs, tr, h);
        OneFurther(cs, tr.left, h, y, x);
      }
    }
  }

  /** A linked node is on its way if and only if it is not lost. */
  lemma OnItsWayExactly(cs: seq<Cell>, tr: Trace, x: nat)
    requires NodesInv(cs, tr) && x < |cs| && cs[x].linked
    ensures OnItsWay(cs, tr.left, x) <==> tr.home[x] != LOST
  {
    hide CellsInv, HomeInv, EdgeInv, PathInv;
    if tr.home[x] != LOST {
      NotLostHasWay(cs, tr, x);
      if tr.home[x] != HEAD { var u: nat := tr.home[x]; assert HangsBehind(cs, tr.left, u, x); }
    } else {
      if OnList(cs, x) {
        var k: nat :| Nth(cs, HEAD, k) == x;
        HeadIsClosed(cs, tr, k);
      }
      if u: nat :| u < |cs| && !cs[u].linked && HangsBehind(cs, tr.left, u, x) {
        var k: nat :| k > 0 && Nth(cs, u, k) == x && forall j: nat | 0 < j <= k :: Nth(cs, u, j) != tr.left[u];
        SegmentIsClosed(cs, tr, u, k);
      }
    }
  }

  // ---------- who is lost ----------

  lemma StepKeepsLost(s: State, tr: Trace, step: Step, x: nat)
    requires Fits(s, tr) && x < |tr.home| && tr.home[x] == LOST
    ensures x < |Traced(s, tr, step).home| && Traced(s, tr, step).home[x] == LOST
  {
  }

  lemma {:induction false} LostStays(steps: seq<Step>, more: seq<Step>, x: nat)
    requires x < |TraceOf(steps).home| && TraceOf(steps).home[x] == LOST
    ensures x < |TraceOf(steps + more).home| && TraceOf(steps + more).home[x] == LOST
  {
    hide Traced, Run;
    if more == [] {
      assert steps + more == steps;
    } else {
      var n := |more| - 1;
      LostStays(steps, more[..n], x);
      assert (steps + more)[..|steps + more| - 1] == steps + more[..n];
      StepKeepsLost(Run(steps + more[..n]), TraceOf(steps + more[..n]), more[n], x);
    }
  }

  predicate NoneLost(tr: Trace) { forall i | 0 <= i < |tr.home| :: tr.home[i] != LOST }

  lemma NotOverwrittenLosesNone(s: State, tr: Trace, step: Step)
    requires LossInv(s, tr) && NoneLost(tr) && !Overwrites(s, tr, step)
    ensures NoneLost(Traced(s, tr, step))
  {
    hide CellsInv, EdgeInv, PathInv, OwnerOk, Apply, ThreadClaim;
    if step.Act? && step.t < |s.threads| && s.threads[step.t].errand.Install? && s.threads[step.t].pc.SpliceSet? {
      var own := s.threads[step.t].pc.own;
      OwnIsUnlinked(s, tr, step.t);
      forall i | 0 <= i < |s.cells| && i != own
        ensures tr.home[i] != own
      {
        assert HomeAt(s.cells, tr, i);
        if s.cells[i].linked { NothingHangs(s.cells, tr, own, i); }
      }
    }
  }

  lemma OwnIsUnlinked(s: State, tr: Trace, t: nat)
    requires LossInv(s, tr) && t < |s.threads| && s.threads[t].errand.Install? && s.threads[t].pc.SpliceSet?
    ensures !s.cells[s.threads[t].pc.own].linked
  {
    hide CellsInv, HomeInv, EdgeInv, PathInv, OwnerOk;
    assert ThreadClaim(s.cells, tr, s.threads[t], t);
  }

  lemma OverwrittenIsLost(s: State, tr: Trace, step: Step)
    requires LossInv(s, tr) && Overwrites(s, tr, step)
    ensures !NoneLost(Traced(s, tr, step))
  {
    OwnIsUnlinked(s, tr, step.t);
    HeadLinked(s.cells);
    hide CellsInv, PathInv, OwnerOk, Apply, ThreadClaim;
    var own := s.threads[step.t].pc.own;
    var v := s.cells[own].next;
    assert HomeAt(s.cells, tr, own) && EdgeAt(s.cells, tr, own);
    assert Traced(s, tr, step).home[v] == LOST;
  }

  lemma {:induction false} NoneLostExactly(steps: seq<Step>)
    ensures NoneLost(TraceOf(steps)) <==> NothingOverwritten(steps)
  {
    hide LossInv, Apply, Traced, Overwrites;
    if steps == [] {
    } else {
      var before, last := steps[..|steps| - 1], steps[|steps| - 1];
      NoneLostExactly(before);
      LossInvariant(before);
      if NothingOverwritten(before) {
        if Overwrites(Run(before), TraceOf(before), last) {
          OverwrittenIsLost(Run(before), TraceOf(before), last);
        } else {
          NotOverwrittenLosesNone(Run(before), TraceOf(before), last);
        }
      } else {
        var x :| 0 <= x < |TraceOf(before).home| && TraceOf(before).home[x] == LOST;
        StepKeepsLost(Run(before), TraceOf(before), last, x);
      }
    }
  }

  lemma NoneCutOffIffNoneLost(s: State, tr: Trace)
    requires LossInv(s, tr)
    ensures NothingCutOff(s, tr) <==> NoneLost(tr)
  {
    LossInvIs(s, tr);
    hide LossInv, HashOf, CellsInv, EdgeInv, PathInv, OnItsWay;
    if NoneLost(tr) {
      forall t | 0 <= t < |s.threads| && !s.threads[t].errand.Lookup? && s.threads[t].pc.Done?
                 && s.threads[t].pc.status == Good
        ensures OnItsWay(s.cells, tr.left, s.threads[t].pc.node)
      {
        assert ThreadClaim(s.cells, tr, s.threads[t], t);
        OnItsWayExactly(s.cells, tr, s.threads[t].pc.node);
      }
    } else {
      var x :| 0 <= x < |tr.home| && tr.home[x] == LOST;
      assert HomeAt(s.cells, tr, x) && OwnerOk(s.cells[x], x, s.threads);
      OnItsWayExactly(s.cells, tr, x);
      var w := s.cells[x].owner;
      assert s.threads[w].pc == Done(Good, x);
    }
  }

  /** Nothing is cut off at the end of a schedule if and only if no splice in it has overwritten what another
      thread had put behind its sentinel. */
  lemma NothingCutOffExactly(steps: seq<Step>)
    ensures NothingCutOff(Run(steps), TraceOf(steps)) <==> NothingOverwritten(steps)
  {
    hide LossInv, NothingCutOff, NoneLost, NothingOverwritten, Run, TraceOf;
    LossInvariant(steps);
    NoneCutOffIffNoneLost(Run(steps), TraceOf(steps));
    NoneLostExactly(steps);
  }

  /** What is cut off stays cut off, whatever follows. */
  lemma CutOffStays(steps: seq<Step>, more: seq<Step>, x: nat)
    requires x < |Run(steps).cells| && Run(steps).cells[x].linked
    requires !OnItsWay(Run(steps).cells, TraceOf(steps).left, x)
    ensures x < |Run(steps + more).cells|
    ensures !OnItsWay(Run(steps + more).cells, TraceOf(steps + more).left, x)
  {
    hide Run, TraceOf, OnItsWay;
    LossInvariant(steps);
    LossInvariant(steps + more);
    LossInvIs(Run(steps), TraceOf(steps));
    LossInvIs(Run(steps + more), TraceOf(steps + more));
    hide LossInv, NodesInv;
    OnItsWayExactly(Run(steps).cells, TraceOf(steps), x);
    LostStays(steps, more, x);
    RunKeeps(steps, more);
    OnItsWayExactly(Run(steps + more).cells, TraceOf(steps + more), x);
  }

  /** When every sentinel has been linked, the list is whole if and only if no splice has overwritten anything,
      even if some have linked, or let others link, off the list. */
  lemma WholeInTheEndExactly(steps: seq<Step>)
    requires forall i | 0 <= i < |Run(steps).cells| :: Run(steps).cells[i].linked
    ensures Intact(Run(steps)) <==> NothingOverwritten(steps)
  {
    NothingCutOffExactly(steps);
    hide Run, TraceOf, NothingOverwritten, OnList, HangsBehind;
    assert forall x :: OnItsWay(Run(steps).cells, TraceOf(steps).left, x) <==> OnList(Run(steps).cells, x);
  }

  /** Who links on the list only overwrites nothing; the converse fails whenever a link off the list is taken along
      by line 289. */
  lemma OnListOverwritesNothing(steps: seq<Step>)
    requires LinksOnList(steps)
    ensures NothingOverwritten(steps)
  {
    hide Run, TraceOf, NothingOverwritten, OnList, HangsBehind, Inv;
    Invariant(steps);
    InvIsIntact(Run(steps));
    NothingCutOffExactly(steps);
  }
}
