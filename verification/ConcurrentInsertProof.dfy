/** As long as nobody links behind a sentinel that is in its slot and not yet in the list, every step keeps
    the list sorted and complete and what each walking thread may assume. */
module ConcurrentInsertProof {
  import opened Bytes
  import opened SplitOrder
  import opened HashTables
  import opened ConcurrentInsert

  // ---------- the order ----------

  lemma LessTransitive(cs: seq<Cell>, a: nat, b: nat, c: nat)
    requires a < |cs| && b < |cs| && c < |cs|
    ensures Less(cs, a, b) && Less(cs, b, c) ==> Less(cs, a, c)
    ensures a != b ==> Less(cs, a, b) || Less(cs, b, a)
    ensures !(Less(cs, a, b) && Less(cs, b, a))
  {
  }

  lemma LessByHash(cs: seq<Cell>, a: nat, b: nat)
    requires a < |cs| && b < |cs|
    ensures cs[a].hash < cs[b].hash ==> Less(cs, a, b)
    ensures Less(cs, a, b) ==> cs[a].hash <= cs[b].hash
  {
  }

  /** What other threads' steps leave of the nodes. */
  predicate Extends(cs: seq<Cell>, ds: seq<Cell>) {
    && |cs| <= |ds|
    && (forall i | 0 <= i < |cs| ::
          ds[i].key == cs[i].key && ds[i].hash == cs[i].hash && ds[i].owner == cs[i].owner
          && (cs[i].linked ==> ds[i].linked))
    && (forall i | |cs| <= i < |ds| && ds[i].key.Some? :: ds[i].hash == HashOf(ds[i].key.value))
  }

  lemma ExtendsKeepsLess(cs: seq<Cell>, ds: seq<Cell>, i: nat, j: nat)
    requires Extends(cs, ds) && i < |cs| && j < |cs|
    ensures Less(ds, i, j) <==> Less(cs, i, j)
  {
  }

  // ---------- facts about a state that keeps the invariant ----------

  predicate KeysOk(cs: seq<Cell>) {
    forall x | 0 <= x < |cs| && cs[x].key.Some? :: cs[x].linked && cs[x].hash == HashOf(cs[x].key.value)
  }

  lemma KeysAreLinked(s: State)
    requires Inv(s)
    ensures KeysOk(s.cells)
  {
    hide HashOf, ThreadOk, ListInv, UnlinkedInv, NothingTwice;
    forall x | 0 <= x < |s.cells| && s.cells[x].key.Some?
      ensures s.cells[x].linked && s.cells[x].hash == HashOf(s.cells[x].key.value)
    {
      assert CellOk(s.cells[x], x, s.threads);
    }
  }

  /** Whatever node a thread stands at, its `next` skips no key. */
  lemma NextSkipsNone(cs: seq<Cell>, a: nat)
    requires Closed(cs) && ListInv(cs) && UnlinkedInv(cs) && KeysOk(cs) && a < |cs| && a != END
    ensures NoKeySkipped(cs, a, cs[a].next)
  {
    hide HashOf, Less;
    if cs[a].linked {
      var n := cs[a].next;
      forall x | 0 <= x < |cs| && cs[x].key.Some? && Less(cs, a, x) && Less(cs, x, n)
        ensures false
      {
        LessTransitive(cs, x, n, x);
        LessTransitive(cs, x, x, x);
      }
    }
  }

  /** A load from a node before all nodes of the key. */
  lemma LoadIsOk(cs: seq<Cell>, key: Key, a: nat, born: nat)
    requires Closed(cs) && ListInv(cs) && UnlinkedInv(cs) && KeysOk(cs) && a < |cs|
    requires cs[a].hash <= HashOf(key) < LAST
    requires forall x | 0 <= x < |cs| && cs[x].key == Some(key) :: Less(cs, a, x)
    ensures WalkOk(cs, key, a, cs[a].next)
    ensures if Skips(cs, key, born, a) then HashOf(key) < cs[cs[a].next].hash && WasThere(cs, key, born)
            else NoneMissed(cs, key, born, cs[a].next)
  {
    hide HashOf, Less;
    NextSkipsNone(cs, a);
    var n := cs[a].next;
    if !Skips(cs, key, born, a) {
      forall x | 0 <= x < |cs| && x < born && cs[x].key == Some(key)
        ensures x == n || Less(cs, n, x)
      {
        LessTransitive(cs, n, x, n);
      }
    }
  }

  /** Only a sentinel that has been given its successor and is not in the list yet can be so. */
  lemma OnlyAstraySkips(cs: seq<Cell>, key: Key, a: nat, born: nat)
    requires Closed(cs) && ListInv(cs) && KeysOk(cs) && a < |cs| && a != END && Skips(cs, key, born, a)
    ensures Astray(cs, a)
  {
    hide HashOf, Less;
    var n := cs[a].next;
    var x :| 0 <= x < |cs| && x < born && cs[x].key == Some(key) && Less(cs, a, x) && Less(cs, x, n);
    LessByHash(cs, a, x);
    LessByHash(cs, x, n);
    LessTransitive(cs, n, x, n);
  }

  lemma StartIsBefore(cs: seq<Cell>, key: Key, op: nat)
    requires KeysOk(cs) && op < |cs| && StartOk(cs, key, op)
    ensures forall x | 0 <= x < |cs| && cs[x].key == Some(key) :: Less(cs, op, x)
  {
    hide HashOf;
  }

  /** Walking over a node that is not the key's. */
  lemma AdvanceIsBefore(cs: seq<Cell>, key: Key, p: nat, n: nat)
    requires KeysOk(cs) && p < |cs| && n < |cs| && WalkOk(cs, key, p, n)
    requires cs[n].hash <= HashOf(key) && cs[n].key != Some(key)
    ensures forall x | 0 <= x < |cs| && cs[x].key == Some(key) :: Less(cs, n, x)
  {
    hide HashOf, Less;
    forall x | 0 <= x < |cs| && cs[x].key == Some(key)
      ensures Less(cs, n, x)
    {
      LessTransitive(cs, n, x, n);
    }
  }

  // ---------- a key's thread ----------

  /** A step that moves one thread and leaves the nodes alone. */
  lemma MoveKeepsInv(s: State, t: nat, th: Thread)
    requires Inv(s) && t < |s.threads| && PcShape(th.errand, th.pc, |s.cells|) && ThreadOk(s.cells, th, t)
    requires th.errand == s.threads[t].errand && !s.threads[t].pc.Done?
    requires forall i :: Splices(s.threads[t].pc, i) ==> Splices(th.pc, i)
    ensures Inv(s.(threads := s.threads[t := th]))
  {
    hide ThreadOk, ListInv, UnlinkedInv, NothingTwice, HashOf;
    var s' := s.(threads := s.threads[t := th]);
    forall i | 0 <= i < |s.cells|
      ensures CellOk(s'.cells[i], i, s'.threads)
    {
      assert CellOk(s.cells[i], i, s.threads);
    }
  }

  predicate MovedOk(s: State, r: State, t: nat)
    requires Shape(r) && t < |r.threads|
  {
    r.cells == s.cells && ThreadOk(r.cells, r.threads[t], t)
  }

  lemma LoadKeepsThread(s: State, t: nat, key: Key)
    requires Inv(s) && t < |s.threads| && s.threads[t].pc.LoadFirst?
    requires s.threads[t].errand == Insert(key) || s.threads[t].errand == Lookup(key)
    ensures MovedOk(s, KeyStep(s, t, key), t)
  {
    hide HashOf, NothingTwice, ListInv, UnlinkedInv, CellOk, Less, WalkOk, Skips, NoneMissed, WasThere;
    var cs, th := s.cells, s.threads[t];
    assert ThreadOk(cs, th, t);
    KeysAreLinked(s);
    StartIsBefore(cs, key, th.pc.start);
    LoadIsOk(cs, key, th.pc.start, th.born);
  }

  lemma WalkKeepsThread(s: State, t: nat, key: Key)
    requires Inv(s) && t < |s.threads| && s.threads[t].pc.Walk?
    requires s.threads[t].errand == Insert(key) || s.threads[t].errand == Lookup(key)
    ensures MovedOk(s, KeyStep(s, t, key), t)
  {
    hide HashOf, NothingTwice, ListInv, UnlinkedInv, CellOk, Less, WalkOk, Skips, NoneMissed, WasThere;
    var cs, th := s.cells, s.threads[t];
    var p, n := th.pc.p, th.pc.n;
    assert ThreadOk(cs, th, t);
    if HashOf(key) > cs[n].hash {
      KeysAreLinked(s);
      AdvanceIsBefore(cs, key, p, n);
      LoadIsOk(cs, key, n, th.born);
    }
  }

  lemma MatchKeepsThread(s: State, t: nat, key: Key)
    requires Inv(s) && t < |s.threads| && s.threads[t].pc.Match?
    requires s.threads[t].errand == Insert(key) || s.threads[t].errand == Lookup(key)
    ensures MovedOk(s, KeyStep(s, t, key), t)
  {
    hide HashOf, NothingTwice, ListInv, UnlinkedInv, CellOk, Less, WalkOk, Skips, NoneMissed, WasThere;
    var cs, th := s.cells, s.threads[t];
    var p, n := th.pc.p, th.pc.n;
    assert ThreadOk(cs, th, t);
    KeysAreLinked(s);
    if cs[n].hash != HashOf(key) {
      if !th.missed { NoneOfTheKey(cs, key, th.born, n); }
    } else if cs[n].key != Some(key) {
      AdvanceIsBefore(cs, key, p, n);
      LoadIsOk(cs, key, n, th.born);
      LinkedNextIsAhead(cs, key, p, n);
    }
  }

  lemma NoneOfTheKey(cs: seq<Cell>, key: Key, born: nat, n: nat)
    requires KeysOk(cs) && n < |cs| && NoneMissed(cs, key, born, n) && HashOf(key) < cs[n].hash
    ensures !WasThere(cs, key, born)
  {
    hide HashOf;
  }

  /** While the hash matches, the nodes are linked and the hashes do not fall. */
  lemma LinkedNextIsAhead(cs: seq<Cell>, key: Key, p: nat, n: nat)
    requires Closed(cs) && ListInv(cs) && p < |cs| && n < |cs| && WalkOk(cs, key, p, n)
    requires cs[n].hash == HashOf(key) < LAST
    ensures cs[n].hash <= cs[cs[n].next].hash
  {
    hide HashOf;
  }

  lemma KeyStepKeepsThread(s: State, t: nat, key: Key)
    requires Inv(s) && t < |s.threads| && !s.threads[t].pc.Begin? && !s.threads[t].pc.Done?
    requires s.threads[t].errand == Insert(key) || s.threads[t].errand == Lookup(key)
    requires s.threads[t].pc.Swap? ==> s.cells[s.threads[t].pc.p].next != s.threads[t].pc.n
    ensures MovedOk(s, KeyStep(s, t, key), t)
  {
    hide HashOf, NothingTwice, CellOk, ListInv, UnlinkedInv, WalkOk, Skips, NoneMissed, WasThere;
    assert ThreadOk(s.cells, s.threads[t], t);
    match s.threads[t].pc
    case LoadFirst(_) => LoadKeepsThread(s, t, key);
    case Walk(_, _, _) => WalkKeepsThread(s, t, key);
    case Match(_, _, _) => MatchKeepsThread(s, t, key);
    case _ =>
  }

  /** Every step of a key's thread but a successful swap moves it along an unchanged list. */
  lemma KeyStepMovesOne(s: State, t: nat, key: Key)
    requires Shape(s) && t < |s.threads|
    requires s.threads[t].pc.Swap? ==> s.cells[s.threads[t].pc.p].next != s.threads[t].pc.n
    ensures var s' := KeyStep(s, t, key);
            && s' == s.(threads := s.threads[t := s'.threads[t]]) && s'.threads[t].errand == s.threads[t].errand
  {
    hide HashOf;
    var s' := KeyStep(s, t, key);
    assert s'.cells == s.cells;
    assert s.threads[t := s'.threads[t]] == s'.threads;
  }

  // ---------- the other threads ----------

  lemma ExtendsKeepsSkip(cs: seq<Cell>, ds: seq<Cell>, a: nat, b: nat)
    requires Extends(cs, ds) && a < |cs| && b < |cs| && NoKeySkipped(cs, a, b)
    ensures NoKeySkipped(ds, a, b)
  {
    hide HashOf;
    forall x | 0 <= x < |ds| && ds[x].key.Some? && Less(ds, a, x) && Less(ds, x, b)
      ensures ds[x].hash < ds[b].hash
    {
      if x < |cs| {
        ExtendsKeepsLess(cs, ds, a, x);
        ExtendsKeepsLess(cs, ds, x, b);
      }
    }
  }

  lemma ExtendsKeepsWalk(cs: seq<Cell>, ds: seq<Cell>, key: Key, p: nat, n: nat, born: nat)
    requires Extends(cs, ds) && p < |cs| && n < |cs| && WalkOk(cs, key, p, n) && born <= |cs|
    ensures WalkOk(ds, key, p, n)
    ensures NoneMissed(cs, key, born, n) ==> NoneMissed(ds, key, born, n)
  {
    hide HashOf;
    assert NoKeySkipped(ds, p, n) by { ExtendsKeepsSkip(cs, ds, p, n); }
    hide NoKeySkipped;
    forall x | 0 <= x < |ds| && ds[x].key == Some(key)
      ensures Less(ds, p, x)
    {
      if x < |cs| { ExtendsKeepsLess(cs, ds, p, x); }
    }
    if NoneMissed(cs, key, born, n) {
      forall x | 0 <= x < |ds| && x < born && ds[x].key == Some(key)
        ensures x == n || Less(ds, n, x)
      {
        ExtendsKeepsLess(cs, ds, n, x);
      }
    }
  }

  lemma ExtendsKeepsWasThere(cs: seq<Cell>, ds: seq<Cell>, key: Key, born: nat)
    requires Extends(cs, ds) && born <= |cs|
    ensures WasThere(ds, key, born) <==> WasThere(cs, key, born)
  {
    hide HashOf;
    if x :| 0 <= x < |ds| && x < born && ds[x].key == Some(key) { assert cs[x].key == Some(key); }
    if x :| 0 <= x < |cs| && x < born && cs[x].key == Some(key) { assert ds[x].key == Some(key); }
  }

  lemma ExtendsKeepsKeyThread(cs: seq<Cell>, ds: seq<Cell>, th: Thread, t: nat, key: Key)
    requires Extends(cs, ds) && PcShape(th.errand, th.pc, |cs|) && KeyThreadOk(cs, th, t, key) && th.born <= |cs|
    ensures KeyThreadOk(ds, th, t, key)
  {
    hide HashOf, WalkOk, Skips, NoneMissed, WasThere;
    ExtendsKeepsWasThere(cs, ds, key, th.born);
    match th.pc
    case Walk(_, p, n) => ExtendsKeepsWalk(cs, ds, key, p, n, th.born);
    case Match(_, p, n) => ExtendsKeepsWalk(cs, ds, key, p, n, th.born);
    case Swap(_, p, n) => ExtendsKeepsWalk(cs, ds, key, p, n, th.born);
    case _ =>
  }

  lemma ExtendsKeepsSplicer(cs: seq<Cell>, ds: seq<Cell>, th: Thread, t: nat, hash: nat)
    requires Extends(cs, ds) && PcShape(th.errand, th.pc, |cs|) && SpliceThreadOk(cs, th, t, hash)
    requires forall i | 0 <= i < |cs| && Splices(th.pc, i) :: ds[i] == cs[i]
    ensures SpliceThreadOk(ds, th, t, hash)
  {
    hide HashOf, NoKeySkipped;
    match th.pc
    case SpliceWalk(own, p, n) => assert Splices(th.pc, own); ExtendsKeepsSkip(cs, ds, p, n);
    case SpliceSet(own, p, n) => assert Splices(th.pc, own); ExtendsKeepsSkip(cs, ds, p, n);
    case SpliceSwap(own, p, n) => assert Splices(th.pc, own);
    case SpliceLoad(own, p) => assert Splices(th.pc, own);
    case _ =>
  }

  /** A thread keeps its claims when another makes, sets or links a node. */
  lemma ExtendsKeepsThread(cs: seq<Cell>, ds: seq<Cell>, th: Thread, t: nat)
    requires Extends(cs, ds) && PcShape(th.errand, th.pc, |cs|) && ThreadOk(cs, th, t)
    requires forall i | 0 <= i < |cs| && Splices(th.pc, i) :: ds[i] == cs[i]
    ensures ThreadOk(ds, th, t)
  {
    hide HashOf, KeyThreadOk, SpliceThreadOk;
    match th.errand
    case Insert(key) => ExtendsKeepsKeyThread(cs, ds, th, t, key);
    case Lookup(key) => ExtendsKeepsKeyThread(cs, ds, th, t, key);
    case Install(hash) => ExtendsKeepsSplicer(cs, ds, th, t, hash);
  }

  // ---------- the list ----------

  lemma JoinKeepsLess(cs: seq<Cell>, p: nat, i: nat, a: nat, b: nat)
    requires p < |cs| && i < |cs| && a < |cs| && b < |cs|
    ensures Less(Join(cs, p, i), a, b) <==> Less(cs, a, b)
  {
  }

  lemma JoinedIsBetween(cs: seq<Cell>, p: nat, i: nat, a: nat)
    requires Closed(cs) && ListInv(cs) && p < |cs| && p != END && cs[p].linked
    requires i < |cs| && !cs[i].linked && cs[i].next == cs[p].next && Less(cs, p, i) && Less(cs, i, cs[p].next)
    requires a < |cs| && Join(cs, p, i)[a].linked
    ensures var ds := Join(cs, p, i);
            && (a != END ==> Less(ds, a, END) && ds[a].next < |cs| && ds[ds[a].next].linked && Less(ds, a, ds[a].next))
            && (a != HEAD ==> Less(ds, HEAD, a))
  {
    hide Less;
    var ds := Join(cs, p, i);
    JoinKeepsLess(cs, p, i, a, END);
    JoinKeepsLess(cs, p, i, a, ds[a].next);
    JoinKeepsLess(cs, p, i, HEAD, a);
    LessTransitive(cs, i, cs[p].next, END);
    LessTransitive(cs, HEAD, p, i);
  }

  /** Linking a node between p and its successor keeps the list in order and complete. */
  lemma JoinKeepsList(cs: seq<Cell>, p: nat, i: nat)
    requires Closed(cs) && ListInv(cs) && p < |cs| && p != END && cs[p].linked
    requires i < |cs| && !cs[i].linked && cs[i].next == cs[p].next && Less(cs, p, i) && Less(cs, i, cs[p].next)
    ensures Closed(Join(cs, p, i)) && ListInv(Join(cs, p, i))
  {
    hide Less;
    var ds := Join(cs, p, i);
    forall a | 0 <= a < |ds| && ds[a].linked
      ensures a != END ==> Less(ds, a, END) && ds[ds[a].next].linked && Less(ds, a, ds[a].next)
      ensures a != HEAD ==> Less(ds, HEAD, a)
    {
      JoinedIsBetween(cs, p, i, a);
    }
    forall a, b | 0 <= a < |ds| && 0 <= b < |ds| && ds[a].linked && ds[b].linked && a != END && Less(ds, a, b)
      ensures b == ds[a].next || Less(ds, ds[a].next, b)
    {
      JoinKeepsLess(cs, p, i, a, b);
      JoinKeepsLess(cs, p, i, ds[a].next, b);
      JoinKeepsNext(cs, p, i, a, b);
    }
  }

  lemma JoinKeepsNext(cs: seq<Cell>, p: nat, i: nat, a: nat, b: nat)
    requires Closed(cs) && ListInv(cs) && p < |cs| && p != END && cs[p].linked
    requires i < |cs| && !cs[i].linked && cs[i].next == cs[p].next && Less(cs, p, i) && Less(cs, i, cs[p].next)
    requires var ds := Join(cs, p, i);
             a < |cs| && b < |cs| && ds[a].linked && ds[b].linked && a != END && Less(cs, a, b)
    ensures var ds := Join(cs, p, i); b == ds[a].next || Less(cs, ds[a].next, b)
  {
    hide Less;
    var q := cs[p].next;
    if a == p {
      LessTransitive(cs, i, q, b);
    } else if a == i {
      LessTransitive(cs, p, i, b);
      LessTransitive(cs, i, i, i);
    } else if b == i {
      LessTransitive(cs, a, p, a);
      LessTransitive(cs, i, q, a);
      LessTransitive(cs, i, a, i);
      LessTransitive(cs, cs[a].next, p, i);
    }
  }

  /** A node that is not in the list yet. */
  lemma AppendKeepsList(cs: seq<Cell>, c: Cell)
    requires Closed(cs) && ListInv(cs) && !c.linked && c.next < |cs|
    ensures Closed(cs + [c]) && ListInv(cs + [c])
  {
    hide Less;
    var ds := cs + [c];
    forall a | 0 <= a < |ds| && ds[a].linked && a != END
      ensures Less(ds, a, END) && ds[ds[a].next].linked && Less(ds, a, ds[a].next)
    {
      AppendKeepsLess(cs, c, a, END);
      AppendKeepsLess(cs, c, a, cs[a].next);
    }
    forall a | 0 <= a < |ds| && ds[a].linked && a != HEAD
      ensures Less(ds, HEAD, a)
    {
      AppendKeepsLess(cs, c, HEAD, a);
    }
    forall a, b | 0 <= a < |ds| && 0 <= b < |ds| && ds[a].linked && ds[b].linked && a != END && Less(ds, a, b)
      ensures b == ds[a].next || Less(ds, ds[a].next, b)
    {
      AppendKeepsLess(cs, c, a, b);
      AppendKeepsLess(cs, c, cs[a].next, b);
    }
  }

  lemma AppendKeepsLess(cs: seq<Cell>, c: Cell, a: nat, b: nat)
    requires a < |cs| && b < |cs|
    ensures Less(cs + [c], a, b) <==> Less(cs, a, b)
  {
  }

  // ---------- steps that make, set or link a node ----------

  lemma SplicedIsOwned(s: State, u: nat, i: nat)
    requires Inv(s) && u < |s.threads| && i < |s.cells| && Splices(s.threads[u].pc, i)
    ensures !s.cells[i].linked && s.cells[i].owner == u && s.cells[i].key.None?
  {
    hide HashOf, NothingTwice, CellOk, ListInv, UnlinkedInv, NoKeySkipped;
    assert ThreadOk(s.cells, s.threads[u], u);
  }

  /** Thread t changes the nodes to ds: apart from what it owns, only `next` fields of linked nodes. */
  lemma ChangeKeepsInv(s: State, ds: seq<Cell>, t: nat, th: Thread)
    requires Inv(s) && t < |s.threads| && th.errand == s.threads[t].errand && !s.threads[t].pc.Done?
    requires Extends(s.cells, ds) && Closed(ds) && ListInv(ds) && UnlinkedInv(ds) && NothingTwice(ds)
    requires PcShape(th.errand, th.pc, |ds|) && ThreadOk(ds, th, t)
    requires forall i | 0 <= i < |s.cells| && !s.cells[i].linked :: ds[i] == s.cells[i] || s.cells[i].owner == t
    requires forall i | |s.cells| <= i < |ds| :: ds[i].owner == t
    requires forall i | 0 <= i < |ds| && ds[i].owner == t :: CellOk(ds[i], i, s.threads[t := th])
    ensures Inv(State(ds, s.threads[t := th]))
  {
    hide HashOf, ThreadOk, ListInv, UnlinkedInv, NothingTwice;
    var ts := s.threads[t := th];
    forall i | 0 <= i < |ds|
      ensures CellOk(ds[i], i, ts)
    {
      if i < |s.cells| { assert CellOk(s.cells[i], i, s.threads); }
    }
    forall u | 0 <= u < |ts|
      ensures ThreadOk(ds, ts[u], u)
    {
      if u != t {
        forall i | 0 <= i < |s.cells| && Splices(ts[u].pc, i)
          ensures ds[i] == s.cells[i]
        {
          SplicedIsOwned(s, u, i);
        }
        ExtendsKeepsThread(s.cells, ds, ts[u], u);
      }
    }
  }

  /** Of a thread that has not finished, no key node and no sentinel but the one it splices. */
  lemma OwnsOnlyItsSplice(s: State, t: nat, i: nat)
    requires Inv(s) && t < |s.threads| && !s.threads[t].pc.Done? && i < |s.cells| && s.cells[i].owner == t
    ensures s.cells[i].key.None? && (!s.cells[i].linked ==> Splices(s.threads[t].pc, i))
  {
    hide HashOf, ThreadOk, ListInv, UnlinkedInv, NothingTwice;
    assert CellOk(s.cells[i], i, s.threads);
  }

  lemma ExtendsKeepsUnlinked(cs: seq<Cell>, ds: seq<Cell>)
    requires Closed(cs) && UnlinkedInv(cs) && Extends(cs, ds) && Closed(ds)
    requires forall i | 0 <= i < |cs| && !ds[i].linked :: ds[i].next == cs[i].next
    requires forall i | |cs| <= i < |ds| && !ds[i].linked ::
               ds[ds[i].next].hash < ds[i].hash && ds[ds[i].next].key.None?
    ensures UnlinkedInv(ds)
  {
    hide HashOf;
    forall i | 0 <= i < |ds| && !ds[i].linked
      ensures NoKeySkipped(ds, i, ds[i].next)
      ensures if ds[ds[i].next].hash < ds[i].hash then ds[ds[i].next].key.None? else ds[ds[i].next].linked
    {
      if i < |cs| {
        assert !cs[i].linked;
        ExtendsKeepsSkip(cs, ds, i, cs[i].next);
      }
    }
  }

  lemma FillKeepsInv(s: State, t: nat, start: nat)
    requires Inv(s) && t < |s.threads| && s.threads[t].pc.Begin? && s.threads[t].errand.Install?
    ensures Inv(BeginStep(s, t, start))
  {
    hide HashOf, ListInv, NothingTwice, UnlinkedInv, SlotEmpty, CellOk;
    var cs, th, s' := s.cells, s.threads[t], BeginStep(s, t, start);
    if s' != s {
      var hash := th.errand.hash;
      var c := Cell(None, hash, start, t, false);
      assert s'.cells == cs + [c];
      assert ThreadOk(cs, th, t);
      AppendKeepsList(cs, c);
      ExtendsKeepsUnlinked(cs, cs + [c]);
      assert NothingTwice(cs + [c]) by { SentinelIsNew(cs, c); }
      forall i | 0 <= i < |cs + [c]| && (cs + [c])[i].owner == t
        ensures CellOk((cs + [c])[i], i, s'.threads)
      {
        if i < |cs| { OwnsOnlyItsSplice(s, t, i); }
        OwnCellOk((cs + [c])[i], i, t, s'.threads);
      }
      ChangeKeepsInv(s, cs + [c], t, s'.threads[t]);
    }
  }

  lemma OwnCellOk(c: Cell, i: nat, t: nat, ts: seq<Thread>)
    requires t < |ts| && c.key.None? && c.owner == t
    requires !c.linked ==> ts[t].errand == Install(c.hash) && 0 < c.hash < LAST && Splices(ts[t].pc, i)
    ensures CellOk(c, i, ts)
  {
  }

  lemma SentinelIsNew(cs: seq<Cell>, c: Cell)
    requires NothingTwice(cs) && c.key.None? && SlotEmpty(cs, c.hash)
    ensures NothingTwice(cs + [c])
  {
  }

  lemma SetKeepsInv(s: State, t: nat)
    requires Inv(s) && t < |s.threads| && s.threads[t].errand.Install? && s.threads[t].pc.SpliceSet?
    ensures Inv(SpliceStep(s, t))
  {
    hide HashOf, ListInv, NothingTwice, UnlinkedInv, CellOk, NoKeySkipped;
    var cs, th, s' := s.cells, s.threads[t], SpliceStep(s, t);
    var own, p, n := th.pc.own, th.pc.p, th.pc.n;
    assert ThreadOk(cs, th, t);
    var ds := s'.cells;
    SetKeepsLists(cs, own, p, n);
    forall i | 0 <= i < |ds| && ds[i].owner == t
      ensures CellOk(ds[i], i, s'.threads)
    {
      OwnsOnlyItsSplice(s, t, i);
      if !cs[i].linked { OwnHash(s, t, i); }
      OwnCellOk(ds[i], i, t, s'.threads);
    }
    ChangeKeepsInv(s, ds, t, s'.threads[t]);
  }

  lemma OwnHash(s: State, t: nat, i: nat)
    requires Inv(s) && i < |s.cells| && t < |s.threads| && s.cells[i].owner == t && !s.cells[i].linked
    ensures 0 < s.cells[i].hash < LAST && s.threads[t].errand == Install(s.cells[i].hash)
  {
    hide HashOf, ListInv, NothingTwice, UnlinkedInv, ThreadOk;
    assert CellOk(s.cells[i], i, s.threads);
  }

  lemma SetKeepsLess(cs: seq<Cell>, own: nat, n: nat, a: nat, b: nat)
    requires own < |cs| && a < |cs| && b < |cs|
    ensures Less(cs[own := cs[own].(next := n)], a, b) <==> Less(cs, a, b)
  {
  }

  lemma SetKeepsSkip(cs: seq<Cell>, own: nat, n: nat, a: nat, b: nat)
    requires own < |cs| && a < |cs| && b < |cs| && NoKeySkipped(cs, a, b)
    ensures NoKeySkipped(cs[own := cs[own].(next := n)], a, b)
  {
    hide Less;
    var ds := cs[own := cs[own].(next := n)];
    forall x | 0 <= x < |ds| && ds[x].key.Some? && Less(ds, a, x) && Less(ds, x, b)
      ensures ds[x].hash < ds[b].hash
    {
      SetKeepsLess(cs, own, n, a, x);
      SetKeepsLess(cs, own, n, x, b);
    }
  }

  /** Giving a sentinel that is not linked its successor. */
  lemma SetKeepsLists(cs: seq<Cell>, own: nat, p: nat, n: nat)
    requires Closed(cs) && ListInv(cs) && UnlinkedInv(cs) && NothingTwice(cs)
    requires own < |cs| && p < |cs| && n < |cs| && !cs[own].linked && cs[n].linked
    requires cs[p].hash < cs[own].hash <= cs[n].hash && NoKeySkipped(cs, p, n)
    ensures var ds := cs[own := cs[own].(next := n)]; Closed(ds) && ListInv(ds) && UnlinkedInv(ds) && NothingTwice(ds)
  {
    SetKeepsNothingTwice(cs, own, n);
    SetKeepsUnlinked(cs, own, p, n);
    hide UnlinkedInv, NothingTwice, NoKeySkipped, ListInv;
    SetKeepsList(cs, own, n);
  }

  lemma SetKeepsNothingTwice(cs: seq<Cell>, own: nat, n: nat)
    requires own < |cs| && NothingTwice(cs)
    ensures NothingTwice(cs[own := cs[own].(next := n)])
  {
  }

  lemma SetKeepsUnlinked(cs: seq<Cell>, own: nat, p: nat, n: nat)
    requires Closed(cs) && UnlinkedInv(cs) && own < |cs| && p < |cs| && n < |cs| && cs[n].linked
    requires cs[p].hash < cs[own].hash <= cs[n].hash && NoKeySkipped(cs, p, n)
    ensures var ds := cs[own := cs[own].(next := n)]; Closed(ds) && UnlinkedInv(ds)
  {
    var ds := cs[own := cs[own].(next := n)];
    SkipFromHigher(cs, p, own, n);
    hide NoKeySkipped;
    forall i | 0 <= i < |ds| && !ds[i].linked
      ensures NoKeySkipped(ds, i, ds[i].next)
      ensures if ds[ds[i].next].hash < ds[i].hash then ds[ds[i].next].key.None? else ds[ds[i].next].linked
    {
      SetKeepsSkip(cs, own, n, i, ds[i].next);
    }
  }

  lemma SetKeepsList(cs: seq<Cell>, own: nat, n: nat)
    requires Closed(cs) && ListInv(cs) && own < |cs| && n < |cs| && !cs[own].linked
    ensures var ds := cs[own := cs[own].(next := n)]; Closed(ds) && ListInv(ds)
  {
    hide Less;
    var ds := cs[own := cs[own].(next := n)];
    forall a | 0 <= a < |ds| && ds[a].linked && a != END
      ensures Less(ds, a, END) && ds[ds[a].next].linked && Less(ds, a, ds[a].next)
    {
      SetKeepsLess(cs, own, n, a, END);
      SetKeepsLess(cs, own, n, a, cs[a].next);
    }
    forall a | 0 <= a < |ds| && ds[a].linked && a != HEAD
      ensures Less(ds, HEAD, a)
    {
      SetKeepsLess(cs, own, n, HEAD, a);
    }
    forall a, b | 0 <= a < |ds| && 0 <= b < |ds| && ds[a].linked && ds[b].linked && a != END && Less(ds, a, b)
      ensures b == ds[a].next || Less(ds, ds[a].next, b)
    {
      SetKeepsLess(cs, own, n, a, b);
      SetKeepsLess(cs, own, n, cs[a].next, b);
    }
  }

  lemma SkipFromHigher(cs: seq<Cell>, p: nat, a: nat, n: nat)
    requires p < |cs| && a < |cs| && n < |cs| && cs[p].hash < cs[a].hash && NoKeySkipped(cs, p, n)
    ensures NoKeySkipped(cs, a, n)
  {
    forall x | 0 <= x < |cs| && cs[x].key.Some? && Less(cs, a, x) && Less(cs, x, n)
      ensures cs[x].hash < cs[n].hash
    {
      assert Less(cs, p, x);
    }
  }

  lemma JoinExtends(cs: seq<Cell>, p: nat, i: nat)
    requires p < |cs| && i < |cs|
    ensures Extends(cs, Join(cs, p, i))
  {
  }

  lemma JoinKeepsOthers(cs: seq<Cell>, p: nat, i: nat)
    requires p < |cs| && i < |cs| && cs[p].linked
    requires Closed(cs) && UnlinkedInv(cs) && NothingTwice(cs)
    ensures Closed(Join(cs, p, i)) && UnlinkedInv(Join(cs, p, i)) && NothingTwice(Join(cs, p, i))
  {
    hide Less, NoKeySkipped, HashOf;
    JoinExtends(cs, p, i);
    assert NothingTwice(Join(cs, p, i)) by { hide UnlinkedInv; }
    hide NothingTwice;
    ExtendsKeepsUnlinked(cs, Join(cs, p, i));
  }

  /** The place of a sentinel: behind the smaller hashes, before its keys. */
  lemma SentinelIsBetween(cs: seq<Cell>, p: nat, own: nat, n: nat)
    requires NothingTwice(cs) && p < |cs| && own < |cs| && n < |cs| && own != n && cs[own].key.None?
    requires cs[p].hash < cs[own].hash <= cs[n].hash
    ensures Less(cs, p, own) && Less(cs, own, n)
  {
  }

  /** Line 289 succeeds behind a node of the list. */
  lemma SpliceKeepsInv(s: State, t: nat)
    requires Inv(s) && t < |s.threads| && s.threads[t].errand.Install? && s.threads[t].pc.SpliceSwap?
    requires var pc := s.threads[t].pc; s.cells[pc.p].next == pc.n && s.cells[pc.p].linked
    ensures Inv(SpliceStep(s, t))
  {
    hide HashOf, ListInv, NothingTwice, UnlinkedInv, CellOk, NoKeySkipped, Less;
    var cs, th, s' := s.cells, s.threads[t], SpliceStep(s, t);
    var own, p, n := th.pc.own, th.pc.p, th.pc.n;
    var ds := Join(cs, p, own);
    assert ThreadOk(cs, th, t);
    assert s'.cells == ds;
    HashIsBelowEnd(cs, p);
    NextIsLinked(cs, p);
    SentinelIsBetween(cs, p, own, n);
    JoinKeepsList(cs, p, own);
    JoinKeepsOthers(cs, p, own);
    JoinExtends(cs, p, own);
    forall i | 0 <= i < |ds| && ds[i].owner == t
      ensures CellOk(ds[i], i, s'.threads)
    {
      OwnsOnlyItsSplice(s, t, i);
      OwnCellOk(ds[i], i, t, s'.threads);
    }
    ChangeKeepsInv(s, ds, t, s'.threads[t]);
  }

  lemma HashIsBelowEnd(cs: seq<Cell>, p: nat)
    requires Closed(cs) && ListInv(cs) && p < |cs| && cs[p].hash < LAST
    ensures p != END
  {
  }

  lemma NextIsLinked(cs: seq<Cell>, p: nat)
    requires Closed(cs) && ListInv(cs) && p < |cs| && cs[p].linked && p != END
    ensures cs[cs[p].next].linked && Less(cs, p, cs[p].next)
  {
  }

  /** When the swap succeeds behind a node of the list, no node has the key: between p and its successor
      there is no room for one. */
  lemma SwapFindsNoKey(s: State, t: nat, key: Key, x: nat)
    requires Inv(s) && t < |s.threads| && s.threads[t].errand == Insert(key) && s.threads[t].pc.Swap?
    requires var pc := s.threads[t].pc; s.cells[pc.p].next == pc.n && s.cells[pc.p].linked
    requires x < |s.cells|
    ensures s.cells[x].key != Some(key)
  {
    hide HashOf, NothingTwice, UnlinkedInv, Less, CellOk, NoKeySkipped;
    var cs, th := s.cells, s.threads[t];
    assert ThreadOk(cs, th, t);
    KeysAreLinked(s);
    if cs[x].key == Some(key) {
      HashIsBelowEnd(cs, th.pc.p);
      assert Less(cs, th.pc.p, x);
      LessByHash(cs, th.pc.n, x);
    }
  }

  lemma KeyIsNew(cs: seq<Cell>, c: Cell)
    requires NothingTwice(cs) && c.key.Some? && forall x | 0 <= x < |cs| :: cs[x].key != c.key
    ensures NothingTwice(cs + [c])
  {
  }

  /** A new node for the key, not linked yet: it skips nothing and stands between p and n. */
  lemma MakeNode(s: State, t: nat, key: Key)
    requires Inv(s) && t < |s.threads| && s.threads[t].errand == Insert(key) && s.threads[t].pc.Swap?
    requires var pc := s.threads[t].pc; s.cells[pc.p].next == pc.n && s.cells[pc.p].linked
    ensures var pc := s.threads[t].pc;
            var made := s.cells + [Cell(Some(key), HashOf(key), pc.n, t, false)];
            && Closed(made) && ListInv(made) && NothingTwice(made) && Extends(s.cells, made)
            && Less(made, pc.p, |s.cells|) && Less(made, |s.cells|, pc.n) && pc.p != END
  {
    hide HashOf, ListInv, NothingTwice, UnlinkedInv, CellOk, NoKeySkipped, Closed;
    var cs, th := s.cells, s.threads[t];
    var c := Cell(Some(key), HashOf(key), th.pc.n, t, false);
    assert ThreadOk(cs, th, t);
    HashIsBelowEnd(cs, th.pc.p);
    AppendKeepsList(cs, c);
    forall x | 0 <= x < |cs|
      ensures cs[x].key != c.key
    {
      SwapFindsNoKey(s, t, key, x);
    }
    KeyIsNew(cs, c);
  }

  lemma SwapKeepsLists(s: State, t: nat, key: Key)
    requires Inv(s) && t < |s.threads| && s.threads[t].errand == Insert(key) && s.threads[t].pc.Swap?
    requires var pc := s.threads[t].pc; s.cells[pc.p].next == pc.n && s.cells[pc.p].linked
    ensures var pc := s.threads[t].pc;
            var ds := Join(s.cells + [Cell(Some(key), HashOf(key), pc.n, t, false)], pc.p, |s.cells|);
            && Closed(ds) && ListInv(ds) && UnlinkedInv(ds) && NothingTwice(ds) && Extends(s.cells, ds)
  {
    hide HashOf, ListInv, NothingTwice, UnlinkedInv, CellOk, NoKeySkipped, Less, ThreadOk;
    var cs, pc := s.cells, s.threads[t].pc;
    var made := cs + [Cell(Some(key), HashOf(key), pc.n, t, false)];
    MakeNode(s, t, key);
    JoinKeepsList(made, pc.p, |cs|);
    var ds := Join(made, pc.p, |cs|);
    assert NothingTwice(ds) by { JoinKeepsNothingTwice(made, pc.p, |cs|); }
    assert Extends(cs, ds);
    ExtendsKeepsUnlinked(cs, ds);
  }

  lemma JoinKeepsNothingTwice(cs: seq<Cell>, p: nat, i: nat)
    requires p < |cs| && i < |cs| && NothingTwice(cs)
    ensures NothingTwice(Join(cs, p, i))
  {
  }

  /** Line 402 succeeds behind a node of the list. */
  lemma SwapKeepsInv(s: State, t: nat, key: Key)
    requires Inv(s) && t < |s.threads| && s.threads[t].errand == Insert(key) && s.threads[t].pc.Swap?
    requires var pc := s.threads[t].pc; s.cells[pc.p].next == pc.n && s.cells[pc.p].linked
    ensures Inv(KeyStep(s, t, key))
  {
    hide HashOf, ListInv, NothingTwice, UnlinkedInv, NoKeySkipped, Less;
    var cs, th, s' := s.cells, s.threads[t], KeyStep(s, t, key);
    var ds := s'.cells;
    SwapKeepsLists(s, t, key);
    assert ThreadOk(cs, th, t);
    forall i | 0 <= i < |ds| && ds[i].owner == t
      ensures CellOk(ds[i], i, s'.threads)
    {
      if i < |cs| { OwnsOnlyItsSplice(s, t, i); }
    }
    hide CellOk;
    ChangeKeepsInv(s, ds, t, s'.threads[t]);
  }

  // ---------- every step ----------

  lemma SpawnKeepsInv(s: State, errand: Errand)
    requires Inv(s)
    ensures Inv(Apply(s, Spawn(errand)))
  {
    hide HashOf, ListInv, UnlinkedInv, NothingTwice, Closed;
    var s' := Apply(s, Spawn(errand));
    forall i | 0 <= i < |s.cells|
      ensures CellOk(s'.cells[i], i, s'.threads)
    {
      assert CellOk(s.cells[i], i, s.threads);
    }
    forall u | 0 <= u < |s'.threads|
      ensures ThreadOk(s'.cells, s'.threads[u], u)
    {
      if u < |s.threads| { assert ThreadOk(s.cells, s.threads[u], u); }
    }
  }

  lemma BeginKeepsInv(s: State, t: nat, start: nat)
    requires Inv(s) && t < |s.threads| && s.threads[t].pc.Begin?
    ensures Inv(BeginStep(s, t, start))
  {
    hide HashOf, ListInv, UnlinkedInv, NothingTwice, CellOk;
    if s.threads[t].errand.Install? {
      hide ThreadOk;
      FillKeepsInv(s, t, start);
    } else {
      var s' := BeginStep(s, t, start);
      assert ThreadOk(s.cells, s.threads[t], t);
      assert s' == s.(threads := s.threads[t := s'.threads[t]]);
      MoveKeepsInv(s, t, s'.threads[t]);
    }
  }

  lemma KeyStepKeepsInv(s: State, t: nat, key: Key)
    requires Inv(s) && t < |s.threads| && !s.threads[t].pc.Begin? && !s.threads[t].pc.Done?
    requires s.threads[t].errand == Insert(key) || s.threads[t].errand == Lookup(key)
    requires var pc := s.threads[t].pc; pc.Swap? && s.cells[pc.p].next == pc.n ==> s.cells[pc.p].linked
    ensures Inv(KeyStep(s, t, key))
  {
    hide HashOf, ListInv, UnlinkedInv, NothingTwice, CellOk;
    var pc := s.threads[t].pc;
    assert ThreadOk(s.cells, s.threads[t], t);
    hide KeyThreadOk;
    if pc.Swap? && s.cells[pc.p].next == pc.n {
      assert s.threads[t].errand.Insert? by { SwapIsInsert(s, t); }
      SwapKeepsInv(s, t, key);
    } else {
      KeyStepMovesOne(s, t, key);
      KeyStepKeepsThread(s, t, key);
      assert forall i :: !Splices(pc, i) by { KeySplicesNothing(s, t); }
      MoveKeepsInv(s, t, KeyStep(s, t, key).threads[t]);
    }
  }

  lemma SwapIsInsert(s: State, t: nat)
    requires Inv(s) && t < |s.threads| && s.threads[t].pc.Swap?
    ensures s.threads[t].errand.Insert?
  {
    hide HashOf, ListInv, UnlinkedInv, NothingTwice, CellOk, WalkOk;
    assert ThreadOk(s.cells, s.threads[t], t);
  }

  lemma KeySplicesNothing(s: State, t: nat)
    requires Inv(s) && t < |s.threads| && !s.threads[t].errand.Install?
    ensures forall i :: !Splices(s.threads[t].pc, i)
  {
    hide HashOf, ListInv, UnlinkedInv, NothingTwice, CellOk, WalkOk;
    assert ThreadOk(s.cells, s.threads[t], t);
  }

  /** A splicing thread moves along the list. */
  lemma SpliceMoveKeepsInv(s: State, t: nat)
    requires Inv(s) && t < |s.threads| && s.threads[t].errand.Install?
    requires var pc := s.threads[t].pc;
             pc.SpliceLoad? || pc.SpliceWalk? || (pc.SpliceSwap? && s.cells[pc.p].next != pc.n)
    ensures Inv(SpliceStep(s, t))
  {
    hide HashOf, ListInv, UnlinkedInv, NothingTwice, CellOk, NoKeySkipped, Less;
    var cs, th, s' := s.cells, s.threads[t], SpliceStep(s, t);
    assert ThreadOk(cs, th, t);
    assert s' == s.(threads := s.threads[t := s'.threads[t]]);
    var a := if th.pc.SpliceWalk? then th.pc.n else th.pc.p;
    if cs[a].hash < th.errand.hash {
      KeysAreLinked(s);
      HashIsBelowEnd(cs, a);
      NextSkipsNone(cs, a);
      NextIsLinkedOrLower(cs, a);
    }
    MoveKeepsInv(s, t, s'.threads[t]);
  }

  lemma NextIsLinkedOrLower(cs: seq<Cell>, a: nat)
    requires Closed(cs) && ListInv(cs) && UnlinkedInv(cs) && a < |cs| && a != END
    ensures cs[cs[a].next].linked || cs[cs[a].next].hash < cs[a].hash
  {
  }

  lemma StepKeepsInv(s: State, step: Step)
    requires Inv(s) && !LinksOffList(s, step)
    ensures Inv(Apply(s, step))
  {
    hide HashOf, ThreadOk, ListInv, UnlinkedInv, NothingTwice, Closed, CellOk, Inv, KeyStep, SpliceStep, BeginStep;
    match step
    case Spawn(errand) => SpawnKeepsInv(s, errand);
    case Act(t, start) =>
      if t < |s.threads| { ActKeepsInv(s, t, start); }
  }

  lemma ActKeepsInv(s: State, t: nat, start: nat)
    requires Inv(s) && t < |s.threads| && !LinksOffList(s, Act(t, start))
    ensures Inv(ThreadStep(s, t, start))
  {
    hide HashOf, ThreadOk, ListInv, UnlinkedInv, NothingTwice, Closed, CellOk;
    var th := s.threads[t];
    var pc := th.pc;
    if (pc.Swap? || pc.SpliceSwap?) && s.cells[pc.p].next == pc.n { assert LinksAt(s, Act(t, start), pc.p); }
    if pc.Begin? {
      BeginKeepsInv(s, t, start);
    } else if pc.Done? {
    } else {
      match th.errand
      case Insert(key) => hide KeyStep; KeyStepKeepsInv(s, t, key);
      case Lookup(key) => hide KeyStep; KeyStepKeepsInv(s, t, key);
      case Install(_) =>
        SplicerSplices(s, t);
        hide SpliceStep;
        if pc.SpliceSet? {
          SetKeepsInv(s, t);
        } else if pc.SpliceSwap? && s.cells[pc.p].next == pc.n {
          SpliceKeepsInv(s, t);
        } else {
          SpliceMoveKeepsInv(s, t);
        }
    }
  }

  lemma SplicerSplices(s: State, t: nat)
    requires Inv(s) && t < |s.threads| && s.threads[t].errand.Install?
    requires !s.threads[t].pc.Begin? && !s.threads[t].pc.Done?
    ensures Splices(s.threads[t].pc, s.threads[t].pc.own)
  {
    hide HashOf, ListInv, UnlinkedInv, NothingTwice, CellOk, NoKeySkipped;
    assert ThreadOk(s.cells, s.threads[t], t);
  }
}
