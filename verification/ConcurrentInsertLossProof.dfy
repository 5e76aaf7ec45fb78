/** Every step that overwrites nothing keeps each linked node on its way into the list. */
module ConcurrentInsertLossProof {
  import opened Bytes
  import opened SplitOrder
  import opened HashTables
  import opened ConcurrentInsert
  import opened ConcurrentInsertProof
  import opened ConcurrentInsertTheorems
  import opened ConcurrentInsertLoss

  /** What the lists, homes and segments have to satisfy. */
  ghost predicate NodesInv(cs: seq<Cell>, tr: Trace) {
    && Closed(cs) && |tr.home| == |tr.left| == |cs|
    && CellsInv(cs) && HomeInv(cs, tr) && EdgeInv(cs, tr) && PathInv(cs, tr)
  }

  // ---------- making a sentinel ----------

  function Filled(cs: seq<Cell>, hash: nat, start: nat, t: nat): seq<Cell> {
    cs + [Cell(None, hash, start, t, false)]
  }

  function FilledTrace(tr: Trace, n: nat, start: nat): Trace { Trace(tr.home + [n], tr.left + [start]) }

  lemma AppendedCellAt(cs: seq<Cell>, c: Cell, i: nat)
    requires Closed(cs) && Closed(cs + [c]) && i < |cs| && CellAt(cs, i)
    ensures CellAt(cs + [c], i)
  {
  }

  lemma NewCellAt(cs: seq<Cell>, c: Cell)
    requires Closed(cs) && !c.linked && c.key.None? && c.next < |cs| && cs[c.next].hash < c.hash < LAST
    ensures CellAt(cs + [c], |cs|)
  {
  }

  lemma FillKeepsCells(cs: seq<Cell>, hash: nat, start: nat, t: nat)
    requires Closed(cs) && CellsInv(cs) && start < |cs| && cs[start].hash < hash < LAST && SlotEmpty(cs, hash)
    ensures Closed(Filled(cs, hash, start, t)) && CellsInv(Filled(cs, hash, start, t))
  {
    hide CellAt;
    var ds := Filled(cs, hash, start, t);
    forall i | 0 <= i < |ds|
      ensures CellAt(ds, i)
    {
      if i < |cs| { assert CellAt(cs, i); AppendedCellAt(cs, ds[|cs|], i); } else { NewCellAt(cs, ds[|cs|]); }
    }
  }

  lemma FilledOldAt(cs: seq<Cell>, tr: Trace, ds: seq<Cell>, tr': Trace, i: nat)
    requires Closed(cs) && Closed(ds) && |tr.home| == |tr.left| == |cs| && |tr'.home| == |tr'.left| == |ds|
    requires cs <= ds && tr.home <= tr'.home && tr.left <= tr'.left && i < |cs|
    requires HomeAt(cs, tr, i) && EdgeAt(cs, tr, i)
    ensures HomeAt(ds, tr', i) && EdgeAt(ds, tr', i)
  {
    assert forall a | 0 <= a < |cs| :: ds[a] == cs[a] && tr'.home[a] == tr.home[a] && tr'.left[a] == tr.left[a];
  }

  lemma FilledNewAt(cs: seq<Cell>, tr: Trace, hash: nat, start: nat, t: nat)
    requires Closed(cs) && |tr.home| == |tr.left| == |cs| && start < |cs| && HomeAt(cs, tr, start)
    requires cs[start].hash < hash
    ensures var ds, tr' := Filled(cs, hash, start, t), FilledTrace(tr, |cs|, start);
            Closed(ds) && HomeAt(ds, tr', |cs|) && EdgeAt(ds, tr', |cs|)
  {
  }

  lemma FillKeepsHomes(cs: seq<Cell>, tr: Trace, hash: nat, start: nat, t: nat)
    requires NodesInv(cs, tr) && start < |cs| && cs[start].hash < hash
    ensures var ds, tr' := Filled(cs, hash, start, t), FilledTrace(tr, |cs|, start);
            Closed(ds) && HomeInv(ds, tr') && EdgeInv(ds, tr')
  {
    hide CellsInv, PathInv, HomeAt, EdgeAt;
    var ds, tr' := Filled(cs, hash, start, t), FilledTrace(tr, |cs|, start);
    forall i | 0 <= i < |ds|
      ensures HomeAt(ds, tr', i) && EdgeAt(ds, tr', i)
    {
      if i < |cs| {
        assert HomeAt(cs, tr, i) && EdgeAt(cs, tr, i);
        FilledOldAt(cs, tr, ds, tr', i);
      } else {
        assert HomeAt(cs, tr, start);
        FilledNewAt(cs, tr, hash, start, t);
      }
    }
  }

  lemma FillKeepsPaths(cs: seq<Cell>, tr: Trace, hash: nat, start: nat, t: nat)
    requires NodesInv(cs, tr) && start < |cs|
    ensures var ds, tr' := Filled(cs, hash, start, t), FilledTrace(tr, |cs|, start); Closed(ds) && PathInv(ds, tr')
  {
    hide CellsInv, HomeInv, EdgeInv;
    var ds, tr' := Filled(cs, hash, start, t), FilledTrace(tr, |cs|, start);
    forall x | 0 <= x < |ds| && ds[x].linked && x != HEAD && tr'.home[x] != LOST
      ensures exists y: nat :: Precedes(ds, tr', y, x)
    {
      var y: nat :| Precedes(cs, tr, y, x);
      assert Precedes(ds, tr', y, x);
    }
    forall u | 0 <= u < |ds| && !ds[u].linked
      ensures exists z: nat :: EndsSegment(ds, tr', z, u)
    {
      if u < |cs| {
        var z: nat :| EndsSegment(cs, tr, z, u);
        assert EndsSegment(ds, tr', z, u);
      } else {
        assert EndsSegment(ds, tr', u, u);
      }
    }
  }

  // ---------- setting its successor, with nothing behind it ----------

  ghost function NotAfter(cs: seq<Cell>, x: nat): set<nat>
    requires x < |cs|
  {
    set i: nat | i < |cs| && Less(cs, i, x)
  }

  lemma PredIsLess(cs: seq<Cell>, y: nat, x: nat)
    requires x < |cs| && y < |cs| && Less(cs, y, x)
    ensures NotAfter(cs, y) < NotAfter(cs, x)
  {
    hide Less;
    LessTransitive(cs, y, y, y);
    assert y in NotAfter(cs, x);
    forall i | i in NotAfter(cs, y)
      ensures i in NotAfter(cs, x)
    {
      LessTransitive(cs, i, y, x);
    }
  }

  lemma HomeOfLeft(cs: seq<Cell>, tr: Trace, u: nat)
    requires |tr.home| == |tr.left| == |cs| && u < |cs| && !cs[u].linked && HomeAt(cs, tr, u)
    requires |cs| > 0 && cs[HEAD].linked
    ensures tr.left[u] < |cs| && tr.home[tr.left[u]] != u
  {
  }

  lemma HeadLinked(cs: seq<Cell>)
    requires Closed(cs) && CellsInv(cs)
    ensures cs[HEAD].linked
  {
  }

  lemma UnlinkedIsHome(cs: seq<Cell>, tr: Trace, u: nat)
    requires |tr.home| == |tr.left| == |cs| && u < |cs| && !cs[u].linked && HomeAt(cs, tr, u)
    ensures tr.home[u] == u
  {
  }

  lemma PredAtHome(cs: seq<Cell>, tr: Trace, u: nat, y: nat, x: nat)
    requires Closed(cs) && |tr.home| == |tr.left| == |cs| && u < |cs| && x < |cs| && cs[HEAD].linked
    requires !cs[u].linked && HomeAt(cs, tr, u) && Precedes(cs, tr, y, x) && tr.home[x] == u && HomeAt(cs, tr, y)
    requires cs[u].next == tr.left[u]
    ensures cs[y].linked && tr.home[y] == u
  {
    hide Less;
    HomeOfLeft(cs, tr, u);
  }

  /** When u's `next` is as its thread left it, nothing hangs behind u. */
  lemma {:induction false} NothingHangs(cs: seq<Cell>, tr: Trace, u: nat, x: nat)
    requires NodesInv(cs, tr) && u < |cs| && !cs[u].linked && cs[u].next == tr.left[u]
    requires x < |cs| && cs[x].linked
    ensures tr.home[x] != u
    decreases NotAfter(cs, x)
  {
    HeadLinked(cs);
    hide CellsInv, EdgeInv, Less, HomeAt;
    if tr.home[x] == u {
      assert HomeAt(cs, tr, u);
      var y: nat :| Precedes(cs, tr, y, x);
      assert HomeAt(cs, tr, y);
      PredIsLess(cs, y, x);
      PredAtHome(cs, tr, u, y, x);
      NothingHangs(cs, tr, u, y);
    }
  }

  function Set(cs: seq<Cell>, own: nat, n: nat): seq<Cell>
    requires own < |cs|
  {
    cs[own := cs[own].(next := n)]
  }

  lemma SetCellAt(cs: seq<Cell>, own: nat, n: nat, i: nat)
    requires Closed(cs) && own < |cs| && n < |cs| && !cs[own].linked && cs[n].linked && i < |cs| && CellAt(cs, i)
    ensures Closed(Set(cs, own, n)) && CellAt(Set(cs, own, n), i)
  {
  }

  lemma SetKeepsCellsInv(cs: seq<Cell>, own: nat, n: nat)
    requires Closed(cs) && CellsInv(cs) && own < |cs| && n < |cs| && !cs[own].linked && cs[n].linked
    ensures Closed(Set(cs, own, n)) && CellsInv(Set(cs, own, n))
  {
    hide CellAt;
    var ds := Set(cs, own, n);
    forall i | 0 <= i < |ds|
      ensures CellAt(ds, i)
    {
      assert CellAt(cs, i) && CellAt(cs, own);
      SetCellAt(cs, own, n, i);
    }
  }

  lemma SetHomeAt(cs: seq<Cell>, tr: Trace, own: nat, n: nat, i: nat)
    requires Closed(cs) && |tr.home| == |tr.left| == |cs| && own < |cs| && n < |cs| && i < |cs|
    requires !cs[own].linked && own != HEAD
    requires HomeAt(cs, tr, i) && EdgeAt(cs, tr, i) && HomeAt(cs, tr, own) && Below(cs, tr.home[n], cs[own].hash)
    ensures var ds, tr' := Set(cs, own, n), SetTrace(tr, own, n);
            Closed(ds) && HomeAt(ds, tr', i) && EdgeAt(ds, tr', i)
  {
  }

  lemma SetKeepsHomes(cs: seq<Cell>, tr: Trace, own: nat, n: nat)
    requires NodesInv(cs, tr) && own < |cs| && n < |cs| && !cs[own].linked
    requires Below(cs, tr.home[n], cs[own].hash)
    ensures var ds, tr' := Set(cs, own, n), SetTrace(tr, own, n);
            Closed(ds) && HomeInv(ds, tr') && EdgeInv(ds, tr')
  {
    HeadLinked(cs);
    hide CellsInv, PathInv, HomeAt, EdgeAt, Below;
    var ds, tr' := Set(cs, own, n), SetTrace(tr, own, n);
    forall i | 0 <= i < |ds|
      ensures HomeAt(ds, tr', i) && EdgeAt(ds, tr', i)
    {
      assert HomeAt(cs, tr, i) && EdgeAt(cs, tr, i) && HomeAt(cs, tr, own);
      SetHomeAt(cs, tr, own, n, i);
    }
  }

  lemma SetPrecedes(cs: seq<Cell>, tr: Trace, own: nat, n: nat, y: nat, x: nat)
    requires Closed(cs) && |tr.home| == |tr.left| == |cs| && own < |cs| && n < |cs| && x < |cs|
    requires Precedes(cs, tr, y, x) && tr.home[own] == own != tr.home[x]
    ensures Closed(Set(cs, own, n)) && Precedes(Set(cs, own, n), SetTrace(tr, own, n), y, x)
  {
  }

  lemma SetEnds(cs: seq<Cell>, tr: Trace, own: nat, n: nat, z: nat, u: nat)
    requires Closed(cs) && |tr.home| == |tr.left| == |cs| && own < |cs| && n < |cs| && u < |cs|
    requires tr.home[own] == own && EndsSegment(cs, tr, z, u)
    ensures Closed(Set(cs, own, n))
    ensures EndsSegment(Set(cs, own, n), SetTrace(tr, own, n), if u == own then own else z, u)
  {
  }

  lemma SetKeepsPaths(cs: seq<Cell>, tr: Trace, own: nat, n: nat)
    requires NodesInv(cs, tr) && own < |cs| && n < |cs| && !cs[own].linked
    ensures var ds, tr' := Set(cs, own, n), SetTrace(tr, own, n); Closed(ds) && PathInv(ds, tr')
  {
    assert tr.home[own] == own by { assert HomeAt(cs, tr, own); UnlinkedIsHome(cs, tr, own); }
    hide CellsInv, HomeInv, EdgeInv, Less, EndsSegment;
    var ds, tr' := Set(cs, own, n), SetTrace(tr, own, n);
    forall x | 0 <= x < |ds| && ds[x].linked && x != HEAD && tr'.home[x] != LOST
      ensures exists y: nat :: Precedes(ds, tr', y, x)
    {
      var y: nat :| Precedes(cs, tr, y, x);
      SetPrecedes(cs, tr, own, n, y, x);
    }
    forall u | 0 <= u < |ds| && !ds[u].linked
      ensures exists z: nat :: EndsSegment(ds, tr', z, u)
    {
      var z: nat :| EndsSegment(cs, tr, z, u);
      SetEnds(cs, tr, own, n, z, u);
    }
  }

  // ---------- a new key behind p ----------

  function Stored(cs: seq<Cell>, key: Key, p: nat, n: nat, t: nat): seq<Cell>
    requires p < |cs|
  {
    Join(cs + [Cell(Some(key), HashOf(key), n, t, false)], p, |cs|)
  }

  function StoredTrace(tr: Trace, p: nat, n: nat): Trace
    requires p < |tr.home|
  {
    Trace(tr.home + [tr.home[p]], tr.left + [n])
  }

  predicate IsStored(cs: seq<Cell>, ds: seq<Cell>, key: Key, p: nat, n: nat, t: nat)
    requires p < |cs|
  {
    && |ds| == |cs| + 1 && ds[|cs|] == Cell(Some(key), HashOf(key), n, t, true)
    && ds[p] == cs[p].(next := |cs|) && forall i | 0 <= i < |cs| && i != p :: ds[i] == cs[i]
  }

  lemma StoredIs(cs: seq<Cell>, key: Key, p: nat, n: nat, t: nat)
    requires p < |cs|
    ensures IsStored(cs, Stored(cs, key, p, n, t), key, p, n, t)
    ensures Closed(cs) && n < |cs| ==> Closed(Stored(cs, key, p, n, t))
  {
    hide HashOf;
  }

  /** A store's swap is about to succeed. */
  predicate CanStore(cs: seq<Cell>, key: Key, p: nat, n: nat)
    requires Closed(cs)
  {
    p < |cs| && cs[p].next == n && cs[n].linked && cs[p].hash <= HashOf(key) < cs[n].hash && HashOf(key) < LAST
  }

  lemma StoreCellAt(cs: seq<Cell>, ds: seq<Cell>, key: Key, p: nat, n: nat, t: nat, i: nat)
    requires Closed(cs) && CanStore(cs, key, p, n) && IsStored(cs, ds, key, p, n, t) && Closed(ds) && i < |ds|
    requires CellAt(cs, p) && (i < |cs| ==> CellAt(cs, i))
    ensures CellAt(ds, i)
  {
    hide HashOf;
    if i == |cs| { } else if i == p { } else { }
  }

  lemma StoreKeepsEnds(cs: seq<Cell>, ds: seq<Cell>, key: Key, p: nat, n: nat, t: nat)
    requires Closed(cs) && EndsOk(cs) && CanStore(cs, key, p, n) && IsStored(cs, ds, key, p, n, t) && Closed(ds)
    ensures EndsOk(ds)
  {
    hide HashOf;
  }

  lemma StoreKeepsCells(cs: seq<Cell>, key: Key, p: nat, n: nat, t: nat)
    requires Closed(cs) && CellsInv(cs) && CanStore(cs, key, p, n)
    ensures Closed(Stored(cs, key, p, n, t)) && CellsInv(Stored(cs, key, p, n, t))
  {
    StoredIs(cs, key, p, n, t);
    hide HashOf, Stored, CellAt;
    var ds := Stored(cs, key, p, n, t);
    StoreKeepsEnds(cs, ds, key, p, n, t);
    assert SentinelsDiffer(ds);
    forall i | 0 <= i < |ds|
      ensures CellAt(ds, i)
    {
      assert CellAt(cs, p) && (i < |cs| ==> CellAt(cs, i));
      StoreCellAt(cs, ds, key, p, n, t, i);
    }
  }

  lemma StoreHomeAt(cs: seq<Cell>, ds: seq<Cell>, tr: Trace, key: Key, p: nat, n: nat, t: nat, i: nat)
    requires Closed(cs) && |tr.home| == |tr.left| == |cs| && CanStore(cs, key, p, n)
    requires IsStored(cs, ds, key, p, n, t) && Closed(ds) && i < |ds|
    requires HomeAt(cs, tr, p) && (i < |cs| ==> HomeAt(cs, tr, i))
    ensures HomeAt(ds, StoredTrace(tr, p, n), i)
  {
    hide HashOf;
    if i == |cs| { } else if i == p { } else { }
  }

  lemma StoreEdgeAt(cs: seq<Cell>, ds: seq<Cell>, tr: Trace, key: Key, p: nat, n: nat, t: nat, i: nat)
    requires Closed(cs) && |tr.home| == |tr.left| == |cs| && CanStore(cs, key, p, n)
    requires IsStored(cs, ds, key, p, n, t) && Closed(ds) && i < |ds|
    requires EdgeAt(cs, tr, p) && (i < |cs| ==> EdgeAt(cs, tr, i))
    ensures EdgeAt(ds, StoredTrace(tr, p, n), i)
  {
    hide HashOf;
    if i == |cs| { } else if i == p { } else { }
  }

  lemma StoreKeepsHomes(cs: seq<Cell>, tr: Trace, key: Key, p: nat, n: nat, t: nat)
    requires NodesInv(cs, tr) && CanStore(cs, key, p, n)
    ensures var ds, tr' := Stored(cs, key, p, n, t), StoredTrace(tr, p, n);
            Closed(ds) && HomeInv(ds, tr') && EdgeInv(ds, tr')
  {
    StoredIs(cs, key, p, n, t);
    hide HashOf, Stored, CellsInv, PathInv, HomeAt, EdgeAt;
    var ds, tr' := Stored(cs, key, p, n, t), StoredTrace(tr, p, n);
    forall i | 0 <= i < |ds|
      ensures HomeAt(ds, tr', i) && EdgeAt(ds, tr', i)
    {
      assert HomeAt(cs, tr, p) && EdgeAt(cs, tr, p);
      assert i < |cs| ==> HomeAt(cs, tr, i) && EdgeAt(cs, tr, i);
      StoreHomeAt(cs, ds, tr, key, p, n, t, i);
      StoreEdgeAt(cs, ds, tr, key, p, n, t, i);
    }
  }

  lemma StorePrecedes(cs: seq<Cell>, ds: seq<Cell>, tr: Trace, key: Key, p: nat, n: nat, t: nat, y: nat, x: nat)
    requires Closed(cs) && |tr.home| == |tr.left| == |cs| && CanStore(cs, key, p, n)
    requires IsStored(cs, ds, key, p, n, t) && Closed(ds) && x < |cs| && Precedes(cs, tr, y, x)
    ensures Precedes(ds, StoredTrace(tr, p, n), if y == p then |cs| else y, x)
  {
    hide HashOf;
  }

  lemma StoreNewPrecedes(cs: seq<Cell>, ds: seq<Cell>, tr: Trace, key: Key, p: nat, n: nat, t: nat)
    requires Closed(cs) && |tr.home| == |tr.left| == |cs| && CanStore(cs, key, p, n)
    requires IsStored(cs, ds, key, p, n, t) && Closed(ds)
    ensures Precedes(ds, StoredTrace(tr, p, n), p, |cs|)
  {
    hide HashOf;
  }

  lemma StoreEnds(cs: seq<Cell>, ds: seq<Cell>, tr: Trace, key: Key, p: nat, n: nat, t: nat, z: nat, u: nat)
    requires Closed(cs) && |tr.home| == |tr.left| == |cs| && CanStore(cs, key, p, n)
    requires IsStored(cs, ds, key, p, n, t) && Closed(ds) && u < |cs| && EndsSegment(cs, tr, z, u)
    ensures EndsSegment(ds, StoredTrace(tr, p, n), if z == p then |cs| else z, u)
  {
    hide HashOf;
  }

  lemma StoreKeepsPaths(cs: seq<Cell>, tr: Trace, key: Key, p: nat, n: nat, t: nat)
    requires NodesInv(cs, tr) && CanStore(cs, key, p, n)
    ensures var ds, tr' := Stored(cs, key, p, n, t), StoredTrace(tr, p, n); Closed(ds) && PathInv(ds, tr')
  {
    StoredIs(cs, key, p, n, t);
    hide HashOf, Stored, CellsInv, HomeInv, EdgeInv, Precedes, EndsSegment;
    var ds, tr' := Stored(cs, key, p, n, t), StoredTrace(tr, p, n);
    forall x | 0 <= x < |ds| && ds[x].linked && x != HEAD && tr'.home[x] != LOST
      ensures exists y: nat :: Precedes(ds, tr', y, x)
    {
      if x == |cs| {
        StoreNewPrecedes(cs, ds, tr, key, p, n, t);
      } else {
        assert cs[x].linked;
        var y: nat :| Precedes(cs, tr, y, x);
        StorePrecedes(cs, ds, tr, key, p, n, t, y, x);
      }
    }
    forall u | 0 <= u < |ds| && !ds[u].linked
      ensures exists z: nat :: EndsSegment(ds, tr', z, u)
    {
      assert u < |cs| && !cs[u].linked;
      var z: nat :| EndsSegment(cs, tr, z, u);
      StoreEnds(cs, ds, tr, key, p, n, t, z, u);
    }
  }

  // ---------- a sentinel behind p, with what hangs behind it ----------

  /** A splice's swap is about to succeed. */
  predicate CanSplice(cs: seq<Cell>, tr: Trace, p: nat, own: nat, n: nat)
    requires Closed(cs) && |tr.left| == |cs|
  {
    && p < |cs| && own < |cs| && cs[p].next == n && cs[n].linked && !cs[own].linked && tr.left[own] == n
    && cs[p].hash < cs[own].hash <= cs[n].hash
    && cs[cs[own].next].linked && cs[own].hash <= cs[cs[own].next].hash
  }

  predicate IsJoined(cs: seq<Cell>, ds: seq<Cell>, p: nat, own: nat)
    requires p < |cs| && own < |cs|
  {
    && |ds| == |cs| && ds[p] == cs[p].(next := own) && ds[own] == cs[own].(linked := true)
    && forall a | 0 <= a < |cs| && a != p && a != own :: ds[a] == cs[a]
  }

  lemma JoinIs(cs: seq<Cell>, p: nat, own: nat)
    requires p < |cs| && own < |cs| && p != own
    ensures IsJoined(cs, Join(cs, p, own), p, own)
    ensures Closed(cs) ==> Closed(Join(cs, p, own))
  {
  }

  lemma SentinelBeforeNext(cs: seq<Cell>, own: nat, n: nat)
    requires own < |cs| && n < |cs| && own != n && SentinelsDiffer(cs)
    requires cs[own].key.None? && cs[own].hash <= cs[n].hash
    ensures Less(cs, own, n)
  {
  }

  lemma SpliceCellAt(cs: seq<Cell>, ds: seq<Cell>, p: nat, own: nat, i: nat)
    requires Closed(cs) && Closed(ds) && p < |cs| && own < |cs| && p != own && IsJoined(cs, ds, p, own) && i < |cs|
    requires CellAt(cs, i) && cs[p].hash < cs[own].hash && cs[cs[own].next].linked && Less(cs, own, cs[own].next)
    ensures CellAt(ds, i)
  {
    if i == p { } else if i == own { } else { }
  }

  lemma SpliceKeepsEnds(cs: seq<Cell>, ds: seq<Cell>, p: nat, own: nat)
    requires Closed(cs) && Closed(ds) && EndsOk(cs) && p < |cs| && own < |cs| && p != own && IsJoined(cs, ds, p, own)
    requires cs[p].hash < cs[own].hash && CellAt(cs, own) && !cs[own].linked
    ensures EndsOk(ds) && (SentinelsDiffer(cs) ==> SentinelsDiffer(ds))
  {
  }

  lemma SpliceKeepsCells(cs: seq<Cell>, tr: Trace, p: nat, own: nat, n: nat)
    requires NodesInv(cs, tr) && CanSplice(cs, tr, p, own, n)
    ensures Closed(Join(cs, p, own)) && CellsInv(Join(cs, p, own))
  {
    JoinIs(cs, p, own);
    assert CellAt(cs, own);
    SentinelBeforeNext(cs, own, cs[own].next);
    hide Join, HomeInv, EdgeInv, PathInv, CellAt, Less;
    var ds := Join(cs, p, own);
    SpliceKeepsEnds(cs, ds, p, own);
    forall i | 0 <= i < |ds|
      ensures CellAt(ds, i)
    {
      assert CellAt(cs, i);
      SpliceCellAt(cs, ds, p, own, i);
    }
  }

  /** Where the thread links, and where own has been so far. */
  predicate HomesOk(cs: seq<Cell>, tr: Trace, p: nat, own: nat)
    requires |tr.home| == |cs| && p < |cs| && own < |cs|
  {
    && tr.home[own] == own && own != HEAD && tr.home[p] != own && Below(cs, tr.home[p], cs[own].hash)
    && (tr.home[p] == HEAD || tr.home[p] == LOST || !cs[tr.home[p]].linked)
  }

  lemma HomeOfP(cs: seq<Cell>, tr: Trace, p: nat, own: nat)
    requires Closed(cs) && |tr.home| == |tr.left| == |cs| && p < |cs| && own < |cs| && !cs[own].linked
    requires cs[HEAD].linked && HomeAt(cs, tr, p) && HomeAt(cs, tr, own) && cs[p].hash < cs[own].hash
    ensures HomesOk(cs, tr, p, own)
  {
    if cs[p].linked { } else { }
  }

  lemma SpliceHomeAt(cs: seq<Cell>, ds: seq<Cell>, tr: Trace, p: nat, own: nat, i: nat)
    requires Closed(cs) && |tr.home| == |tr.left| == |cs| && p < |cs| && own < |cs| && p != own && i < |cs|
    requires IsJoined(cs, ds, p, own) && HomesOk(cs, tr, p, own) && HomeAt(cs, tr, i)
    ensures HomeAt(ds, SpliceTrace(tr, p, own), i)
  {
    var tr' := SpliceTrace(tr, p, own);
    if i == own {
    } else if cs[i].linked {
      if tr.home[i] == own { } else { }
    } else {
      assert tr'.home[i] == i;
      if tr.home[tr.left[i]] == own { } else { }
    }
  }

  lemma SpliceEdgeAt(cs: seq<Cell>, ds: seq<Cell>, tr: Trace, p: nat, own: nat, n: nat, i: nat)
    requires Closed(cs) && Closed(ds) && |tr.home| == |tr.left| == |cs| && CanSplice(cs, tr, p, own, n) && i < |cs|
    requires IsJoined(cs, ds, p, own) && HomesOk(cs, tr, p, own) && EdgeAt(cs, tr, i) && EdgeAt(cs, tr, p)
    requires HomeAt(cs, tr, i)
    ensures EdgeAt(ds, SpliceTrace(tr, p, own), i)
  {
    if i == p { } else if tr.home[i] == own { } else if tr.home[i] == LOST { } else { }
  }

  lemma SpliceKeepsHomes(cs: seq<Cell>, tr: Trace, p: nat, own: nat, n: nat)
    requires NodesInv(cs, tr) && CanSplice(cs, tr, p, own, n)
    ensures var ds, tr' := Join(cs, p, own), SpliceTrace(tr, p, own);
            Closed(ds) && HomeInv(ds, tr') && EdgeInv(ds, tr')
  {
    HeadLinked(cs);
    JoinIs(cs, p, own);
    hide Join, CellsInv, PathInv, HomeAt, EdgeAt;
    var ds, tr' := Join(cs, p, own), SpliceTrace(tr, p, own);
    assert HomeAt(cs, tr, p) && HomeAt(cs, tr, own) && EdgeAt(cs, tr, p);
    HomeOfP(cs, tr, p, own);
    forall i | 0 <= i < |ds|
      ensures HomeAt(ds, tr', i) && EdgeAt(ds, tr', i)
    {
      assert HomeAt(cs, tr, i) && EdgeAt(cs, tr, i);
      SpliceHomeAt(cs, ds, tr, p, own, i);
      SpliceEdgeAt(cs, ds, tr, p, own, n, i);
    }
  }

  lemma SplicePrecedes(cs: seq<Cell>, ds: seq<Cell>, tr: Trace, p: nat, own: nat, n: nat, end: nat, y: nat, x: nat)
    requires Closed(cs) && Closed(ds) && |tr.home| == |tr.left| == |cs| && CanSplice(cs, tr, p, own, n) && x < |cs|
    requires IsJoined(cs, ds, p, own) && HomesOk(cs, tr, p, own) && EndsSegment(cs, tr, end, own)
    requires Precedes(cs, tr, y, x) && Less(cs, end, n)
    ensures Precedes(ds, SpliceTrace(tr, p, own), if y == p then end else y, x)
  {
    if y == p { } else { }
  }

  lemma SpliceOwnPrecedes(cs: seq<Cell>, ds: seq<Cell>, tr: Trace, p: nat, own: nat, n: nat)
    requires Closed(cs) && Closed(ds) && |tr.home| == |tr.left| == |cs| && CanSplice(cs, tr, p, own, n)
    requires IsJoined(cs, ds, p, own) && HomesOk(cs, tr, p, own)
    ensures Precedes(ds, SpliceTrace(tr, p, own), p, own)
  {
  }

  lemma SpliceEnds(cs: seq<Cell>, ds: seq<Cell>, tr: Trace, p: nat, own: nat, n: nat, end: nat, z: nat, u: nat)
    requires Closed(cs) && Closed(ds) && |tr.home| == |tr.left| == |cs| && CanSplice(cs, tr, p, own, n) && u < |cs|
    requires IsJoined(cs, ds, p, own) && HomesOk(cs, tr, p, own) && EndsSegment(cs, tr, end, own)
    requires u != own && EndsSegment(cs, tr, z, u)
    ensures EndsSegment(ds, SpliceTrace(tr, p, own), if z == p then end else z, u)
  {
    if z == p { } else { }
  }

  /** The last node of own's segment stands before what follows it. */
  lemma EndIsLess(cs: seq<Cell>, tr: Trace, p: nat, own: nat, n: nat, end: nat)
    requires Closed(cs) && |tr.home| == |tr.left| == |cs| && CellsInv(cs) && CanSplice(cs, tr, p, own, n)
    requires EndsSegment(cs, tr, end, own) && HomeAt(cs, tr, end) && tr.home[END] == HEAD && own != HEAD
    ensures Less(cs, end, n)
  {
    assert CellAt(cs, end) && CellAt(cs, own);
    if end == own { SentinelBeforeNext(cs, own, n); }
  }

  lemma EndIsNode(cs: seq<Cell>, tr: Trace, z: nat, u: nat)
    requires Closed(cs) && |tr.home| == |tr.left| == |cs| && u < |cs| && EndsSegment(cs, tr, z, u)
    ensures z < |cs|
  {
  }

  lemma EndOfOwn(cs: seq<Cell>, tr: Trace, p: nat, own: nat, n: nat) returns (end: nat)
    requires NodesInv(cs, tr) && CanSplice(cs, tr, p, own, n)
    ensures HomesOk(cs, tr, p, own) && EndsSegment(cs, tr, end, own) && Less(cs, end, n)
  {
    HeadLinked(cs);
    hide CellsInv, EdgeInv, HomeAt, Less, EndsSegment;
    assert HomeAt(cs, tr, p) && HomeAt(cs, tr, own);
    HomeOfP(cs, tr, p, own);
    end :| EndsSegment(cs, tr, end, own);
    EndIsNode(cs, tr, end, own);
    assert HomeAt(cs, tr, end);
    EndIsLess(cs, tr, p, own, n, end);
  }

  lemma LostStaysLost(tr: Trace, p: nat, own: nat, x: nat)
    requires p < |tr.home| && x < |tr.home|
    ensures tr.home[x] == LOST ==> SpliceTrace(tr, p, own).home[x] == LOST
  {
  }

  lemma SpliceHasPred(cs: seq<Cell>, ds: seq<Cell>, tr: Trace, p: nat, own: nat, n: nat, end: nat, x: nat)
    requires Closed(cs) && Closed(ds) && |tr.home| == |tr.left| == |cs| && CanSplice(cs, tr, p, own, n) && x < |cs|
    requires IsJoined(cs, ds, p, own) && HomesOk(cs, tr, p, own) && EndsSegment(cs, tr, end, own) && Less(cs, end, n)
    requires PathInv(cs, tr) && x != HEAD && ds[x].linked && SpliceTrace(tr, p, own).home[x] != LOST
    ensures exists y: nat :: Precedes(ds, SpliceTrace(tr, p, own), y, x)
  {
    hide Less, Precedes, EndsSegment, SpliceTrace, HomesOk;
    if x == own {
      SpliceOwnPrecedes(cs, ds, tr, p, own, n);
    } else {
      assert cs[x].linked && tr.home[x] != LOST by { LostStaysLost(tr, p, own, x); }
      var y: nat :| Precedes(cs, tr, y, x);
      SplicePrecedes(cs, ds, tr, p, own, n, end, y, x);
    }
  }

  lemma SpliceHasEnd(cs: seq<Cell>, ds: seq<Cell>, tr: Trace, p: nat, own: nat, n: nat, end: nat, u: nat)
    requires Closed(cs) && Closed(ds) && |tr.home| == |tr.left| == |cs| && CanSplice(cs, tr, p, own, n) && u < |cs|
    requires IsJoined(cs, ds, p, own) && HomesOk(cs, tr, p, own) && EndsSegment(cs, tr, end, own)
    requires PathInv(cs, tr) && !ds[u].linked
    ensures exists z: nat :: EndsSegment(ds, SpliceTrace(tr, p, own), z, u)
  {
    hide Less, Precedes, EndsSegment, SpliceTrace, HomesOk;
    assert !cs[u].linked && u != own;
    var z: nat :| EndsSegment(cs, tr, z, u);
    SpliceEnds(cs, ds, tr, p, own, n, end, z, u);
  }

  lemma SpliceKeepsPaths(cs: seq<Cell>, tr: Trace, p: nat, own: nat, n: nat)
    requires NodesInv(cs, tr) && CanSplice(cs, tr, p, own, n)
    ensures var ds, tr' := Join(cs, p, own), SpliceTrace(tr, p, own); Closed(ds) && PathInv(ds, tr')
  {
    hide Join, CellsInv, HomeInv, EdgeInv, Less, Precedes, EndsSegment, HomesOk, Renamed;
    var end := EndOfOwn(cs, tr, p, own, n);
    JoinIs(cs, p, own);
    var ds, tr' := Join(cs, p, own), SpliceTrace(tr, p, own);
    forall x | 0 <= x < |ds| && ds[x].linked && x != HEAD && tr'.home[x] != LOST
      ensures exists y: nat :: Precedes(ds, tr', y, x)
    {
      SpliceHasPred(cs, ds, tr, p, own, n, end, x);
    }
    forall u | 0 <= u < |ds| && !ds[u].linked
      ensures exists z: nat :: EndsSegment(ds, tr', z, u)
    {
      SpliceHasEnd(cs, ds, tr, p, own, n, end, u);
    }
  }
}
