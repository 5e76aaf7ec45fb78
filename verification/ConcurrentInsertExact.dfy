/** One winner per key, exactly: from any state that links on the list have led to, a store that is about to link
    behind p can be followed by a second HT_GOOD for its key if and only if p is not in the list. */
module ConcurrentInsertExact {
  import opened Bytes
  import opened SplitOrder
  import opened HashTables
  import opened ConcurrentInsert
  import opened ConcurrentInsertProof
  import opened ConcurrentInsertTheorems

  function RunFrom(s: State, steps: seq<Step>): (r: State)
    requires Shape(s)
    ensures Shape(r)
    decreases |steps|
  {
    if steps == [] then s else RunFrom(Apply(s, steps[0]), steps[1..])
  }

  ghost predicate LinksOnListFrom(s: State, steps: seq<Step>)
    requires Shape(s)
    decreases |steps|
  {
    steps == [] || (!LinksOffList(s, steps[0]) && LinksOnListFrom(Apply(s, steps[0]), steps[1..]))
  }

  /** Two stores of the key have answered HT_GOOD. */
  ghost predicate TwoWinners(s: State, key: Key) {
    exists t, u :: 0 <= t < u < |s.threads| && Won(s.threads[t], key) && Won(s.threads[u], key)
  }

  predicate Won(th: Thread, key: Key) {
    th.errand == Insert(key) && th.pc.Done? && th.pc.status == Good
  }

  /** Some continuation that links on the list only makes a second winner. */
  ghost predicate TwoWinnersAhead(s: State, key: Key)
    requires Shape(s)
  {
    exists steps :: LinksOnListFrom(s, steps) && TwoWinners(RunFrom(s, steps), key)
  }

  lemma AheadOfStep(s: State, step: Step, key: Key)
    requires Shape(s) && !LinksOffList(s, step) && TwoWinnersAhead(Apply(s, step), key)
    ensures TwoWinnersAhead(s, key)
  {
    hide LinksOffList, TwoWinners, Apply;
    var r := Apply(s, step);
    var steps :| LinksOnListFrom(r, steps) && TwoWinners(RunFrom(r, steps), key);
    var longer := [step] + steps;
    assert longer[1..] == steps;
    assert LinksOnListFrom(s, longer) && TwoWinners(RunFrom(s, longer), key);
  }

  lemma AheadNow(s: State, key: Key)
    requires Shape(s) && TwoWinners(s, key)
    ensures TwoWinnersAhead(s, key)
  {
    assert LinksOnListFrom(s, []) && TwoWinners(RunFrom(s, []), key);
  }

  // ---------- on the list: never ----------

  lemma WinnersNode(s: State, t: nat, key: Key)
    requires Inv(s) && t < |s.threads| && Won(s.threads[t], key)
    ensures var node := s.threads[t].pc.node;
            node < |s.cells| && s.cells[node].key == Some(key) && s.cells[node].owner == t
  {
    hide HashOf, ListInv, UnlinkedInv, CellOk, Closed, NothingTwice;
    assert ThreadOk(s.cells, s.threads[t], t);
  }

  lemma OneNodePerKey(s: State, i: nat, j: nat)
    requires Inv(s) && i < |s.cells| && j < |s.cells| && s.cells[i].key.Some? && s.cells[i].key == s.cells[j].key
    ensures i == j
  {
    hide HashOf, ListInv, UnlinkedInv, CellOk, Closed, ThreadOk;
  }

  lemma OneWinner(s: State, t: nat, u: nat, key: Key)
    requires Inv(s) && t < |s.threads| && u < |s.threads| && Won(s.threads[t], key) && Won(s.threads[u], key)
    ensures t == u
  {
    hide Inv;
    WinnersNode(s, t, key);
    WinnersNode(s, u, key);
    OneNodePerKey(s, s.threads[t].pc.node, s.threads[u].pc.node);
  }

  lemma {:induction false} InvRunsOn(s: State, steps: seq<Step>)
    requires Inv(s) && LinksOnListFrom(s, steps)
    ensures Inv(RunFrom(s, steps))
    decreases |steps|
  {
    hide ListInv, UnlinkedInv, NothingTwice, CellOk, ThreadOk, Apply, LinksOffList;
    if steps != [] {
      StepKeepsInv(s, steps[0]);
      InvRunsOn(Apply(s, steps[0]), steps[1..]);
    }
  }

  // ---------- off the list: always possible ----------

  /** The list of cs, as it was before something was linked off it. */
  predicate SameList(cs: seq<Cell>, ds: seq<Cell>) {
    && |cs| <= |ds|
    && forall i | 0 <= i < |cs| && cs[i].linked :: ds[i] == cs[i]
  }

  /** A new store that walks along that list. */
  predicate WalksOldList(cs: seq<Cell>, r: State, u: nat, key: Key) {
    && Shape(r) && Closed(cs) && SameList(cs, r.cells) && u < |r.threads| && r.threads[u].errand == Insert(key)
    && (r.threads[u].pc.Walk? || r.threads[u].pc.Match?)
    && r.threads[u].pc.p < |cs| && cs[r.threads[u].pc.p].linked && r.threads[u].pc.p != END
    && cs[r.threads[u].pc.p].next == r.threads[u].pc.n
    && (r.threads[u].pc.Match? ==> HashOf(key) <= cs[r.threads[u].pc.n].hash)
  }

  lemma {:induction false} OldListLeadsToGood(cs: seq<Cell>, r: State, t: nat, u: nat, key: Key)
    requires Closed(cs) && ListInv(cs) && forall x | 0 <= x < |cs| :: cs[x].key != Some(key)
    requires WalksOldList(cs, r, u, key) && HashOf(key) < LAST
    requires t < u && Won(r.threads[t], key)
    ensures TwoWinnersAhead(r, key)
    decreases After(cs, r.threads[u].pc.n), r.threads[u].pc.Walk?
  {
    hide Less, After, LinksOffList, TwoWinnersAhead;
    var pc := r.threads[u].pc;
    var p, n, hash := pc.p, pc.n, HashOf(key);
    NextIsLinked(cs, p);
    assert r.cells[n] == cs[n];
    var r' := ThreadStep(r, u, 0);
    assert Apply(r, Act(u, 0)) == r';
    assert !LinksOffList(r, Act(u, 0)) by { MovesOnly(r, u); }
    if pc.Walk? && hash <= cs[n].hash {
      assert r'.threads[u].pc == Match(pc.start, p, n) && r'.cells == r.cells;
      OldListLeadsToGood(cs, r', t, u, key);
    } else if hash >= cs[n].hash {
      HashIsBelowEnd(cs, n);
      NextIsCloser(cs, n);
      assert r'.cells == r.cells && r'.threads[u].pc.p == n && r'.threads[u].pc.n == cs[n].next;
      NextRises(cs, n);
      OldListLeadsToGood(cs, r', t, u, key);
    } else {
      assert r'.threads[u].pc == Swap(pc.start, p, n) && r'.cells == r.cells;
      SwapWins(cs, r', t, u, key);
    }
    AheadOfStep(r, Act(u, 0), key);
  }

  lemma MovesOnly(r: State, u: nat)
    requires Shape(r) && u < |r.threads| && !r.threads[u].pc.Swap? && !r.threads[u].pc.SpliceSwap?
    ensures !LinksOffList(r, Act(u, 0))
  {
  }

  lemma NextRises(cs: seq<Cell>, n: nat)
    requires Closed(cs) && ListInv(cs) && n < |cs| && cs[n].linked && n != END
    ensures cs[n].hash <= cs[cs[n].next].hash
  {
  }

  lemma SwapWins(cs: seq<Cell>, r: State, t: nat, u: nat, key: Key)
    requires Shape(r) && Closed(cs) && SameList(cs, r.cells) && t < u < |r.threads| && Won(r.threads[t], key)
    requires r.threads[u].errand == Insert(key) && r.threads[u].pc.Swap?
    requires var p := r.threads[u].pc.p; p < |cs| && cs[p].linked && cs[p].next == r.threads[u].pc.n
    ensures TwoWinnersAhead(r, key)
  {
    hide HashOf;
    var r' := ThreadStep(r, u, 0);
    assert Apply(r, Act(u, 0)) == r';
    assert !LinksOffList(r, Act(u, 0));
    assert Won(r'.threads[u], key) && Won(r'.threads[t], key);
    hide ThreadStep, LinksOffList, Apply;
    AheadNow(r', key);
    AheadOfStep(r, Act(u, 0), key);
  }

  lemma OwnerHasWon(s: State, x: nat, key: Key)
    requires Inv(s) && x < |s.cells| && s.cells[x].key == Some(key)
    ensures 0 <= s.cells[x].owner < |s.threads| && Won(s.threads[s.cells[x].owner], key)
  {
    hide HashOf, ThreadOk, ListInv, UnlinkedInv, NothingTwice, Closed;
    assert CellOk(s.cells[x], x, s.threads);
  }

  /** The step after which the thread has its HT_GOOD for a node that is not on the list. */
  lemma OffListStep(s: State, t: nat, key: Key)
    requires Shape(s) && t < |s.threads| && s.threads[t].errand == Insert(key) && s.threads[t].pc.Swap?
    requires var pc := s.threads[t].pc; s.cells[pc.p].next == pc.n && !s.cells[pc.p].linked
    ensures var r := ThreadStep(s, t, 0);
            && SameList(s.cells, r.cells) && |r.threads| == |s.threads| && Won(r.threads[t], key)
            && forall u | 0 <= u < |s.threads| && u != t :: r.threads[u] == s.threads[u]
  {
    hide HashOf;
  }

  lemma SecondStoreWins(cs: seq<Cell>, r: State, t: nat, key: Key)
    requires Closed(cs) && ListInv(cs) && (forall x | 0 <= x < |cs| :: cs[x].key != Some(key))
    requires Shape(r) && SameList(cs, r.cells) && t < |r.threads| && Won(r.threads[t], key) && 0 < HashOf(key) < LAST
    ensures TwoWinnersAhead(r, key)
  {
    hide Less;
    HeadIsLinked(cs);
    var u := |r.threads|;
    var r1 := r.(threads := r.threads + [Thread(Insert(key), Begin, 0, false)]);
    assert Apply(r, Spawn(Insert(key))) == r1;
    var r2 := ThreadStep(r1, u, HEAD);
    assert r2.threads[u].pc == LoadFirst(HEAD) && r2.cells == r.cells;
    var r3 := ThreadStep(r2, u, 0);
    assert r3.threads[u].pc == Walk(HEAD, HEAD, cs[HEAD].next) && r3.cells == r.cells;
    assert Won(r3.threads[t], key);
    assert !LinksOffList(r, Spawn(Insert(key))) && !LinksOffList(r1, Act(u, HEAD)) && !LinksOffList(r2, Act(u, 0));
    hide LinksOffList, TwoWinnersAhead;
    OldListLeadsToGood(cs, r3, t, u, key);
    assert Apply(r2, Act(u, 0)) == r3 && Apply(r1, Act(u, HEAD)) == r2;
    hide Apply, ThreadStep;
    AheadOfStep(r2, Act(u, 0), key);
    AheadOfStep(r1, Act(u, HEAD), key);
    AheadOfStep(r, Spawn(Insert(key)), key);
  }

  lemma OffListMakesTwo(s: State, t: nat, key: Key)
    requires Inv(s) && t < |s.threads| && s.threads[t].errand == Insert(key) && s.threads[t].pc.Swap?
    requires var pc := s.threads[t].pc; s.cells[pc.p].next == pc.n && !s.cells[pc.p].linked
    ensures TwoWinnersAhead(ThreadStep(s, t, 0), key)
  {
    hide ListInv, UnlinkedInv, NothingTwice, CellOk, TwoWinnersAhead, ThreadStep, HashOf, WalkOk;
    OffListStep(s, t, key);
    var r := ThreadStep(s, t, 0);
    if x :| 0 <= x < |s.cells| && s.cells[x].key == Some(key) {
      OwnerHasWon(s, x, key);
      var w := s.cells[x].owner;
      assert TwoWinners(r, key) by {
        if w < t { assert Won(r.threads[w], key); } else { assert Won(r.threads[w], key); }
      }
      AheadNow(r, key);
    } else {
      assert ThreadOk(s.cells, s.threads[t], t);
      SecondStoreWins(s.cells, r, t, key);
    }
  }

  /** When a store is about to link its node, its HT_GOOD stays the only one for the key, in every continuation
      that links on the list, if and only if the node it links behind is in the list. */
  lemma OneWinnerExactly(steps: seq<Step>, t: nat, key: Key)
    requires LinksOnList(steps)
    requires var s := Run(steps);
             && t < |s.threads| && s.threads[t].errand == Insert(key) && s.threads[t].pc.Swap?
             && s.cells[s.threads[t].pc.p].next == s.threads[t].pc.n
    ensures var s := Run(steps);
            s.cells[s.threads[t].pc.p].linked <==> !TwoWinnersAhead(Apply(s, Act(t, 0)), key)
  {
    hide TwoWinnersAhead, ThreadStep, Inv, Run;
    var s := Run(steps);
    Invariant(steps);
    assert Apply(s, Act(t, 0)) == ThreadStep(s, t, 0);
    if s.cells[s.threads[t].pc.p].linked {
      StepKeepsInv(s, Act(t, 0));
      NeverTwo(Apply(s, Act(t, 0)), key);
    } else {
      OffListMakesTwo(s, t, key);
    }
  }

  lemma NeverTwo(s: State, key: Key)
    requires Inv(s)
    ensures !TwoWinnersAhead(s, key)
  {
    hide ListInv, UnlinkedInv, NothingTwice, CellOk, ThreadOk, RunFrom, LinksOnListFrom, Won;
    forall steps | LinksOnListFrom(s, steps)
      ensures !TwoWinners(RunFrom(s, steps), key)
    {
      InvRunsOn(s, steps);
      var r := RunFrom(s, steps);
      forall t, u | 0 <= t < |r.threads| && 0 <= u < |r.threads| && Won(r.threads[t], key) && Won(r.threads[u], key)
        ensures t == u
      {
        OneWinner(r, t, u, key);
      }
    }
  }
}
