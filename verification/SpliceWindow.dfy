/** The condition of the insertion theorems is needed: between line 279, which puts a new sentinel into its
    slot, and line 289, which links it, a store may begin at the sentinel and link its node there. If the
    compare-and-swap of line 289 then fails, line 287 overwrites that link. */
module SpliceWindow {
  import opened Bytes
  import opened SplitOrder
  import opened HashTables
  import HashTableRuns
  import opened ConcurrentInsert
  import opened ConcurrentInsertTheorems
  import ConcurrentInsertLoss
  import ConcurrentInsertLossTheorems

  /** A state that a schedule reaches from the start. */
  ghost predicate Reachable(s: State) {
    exists steps :: Run(steps) == s
  }

  lemma Reach(s: State, step: Step, s': State)
    requires Reachable(s) && Shape(s) && Apply(s, step) == s'
    ensures Reachable(s')
  {
    hide Apply;
    var steps :| Run(steps) == s;
    assert (steps + [step])[..|steps|] == steps;
    assert Run(steps + [step]) == s';
  }

  /** Two keys and a sentinel hash with the second key and the sentinel in front of the first. */
  ghost predicate Apart(kb: Key, kc: Key, h: nat) {
    0 < HashOf(kc) < h <= HashOf(kb) < LAST
  }

  /** Thread 0 makes the sentinel, 1 stores kb, 2 stores kc, 3 looks kb up, 4 stores kb again. */
  function Threads(kb: Key, kc: Key, h: nat, a: Pc, b: Thread, c: Thread): seq<Thread> {
    [Thread(Install(h), a, 0, false), b, c, Thread(Lookup(kb), Begin, 0, false), Thread(Insert(kb), Begin, 0, false)]
  }

  function Fresh(key: Key): Thread { Thread(Insert(key), Begin, 0, false) }

  /** The head, the end node and the new sentinel. */
  function Cells(h: nat, headNext: nat, ownNext: nat): seq<Cell> {
    [Cell(None, 0, headNext, -1, true), Cell(None, LAST, END, -1, true), Cell(None, h, ownNext, 0, false)]
  }

  lemma ThreadsAreThere(kb: Key, kc: Key, h: nat)
    requires Apart(kb, kc, h)
    ensures Reachable(State(Init().cells, Threads(kb, kc, h, Begin, Fresh(kb), Fresh(kc))))
  {
    hide HashOf;
    var s0 := Init();
    assert Run([]) == s0;
    var ts := Threads(kb, kc, h, Begin, Fresh(kb), Fresh(kc));
    var s1 := s0.(threads := ts[..1]);
    Reach(s0, Spawn(Install(h)), s1);
    var s2 := s0.(threads := ts[..2]);
    assert ts[..1] + [Fresh(kb)] == ts[..2];
    Reach(s1, Spawn(Insert(kb)), s2);
    var s3 := s0.(threads := ts[..3]);
    assert ts[..2] + [Fresh(kc)] == ts[..3];
    Reach(s2, Spawn(Insert(kc)), s3);
    var s4 := s0.(threads := ts[..4]);
    assert ts[..3] + [Thread(Lookup(kb), Begin, 0, false)] == ts[..4];
    Reach(s3, Spawn(Lookup(kb)), s4);
    assert ts[..4] + [Fresh(kb)] == ts;
    Reach(s4, Spawn(Insert(kb)), s0.(threads := ts));
  }

  /** Line 287 has set the new sentinel's successor; its compare-and-swap on the head is next. */
  function Window(kb: Key, kc: Key, h: nat): State {
    State(Cells(h, END, END), Threads(kb, kc, h, SpliceSwap(2, HEAD, END), Fresh(kb), Fresh(kc)))
  }

  lemma SentinelIsSet(kb: Key, kc: Key, h: nat)
    requires Apart(kb, kc, h)
    ensures Reachable(Window(kb, kc, h))
  {
    ThreadsAreThere(kb, kc, h);
    hide HashOf, Reachable;
    var b, c := Fresh(kb), Fresh(kc);
    var s0 := State(Init().cells, Threads(kb, kc, h, Begin, b, c));
    var s1 := State(Cells(h, END, HEAD), Threads(kb, kc, h, SpliceLoad(2, HEAD), b, c));
    Reach(s0, Act(0, HEAD), s1);
    var s2 := s1.(threads := Threads(kb, kc, h, SpliceWalk(2, HEAD, END), b, c));
    Reach(s1, Act(0, 0), s2);
    var s3 := s1.(threads := Threads(kb, kc, h, SpliceSet(2, HEAD, END), b, c));
    Reach(s2, Act(0, 0), s3);
    Reach(s3, Act(0, 0), Window(kb, kc, h));
  }

  function Stored(key: Key, node: nat): Thread {
    Thread(Insert(key), Done(Good, node), node, false)
  }

  /** kb has been stored behind the sentinel. */
  function StoredOff(kb: Key, kc: Key, h: nat): State {
    State(Cells(h, END, 3) + [Cell(Some(kb), HashOf(kb), END, 1, true)],
          Threads(kb, kc, h, SpliceSwap(2, HEAD, END), Stored(kb, 3), Fresh(kc)))
  }

  lemma StoreBeginsThere(kb: Key, kc: Key, h: nat)
    requires Apart(kb, kc, h)
    ensures Reachable(StoredOff(kb, kc, h))
  {
    SentinelIsSet(kb, kc, h);
    hide HashOf, Reachable;
    var c, pc := Fresh(kc), SpliceSwap(2, HEAD, END);
    var s0 := Window(kb, kc, h);
    var s1 := s0.(threads := Threads(kb, kc, h, pc, Thread(Insert(kb), LoadFirst(2), 3, false), c));
    Reach(s0, Act(1, 2), s1);
    var s2 := s0.(threads := Threads(kb, kc, h, pc, Thread(Insert(kb), Walk(2, 2, END), 3, false), c));
    Reach(s1, Act(1, 0), s2);
    var s3 := s0.(threads := Threads(kb, kc, h, pc, Thread(Insert(kb), Match(2, 2, END), 3, false), c));
    Reach(s2, Act(1, 0), s3);
    var s4 := s0.(threads := Threads(kb, kc, h, pc, Thread(Insert(kb), Swap(2, 2, END), 3, false), c));
    Reach(s3, Act(1, 0), s4);
    Reach(s4, Act(1, 0), StoredOff(kb, kc, h));
  }

  /** kc has been stored behind the head, so that the splice must look again. */
  function Crossed(kb: Key, kc: Key, h: nat, ownNext: nat, pc: Pc): State {
    State(Cells(h, 4, ownNext) + [Cell(Some(kb), HashOf(kb), END, 1, true), Cell(Some(kc), HashOf(kc), END, 2, true)],
          Threads(kb, kc, h, pc, Stored(kb, 3), Stored(kc, 4)))
  }

  lemma StoreCrosses(kb: Key, kc: Key, h: nat)
    requires Apart(kb, kc, h)
    ensures Reachable(Crossed(kb, kc, h, 3, SpliceSwap(2, HEAD, END)))
  {
    StoreBeginsThere(kb, kc, h);
    hide HashOf, Reachable;
    var b, pc := Stored(kb, 3), SpliceSwap(2, HEAD, END);
    var s0 := StoredOff(kb, kc, h);
    var s1 := s0.(threads := Threads(kb, kc, h, pc, b, Thread(Insert(kc), LoadFirst(HEAD), 4, false)));
    Reach(s0, Act(2, HEAD), s1);
    var s2 := s0.(threads := Threads(kb, kc, h, pc, b, Thread(Insert(kc), Walk(HEAD, HEAD, END), 4, false)));
    Reach(s1, Act(2, 0), s2);
    var s3 := s0.(threads := Threads(kb, kc, h, pc, b, Thread(Insert(kc), Match(HEAD, HEAD, END), 4, false)));
    Reach(s2, Act(2, 0), s3);
    var s4 := s0.(threads := Threads(kb, kc, h, pc, b, Thread(Insert(kc), Swap(HEAD, HEAD, END), 4, false)));
    Reach(s3, Act(2, 0), s4);
    Reach(s4, Act(2, 0), Crossed(kb, kc, h, 3, pc));
  }

  /** The retry has overwritten the link: no `next` leads to node 3 any more. */
  lemma LinkIsOverwritten(kb: Key, kc: Key, h: nat)
    requires Apart(kb, kc, h)
    ensures Reachable(Crossed(kb, kc, h, END, SpliceSwap(2, 4, END)))
  {
    StoreCrosses(kb, kc, h);
    hide HashOf, Reachable;
    var s0 := Crossed(kb, kc, h, 3, SpliceSwap(2, HEAD, END));
    var s1 := Crossed(kb, kc, h, 3, SpliceLoad(2, HEAD));
    Reach(s0, Act(0, 0), s1);
    var s2 := Crossed(kb, kc, h, 3, SpliceWalk(2, HEAD, 4));
    Reach(s1, Act(0, 0), s2);
    var s3 := Crossed(kb, kc, h, 3, SpliceWalk(2, 4, END));
    Reach(s2, Act(0, 0), s3);
    var s4 := Crossed(kb, kc, h, 3, SpliceSet(2, 4, END));
    Reach(s3, Act(0, 0), s4);
    Reach(s4, Act(0, 0), Crossed(kb, kc, h, END, SpliceSwap(2, 4, END)));
  }

  /** The sentinel is linked; what thread 3 and thread 4 have done since. */
  function Spliced(kb: Key, kc: Key, h: nat, finder: Thread, second: Thread): State {
    State([Cell(None, 0, 4, -1, true), Cell(None, LAST, END, -1, true), Cell(None, h, END, 0, true),
           Cell(Some(kb), HashOf(kb), END, 1, true), Cell(Some(kc), HashOf(kc), 2, 2, true)],
          [Thread(Install(h), Done(Good, 2), 0, false), Stored(kb, 3), Stored(kc, 4), finder, second])
  }

  lemma KeyIsSkipped(s: State, kb: Key)
    requires |s.cells| >= 4 && s.cells[3].key == Some(kb) && s.cells[2].key.None? && s.cells[2].next == END
    requires s.cells[2].hash <= s.cells[3].hash < s.cells[END].hash
    ensures Skips(s.cells, kb, 5, 2)
  {
    assert Less(s.cells, 2, 3) && Less(s.cells, 3, END);
  }

  lemma FindMisses(kb: Key, kc: Key, h: nat)
    requires Apart(kb, kc, h)
    ensures Reachable(Spliced(kb, kc, h, Thread(Lookup(kb), Done(NotFound, END), 5, true), Fresh(kb)))
  {
    LinkIsOverwritten(kb, kc, h);
    hide HashOf, Reachable, Skips;
    var d := Fresh(kb);
    var s0 := Spliced(kb, kc, h, Thread(Lookup(kb), Begin, 0, false), d);
    Reach(Crossed(kb, kc, h, END, SpliceSwap(2, 4, END)), Act(0, 0), s0);
    var s1 := Spliced(kb, kc, h, Thread(Lookup(kb), LoadFirst(2), 5, false), d);
    Reach(s0, Act(3, 2), s1);
    KeyIsSkipped(s1, kb);
    var s2 := Spliced(kb, kc, h, Thread(Lookup(kb), Walk(2, 2, END), 5, true), d);
    Reach(s1, Act(3, 0), s2);
    var s3 := Spliced(kb, kc, h, Thread(Lookup(kb), Match(2, 2, END), 5, true), d);
    Reach(s2, Act(3, 0), s3);
    Reach(s3, Act(3, 0), Spliced(kb, kc, h, Thread(Lookup(kb), Done(NotFound, END), 5, true), d));
  }

  /** The loss: after the store of kb has answered HT_GOOD, its node is behind no other, a find of kb that
      begins then answers HT_NOT_FOUND, and a second store of kb answers HT_GOOD as well. */
  lemma SpliceLosesAKey(kb: Key, kc: Key, h: nat)
    requires Apart(kb, kc, h)
    ensures exists steps :: Lost(Run(steps), kb)
  {
    FindMisses(kb, kc, h);
    hide HashOf, Reachable;
    var f := Thread(Lookup(kb), Done(NotFound, END), 5, true);
    var s0 := Spliced(kb, kc, h, f, Fresh(kb));
    var s1 := Spliced(kb, kc, h, f, Thread(Insert(kb), LoadFirst(2), 5, false));
    Reach(s0, Act(4, 2), s1);
    KeyIsSkipped(s1, kb);
    var s2 := Spliced(kb, kc, h, f, Thread(Insert(kb), Walk(2, 2, END), 5, true));
    Reach(s1, Act(4, 0), s2);
    var s3 := Spliced(kb, kc, h, f, Thread(Insert(kb), Match(2, 2, END), 5, true));
    Reach(s2, Act(4, 0), s3);
    var s4 := Spliced(kb, kc, h, f, Thread(Insert(kb), Swap(2, 2, END), 5, true));
    Reach(s3, Act(4, 0), s4);
    var s5 := Apply(s4, Act(4, 0));
    Reach(s4, Act(4, 0), s5);
    assert Lost(s5, kb);
    ReachedBy(s5);
  }

  lemma ReachedBy(s: State)
    requires Reachable(s)
    ensures exists steps :: Run(steps) == s
  {
  }

  /** Node 3 is kb's and handed out by thread 1, yet nothing points at it. */
  ghost predicate Lost(s: State, kb: Key)
    requires Shape(s)
  {
    && |s.threads| == 5 && |s.cells| == 6
    && s.threads[1].errand == Insert(kb) && s.threads[1].pc == Done(Good, 3) && s.cells[3].key == Some(kb)
    && (forall i | 0 <= i < |s.cells| :: s.cells[i].next != 3)
    && s.threads[3].errand == Lookup(kb) && s.threads[3].pc == Done(NotFound, END) && s.threads[3].born == 5
    && s.threads[4].errand == Insert(kb) && s.threads[4].pc == Done(Good, 5)
  }

  lemma RevStep(x: nat, k: nat)
    requires k > 0
    ensures Rev(x, k) == (x % 2) * Pow2(k - 1) + Rev(x / 2, k - 1)
  {
  }

  lemma ReverseTwo()
    ensures Reverse(2) == 0x4000_0000
  {
    hide Rev, Pow2;
    RevZero(30);
    Pow2Word();
    RevStep(1, 31);
    RevStep(2, WORD);
  }

  lemma SmallHashes()
    ensures HashOf([3]) == 177576 && HashOf([3, 9, 4, 19]) == 2086591368
  {
    hide HashOf;
    HashTableRuns.ThirdHash();
    HashTableRuns.HashSnoc([3, 9, 4], 19, [3, 9, 4, 19]);
    HashTableRuns.HashOfNothing();
    HashTableRuns.HashSnoc([], 3, [3]);
  }

  /** Such keys exist, with the sentinel of index 2. */
  lemma ApartExists()
    ensures Apart([3, 9, 4, 19], [3], Reverse(2))
  {
    hide HashOf, Reverse;
    SmallHashes();
    ReverseTwo();
  }

  // ---------- a find that misses its key although every link is made on the list ----------

  /** A state that a schedule reaches whose links are all made on the list. */
  ghost predicate ReachableOnList(s: State) {
    exists steps :: LinksOnList(steps) && Run(steps) == s
  }

  lemma ReachOnList(s: State, step: Step, s': State)
    requires ReachableOnList(s) && Shape(s) && Apply(s, step) == s' && !LinksOffList(s, step)
    ensures ReachableOnList(s')
  {
    hide Apply, LinksOffList;
    var steps :| LinksOnList(steps) && Run(steps) == s;
    var longer := steps + [step];
    assert longer[..|longer| - 1] == steps;
    assert LinksOnList(longer) && Run(longer) == s';
  }

  /** Thread 0 makes the sentinel, 1 stores kb, 2 looks it up. */
  function Three(kb: Key, h: nat, a: Pc, b: Thread, c: Thread): seq<Thread> {
    [Thread(Install(h), a, 0, false), b, c]
  }

  function Finder(kb: Key): Thread { Thread(Lookup(kb), Begin, 0, false) }

  /** Line 287 has set the sentinel's successor. */
  function SetNotLinked(kb: Key, h: nat): State {
    State(Cells(h, END, END), Three(kb, h, SpliceSwap(2, HEAD, END), Fresh(kb), Finder(kb)))
  }

  lemma ThreeAreThere(kb: Key, h: nat)
    requires 0 < h <= HashOf(kb) < LAST
    ensures ReachableOnList(State(Init().cells, Three(kb, h, Begin, Fresh(kb), Finder(kb))))
  {
    hide HashOf;
    var s0 := Init();
    assert LinksOnList([]) && Run([]) == s0;
    var ts := Three(kb, h, Begin, Fresh(kb), Finder(kb));
    var s1 := s0.(threads := ts[..1]);
    ReachOnList(s0, Spawn(Install(h)), s1);
    var s2 := s0.(threads := ts[..2]);
    assert ts[..1] + [Fresh(kb)] == ts[..2];
    ReachOnList(s1, Spawn(Insert(kb)), s2);
    assert ts[..2] + [Finder(kb)] == ts;
    ReachOnList(s2, Spawn(Lookup(kb)), s0.(threads := ts));
  }

  lemma SetIsReached(kb: Key, h: nat)
    requires 0 < h <= HashOf(kb) < LAST
    ensures ReachableOnList(SetNotLinked(kb, h))
  {
    ThreeAreThere(kb, h);
    hide HashOf, ReachableOnList;
    var b, c := Fresh(kb), Finder(kb);
    var s0 := State(Init().cells, Three(kb, h, Begin, b, c));
    var s1 := State(Cells(h, END, HEAD), Three(kb, h, SpliceLoad(2, HEAD), b, c));
    ReachOnList(s0, Act(0, HEAD), s1);
    var s2 := s1.(threads := Three(kb, h, SpliceWalk(2, HEAD, END), b, c));
    ReachOnList(s1, Act(0, 0), s2);
    var s3 := s1.(threads := Three(kb, h, SpliceSet(2, HEAD, END), b, c));
    ReachOnList(s2, Act(0, 0), s3);
    ReachOnList(s3, Act(0, 0), SetNotLinked(kb, h));
  }

  /** kb has been stored behind the head, on the list. */
  function StoredBehindHead(kb: Key, h: nat, finder: Thread): State {
    State(Cells(h, 3, END) + [Cell(Some(kb), HashOf(kb), END, 1, true)],
          Three(kb, h, SpliceSwap(2, HEAD, END), Stored(kb, 3), finder))
  }

  lemma StoreIsOnList(kb: Key, h: nat)
    requires 0 < h <= HashOf(kb) < LAST
    ensures ReachableOnList(StoredBehindHead(kb, h, Finder(kb)))
  {
    SetIsReached(kb, h);
    hide HashOf, ReachableOnList;
    var c, pc := Finder(kb), SpliceSwap(2, HEAD, END);
    var s0 := SetNotLinked(kb, h);
    var s1 := s0.(threads := Three(kb, h, pc, Thread(Insert(kb), LoadFirst(HEAD), 3, false), c));
    ReachOnList(s0, Act(1, HEAD), s1);
    var s2 := s0.(threads := Three(kb, h, pc, Thread(Insert(kb), Walk(HEAD, HEAD, END), 3, false), c));
    ReachOnList(s1, Act(1, 0), s2);
    var s3 := s0.(threads := Three(kb, h, pc, Thread(Insert(kb), Match(HEAD, HEAD, END), 3, false), c));
    ReachOnList(s2, Act(1, 0), s3);
    var s4 := s0.(threads := Three(kb, h, pc, Thread(Insert(kb), Swap(HEAD, HEAD, END), 3, false), c));
    ReachOnList(s3, Act(1, 0), s4);
    ReachOnList(s4, Act(1, 0), StoredBehindHead(kb, h, c));
  }

  /** A find of kb that began after the store's HT_GOOD has said HT_NOT_FOUND. */
  ghost predicate MissedAfterGood(s: State, kb: Key)
    requires Shape(s)
  {
    && |s.threads| == 3 && |s.cells| == 4
    && s.threads[1].errand == Insert(kb) && s.threads[1].pc == Done(Good, 3) && s.cells[3].key == Some(kb)
    && s.threads[2].errand == Lookup(kb) && s.threads[2].pc == Done(NotFound, END) && s.threads[2].born == 4
  }

  /** Nothing is lost here, and yet a stored key is not found: for all keys, and all sentinels at or before the
      key, by a find that begins at the sentinel between lines 287 and 289. */
  lemma FindMissesOnList(kb: Key, h: nat)
    requires 0 < h <= HashOf(kb) < LAST
    ensures exists steps :: LinksOnList(steps) && MissedAfterGood(Run(steps), kb)
  {
    StoreIsOnList(kb, h);
    hide HashOf, ReachableOnList;
    var s0 := StoredBehindHead(kb, h, Finder(kb));
    var s1 := StoredBehindHead(kb, h, Thread(Lookup(kb), LoadFirst(2), 4, false));
    ReachOnList(s0, Act(2, 2), s1);
    assert s1.cells[3].key == Some(kb) && Less(s1.cells, 2, 3) && Less(s1.cells, 3, END);
    var s2 := StoredBehindHead(kb, h, Thread(Lookup(kb), Walk(2, 2, END), 4, true));
    ReachOnList(s1, Act(2, 0), s2);
    var s3 := StoredBehindHead(kb, h, Thread(Lookup(kb), Match(2, 2, END), 4, true));
    ReachOnList(s2, Act(2, 0), s3);
    var s4 := StoredBehindHead(kb, h, Thread(Lookup(kb), Done(NotFound, END), 4, true));
    ReachOnList(s3, Act(2, 0), s4);
    ReachedOnListBy(s4);
  }

  lemma ReachedOnListBy(s: State)
    requires ReachableOnList(s)
    ensures exists steps :: LinksOnList(steps) && Run(steps) == s
  {
  }

  // ---------- a link off the list that is not lost ----------

  /** The splice has taken kb's node along. */
  function TakenIn(kb: Key, kc: Key, h: nat): State {
    State([Cell(None, 0, 2, -1, true), Cell(None, LAST, END, -1, true), Cell(None, h, 3, 0, true),
           Cell(Some(kb), HashOf(kb), END, 1, true)],
          Threads(kb, kc, h, Done(Good, 2), Stored(kb, 3), Fresh(kc)))
  }

  lemma {:induction false} OffListBefore(kb: Key, kc: Key, h: nat, k: nat)
    ensures Nth(StoredOff(kb, kc, h).cells, HEAD, k) == if k == 0 then HEAD else END
    decreases k
  {
    hide HashOf;
    var cs := StoredOff(kb, kc, h).cells;
    if k > 0 { ConcurrentInsertLossTheorems.NthNext(cs, HEAD, k - 1); OffListBefore(kb, kc, h, k - 1); }
  }

  lemma StoredOffIsNotIntact(kb: Key, kc: Key, h: nat)
    ensures !Intact(StoredOff(kb, kc, h))
  {
    hide HashOf, Nth;
    var s := StoredOff(kb, kc, h);
    assert s.threads[1].pc == Done(Good, 3);
    forall k: nat
      ensures Nth(s.cells, HEAD, k) != 3
    {
      OffListBefore(kb, kc, h, k);
    }
  }

  lemma TakenInIsIntact(kb: Key, kc: Key, h: nat)
    ensures Intact(TakenIn(kb, kc, h))
  {
    hide HashOf;
    var cs := TakenIn(kb, kc, h).cells;
    assert Nth(cs, 2, 0) == 2 && Nth(cs, 3, 0) == 3;
    assert Nth(cs, HEAD, 1) == 2 && Nth(cs, 2, 1) == 3;
    assert Nth(cs, HEAD, 2) == 3;
  }

  /** A link behind a sentinel that is not in the list need not be overwritten, and then it is not lost. */
  lemma LinkIsTakenAlong(kb: Key, kc: Key, h: nat)
    requires Apart(kb, kc, h)
    ensures exists steps :: !LinksOnList(steps) && ConcurrentInsertLoss.NothingOverwritten(steps)
  {
    StoreBeginsThere(kb, kc, h);
    hide HashOf, Intact, LinksOnList, Apart;
    var steps :| Run(steps) == StoredOff(kb, kc, h);
    var longer := steps + [Act(0, 0)];
    assert longer[..|steps|] == steps;
    assert Run(longer) == TakenIn(kb, kc, h);
    hide Run, ConcurrentInsertLoss.NothingOverwritten;
    StoredOffIsNotIntact(kb, kc, h);
    NothingLostExactly(longer);
    TakenInIsIntact(kb, kc, h);
    ConcurrentInsertLossTheorems.WholeInTheEndExactly(longer);
  }
}
