/** The loss that lasts. A link behind a sentinel that is not in the list yet need not be lost: when line 289
    succeeds, the sentinel takes what hangs behind it along. Over all schedules, a node is cut off exactly when
    line 287 overwrites a `next` that another thread has changed since the splicing thread last wrote it. */
module ConcurrentInsertLoss {
  import opened Bytes
  import opened SplitOrder
  import opened HashTables
  import opened ConcurrentInsert
  import opened ConcurrentInsertTheorems

  /** History of the nodes: `left[u]` is what the thread that splices u last wrote into its `next`; `home[i]` is
      the head, or the sentinel not yet in the list behind which i has been linked (i itself, if i is one), or
      LOST when line 287 has overwritten the way to i. */
  datatype Trace = Trace(home: seq<int>, left: seq<nat>)

  const LOST: int := -1

  predicate Fits(s: State, tr: Trace) {
    Shape(s) && |tr.home| == |tr.left| == |s.cells|
  }

  /** The compare-and-swap of thread t succeeds. */
  predicate Succeeds(s: State, t: nat)
    requires Shape(s) && t < |s.threads| && (s.threads[t].pc.Swap? || s.threads[t].pc.SpliceSwap?)
  {
    s.cells[s.threads[t].pc.p].next == s.threads[t].pc.n
  }

  function Renamed(home: seq<int>, own: nat, h: int): seq<int> {
    seq(|home|, i requires 0 <= i < |home| => if home[i] == own then h else home[i])
  }

  /** What hangs behind own is cut off. */
  function SetTrace(tr: Trace, own: nat, n: nat): (r: Trace)
    requires own < |tr.left|
    ensures |r.home| == |tr.home| && |r.left| == |tr.left|
  {
    Trace(seq(|tr.home|, i requires 0 <= i < |tr.home| => if tr.home[i] == own != i then LOST else tr.home[i]),
          tr.left[own := n])
  }

  /** own and what hangs behind it get the home of p. */
  function SpliceTrace(tr: Trace, p: nat, own: nat): (r: Trace)
    requires p < |tr.home|
    ensures |r.home| == |tr.home| && r.left == tr.left
  {
    tr.(home := Renamed(tr.home, own, tr.home[p]))
  }

  function Traced(s: State, tr: Trace, step: Step): (r: Trace)
    requires Fits(s, tr)
    ensures Fits(Apply(s, step), r)
  {
    if step.Spawn? || step.t >= |s.threads| then tr
    else
      var th := s.threads[step.t];
      match th.pc
      case Begin =>
        if BeginStep(s, step.t, step.start).cells == s.cells then tr
        else Trace(tr.home + [|s.cells|], tr.left + [step.start])
      case Swap(_, p, n) => if Succeeds(s, step.t) then Trace(tr.home + [tr.home[p]], tr.left + [n]) else tr
      case SpliceSet(own, _, n) => if th.errand.Install? then SetTrace(tr, own, n) else tr
      case SpliceSwap(own, p, _) =>
        if th.errand.Install? && Succeeds(s, step.t) then SpliceTrace(tr, p, own) else tr
      case _ => tr
  }

  function TraceOf(steps: seq<Step>): (tr: Trace)
    ensures Fits(Run(steps), tr)
  {
    if steps == [] then Trace([HEAD, HEAD], [END, END])
    else Traced(Run(steps[..|steps| - 1]), TraceOf(steps[..|steps| - 1]), steps[|steps| - 1])
  }

  /** Line 287 overwrites what another thread has put behind the sentinel. */
  predicate Overwrites(s: State, tr: Trace, step: Step)
    requires Fits(s, tr)
  {
    step.Act? && step.t < |s.threads| && s.threads[step.t].errand.Install? &&
    var pc := s.threads[step.t].pc;
    pc.SpliceSet? && s.cells[pc.own].next != tr.left[pc.own]
  }

  ghost predicate NothingOverwritten(steps: seq<Step>) {
    steps == [] ||
    (var before, last := steps[..|steps| - 1], steps[|steps| - 1];
     NothingOverwritten(before) && !Overwrites(Run(before), TraceOf(before), last))
  }

  /** Following `next` from u leads to x before it leads to what the splicing thread left there. */
  ghost predicate HangsBehind(cs: seq<Cell>, left: seq<nat>, u: nat, x: nat)
    requires Closed(cs) && |left| == |cs| && u < |cs|
  {
    exists k: nat :: k > 0 && Nth(cs, u, k) == x && forall j: nat | 0 < j <= k :: Nth(cs, u, j) != left[u]
  }

  /** x is on the list, or hangs behind a sentinel that is in its slot and will take it there. */
  ghost predicate OnItsWay(cs: seq<Cell>, left: seq<nat>, x: nat)
    requires Closed(cs) && |left| == |cs|
  {
    OnList(cs, x) || exists u: nat :: u < |cs| && !cs[u].linked && HangsBehind(cs, left, u, x)
  }

  /** No node for which a store has answered HT_GOOD, and no sentinel whose splice is done, is cut off. */
  ghost predicate NothingCutOff(s: State, tr: Trace)
    requires Fits(s, tr)
  {
    forall t | 0 <= t < |s.threads| && !s.threads[t].errand.Lookup? && s.threads[t].pc.Done?
               && s.threads[t].pc.status == Good :: OnItsWay(s.cells, tr.left, s.threads[t].pc.node)
  }

  // ---------- the invariant, for links anywhere ----------

  predicate CellAt(cs: seq<Cell>, i: nat)
    requires Closed(cs) && i < |cs|
  {
    var n := cs[i].next;
    if cs[i].linked then i != END ==> cs[n].linked && Less(cs, i, n)
    else cs[i].key.None? && 0 < cs[i].hash < LAST && (cs[n].linked || cs[n].hash < cs[i].hash)
  }

  predicate EndsOk(cs: seq<Cell>)
    requires Closed(cs)
  {
    && cs[HEAD].key.None? && cs[HEAD].hash == 0 && cs[HEAD].linked
    && cs[END].key.None? && cs[END].hash == LAST && cs[END].next == END && cs[END].linked
  }

  predicate SentinelsDiffer(cs: seq<Cell>) {
    forall i, j | 0 <= i < j < |cs| && cs[i].key.None? && cs[j].key.None? :: cs[i].hash != cs[j].hash
  }

  predicate CellsInv(cs: seq<Cell>)
    requires Closed(cs)
  {
    EndsOk(cs) && SentinelsDiffer(cs) && forall i | 0 <= i < |cs| :: CellAt(cs, i)
  }

  /** h is the head or no sentinel at all, or one below the given hash. */
  predicate Below(cs: seq<Cell>, h: int, hash: nat) {
    h == HEAD || h == LOST || (0 <= h < |cs| && cs[h].hash < hash)
  }

  predicate HomeAt(cs: seq<Cell>, tr: Trace, i: nat)
    requires |tr.home| == |tr.left| == |cs| && i < |cs|
  {
    var h := tr.home[i];
    if cs[i].linked then h == HEAD || h == LOST || (0 <= h < |cs| && !cs[h].linked && cs[h].hash <= cs[i].hash)
    else h == i && tr.left[i] < |cs| && Below(cs, tr.home[tr.left[i]], cs[i].hash)
  }

  predicate HomeInv(cs: seq<Cell>, tr: Trace)
    requires Closed(cs) && |tr.home| == |tr.left| == |cs|
  {
    tr.home[HEAD] == HEAD && tr.home[END] == HEAD && forall i | 0 <= i < |cs| :: HomeAt(cs, tr, i)
  }

  /** `next` stays at home, or ends the segment of its home. */
  predicate EdgeAt(cs: seq<Cell>, tr: Trace, i: nat)
    requires Closed(cs) && |tr.home| == |tr.left| == |cs| && i < |cs|
  {
    var h, n := tr.home[i], cs[i].next;
    if h == HEAD then tr.home[n] == HEAD
    else if h == LOST then Below(cs, tr.home[n], cs[i].hash + 1)
    else 0 <= h < |cs| && ((cs[n].linked && tr.home[n] == h) || n == tr.left[h])
  }

  predicate EdgeInv(cs: seq<Cell>, tr: Trace)
    requires Closed(cs) && |tr.home| == |tr.left| == |cs|
  {
    forall i | 0 <= i < |cs| :: EdgeAt(cs, tr, i)
  }

  ghost predicate Precedes(cs: seq<Cell>, tr: Trace, y: nat, x: nat)
    requires Closed(cs) && |tr.home| == |cs| && x < |cs|
  {
    y < |cs| && cs[y].next == x && tr.home[y] == tr.home[x] && Less(cs, y, x)
  }

  ghost predicate EndsSegment(cs: seq<Cell>, tr: Trace, z: nat, u: nat)
    requires Closed(cs) && |tr.home| == |tr.left| == |cs| && u < |cs|
  {
    z < |cs| && tr.home[z] == u && cs[z].next == tr.left[u]
  }

  /** Every linked node that is not lost has one in front of it at home, and every segment an end. */
  ghost predicate PathInv(cs: seq<Cell>, tr: Trace)
    requires Closed(cs) && |tr.home| == |tr.left| == |cs|
  {
    && (forall x | 0 <= x < |cs| && cs[x].linked && x != HEAD && tr.home[x] != LOST ::
          exists y: nat :: Precedes(cs, tr, y, x))
    && (forall u | 0 <= u < |cs| && !cs[u].linked :: exists z: nat :: EndsSegment(cs, tr, z, u))
  }

  predicate OwnerOk(c: Cell, i: nat, ts: seq<Thread>) {
    i == HEAD || i == END ||
    (&& 0 <= c.owner < |ts| && !ts[c.owner].errand.Lookup?
     && (if c.linked then ts[c.owner].pc == Done(Good, i)
         else ts[c.owner].errand == Install(c.hash) && Splices(ts[c.owner].pc, i)))
  }

  /** Line 287 has given the sentinel a successor. */
  predicate SetAhead(cs: seq<Cell>, own: nat)
    requires own < |cs|
  {
    var n := cs[own].next;
    n < |cs| && cs[n].linked && cs[own].hash <= cs[n].hash
  }

  predicate ThreadClaim(cs: seq<Cell>, tr: Trace, th: Thread, t: nat)
    requires |tr.home| == |tr.left| == |cs| && PcShape(th.errand, th.pc, |cs|)
  {
    var hash := HashFor(th.errand);
    && 0 < hash < LAST
    && match th.pc
       case Begin => true
       case LoadFirst(op) => cs[op].hash <= hash
       case Walk(op, p, n) => cs[op].hash <= hash && cs[p].hash <= hash && (cs[n].linked || cs[n].hash < hash)
       case Match(op, p, n) => cs[op].hash <= hash && cs[p].hash <= hash <= cs[n].hash && cs[n].linked
       case Swap(op, p, n) =>
         th.errand.Insert? && cs[op].hash <= hash && cs[p].hash <= hash < cs[n].hash && cs[n].linked
       case SpliceLoad(own, p) => th.errand.Install? && OwnOk(cs, own, t, hash) && cs[p].hash < hash
       case SpliceWalk(own, p, n) =>
         && th.errand.Install? && OwnOk(cs, own, t, hash) && cs[p].hash < hash
         && (cs[n].linked || cs[n].hash < hash) && Below(cs, tr.home[n], hash)
       case SpliceSet(own, p, n) =>
         && th.errand.Install? && OwnOk(cs, own, t, hash) && cs[p].hash < hash <= cs[n].hash
         && cs[n].linked && Below(cs, tr.home[n], hash)
       case SpliceSwap(own, p, n) =>
         && th.errand.Install? && OwnOk(cs, own, t, hash) && cs[p].hash < hash <= cs[n].hash
         && cs[n].linked && tr.left[own] == n && SetAhead(cs, own)
       case Done(status, node) => status == Good && !th.errand.Lookup? ==> cs[node].linked
  }

  ghost predicate LossInv(s: State, tr: Trace) {
    && Fits(s, tr) && CellsInv(s.cells) && HomeInv(s.cells, tr) && EdgeInv(s.cells, tr) && PathInv(s.cells, tr)
    && (forall i | 0 <= i < |s.cells| :: OwnerOk(s.cells[i], i, s.threads))
    && (forall t | 0 <= t < |s.threads| :: ThreadClaim(s.cells, tr, s.threads[t], t))
  }
}
