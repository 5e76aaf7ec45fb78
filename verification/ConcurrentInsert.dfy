/** Lock-free insertion into the split-ordered list (ht_store, ht_find) and the splicing of new sentinels
    (the create branch of ht_get_sentinel): any number of threads, one access to a `next` field per step.
    Nothing is deleted.

    A new sentinel is put into its bucket slot first and linked into the list later. In between it can be
    the start of other threads' walks, although no list node points at it. */
module ConcurrentInsert {
  import opened Bytes
  import opened SplitOrder
  import opened HashTables

  /** A node is named by the order of its creation. History variables: `owner` is the thread that made it,
      `linked` says that the compare-and-swap which links it has succeeded. */
  datatype Cell = Cell(key: Option<Key>, hash: nat, next: nat, owner: int, linked: bool)

  /** ht_store, ht_find, and the making of the sentinel with the given hash. */
  datatype Errand = Insert(key: Key) | Lookup(key: Key) | Install(hash: nat)

  datatype Pc =
    | Begin
    | LoadFirst(start: nat)              // n = p->next with p the sentinel (also after a failed swap)
    | Walk(start: nat, p: nat, n: nat)   // while (key_hash > n->key_hash)
    | Match(start: nat, p: nat, n: nat)  // while (n->key_hash == key_hash)
    | Swap(start: nat, p: nat, n: nat)
    | SpliceLoad(own: nat, p: nat)          // next = prev->next (also after a failed swap)
    | SpliceWalk(own: nat, p: nat, n: nat)  // while (next->key_hash < nnode->key_hash)
    | SpliceSet(own: nat, p: nat, n: nat)   // nnode->next = next
    | SpliceSwap(own: nat, p: nat, n: nat)
    | Done(status: Status, node: nat)

  /** History variables: `born` is how many nodes there were when the thread began; `missed` says that it has
      stepped over one of them that carries its key. */
  datatype Thread = Thread(errand: Errand, pc: Pc, born: nat, missed: bool)

  datatype State = State(cells: seq<Cell>, threads: seq<Thread>)

  /** Spawn starts a thread, Act moves thread t; `start` is the sentinel that the bucket directory hands
      out: the start of a walk, or the parent of a new sentinel. */
  datatype Step = Spawn(errand: Errand) | Act(t: nat, start: nat)

  const HEAD: nat := 0
  const END: nat := 1

  function Init(): State {
    State([Cell(None, 0, END, -1, true), Cell(None, LAST, END, -1, true)], [])
  }

  function HashFor(errand: Errand): nat {
    match errand
    case Insert(key) => HashOf(key)
    case Lookup(key) => HashOf(key)
    case Install(hash) => hash
  }

  predicate Closed(cs: seq<Cell>) {
    |cs| >= 2 && forall i | 0 <= i < |cs| :: cs[i].next < |cs|
  }

  predicate Shape(s: State) {
    Closed(s.cells) && forall t | 0 <= t < |s.threads| :: PcShape(s.threads[t].errand, s.threads[t].pc, |s.cells|)
  }

  predicate PcShape(errand: Errand, pc: Pc, n: nat) {
    match pc
    case Begin => true
    case LoadFirst(a) => !errand.Install? && a < n
    case Walk(a, b, c) => !errand.Install? && a < n && b < n && c < n
    case Match(a, b, c) => !errand.Install? && a < n && b < n && c < n
    case Swap(a, b, c) => !errand.Install? && a < n && b < n && c < n
    case SpliceLoad(a, b) => a < n && b < n
    case SpliceWalk(a, b, c) => a < n && b < n && c < n
    case SpliceSet(a, b, c) => a < n && b < n && c < n
    case SpliceSwap(a, b, c) => a < n && b < n && c < n
    case Done(_, a) => a < n
  }

  /** The place of a node in the list: by hash, sentinels before keys, keys by age. */
  predicate Less(cs: seq<Cell>, a: nat, b: nat)
    requires a < |cs| && b < |cs|
  {
    || cs[a].hash < cs[b].hash
    || (cs[a].hash == cs[b].hash && cs[a].key.None? && cs[b].key.Some?)
    || (cs[a].hash == cs[b].hash && (cs[a].key.None? <==> cs[b].key.None?) && a < b)
  }

  /** A sentinel that starts with `next` at its parent has been given its successor, but is not linked. */
  predicate Astray(cs: seq<Cell>, a: nat)
    requires a < |cs| && cs[a].next < |cs|
  {
    !cs[a].linked && cs[a].hash <= cs[cs[a].next].hash
  }

  function Goto(s: State, t: nat, pc: Pc): State
    requires t < |s.threads|
  {
    s.(threads := s.threads[t := s.threads[t].(pc := pc)])
  }

  /** A node of the key, older than `born`, stands between a and what a points at. */
  predicate Skips(cs: seq<Cell>, key: Key, born: nat, a: nat)
    requires a < |cs| && cs[a].next < |cs|
  {
    exists x | 0 <= x < |cs| && x < born :: cs[x].key == Some(key) && Less(cs, a, x) && Less(cs, x, cs[a].next)
  }

  /** A key's thread loads a->next and goes to pc. */
  function Load(s: State, t: nat, key: Key, a: nat, pc: Pc): State
    requires t < |s.threads| && a < |s.cells| && s.cells[a].next < |s.cells|
  {
    var th := s.threads[t];
    s.(threads := s.threads[t := th.(pc := pc, missed := th.missed || Skips(s.cells, key, th.born, a))])
  }

  /** The successful compare-and-swap that puts cell i behind cell p. */
  function Join(cs: seq<Cell>, p: nat, i: nat): seq<Cell>
    requires p < |cs| && i < |cs|
  {
    var ds := cs[p := cs[p].(next := i)];
    ds[i := ds[i].(linked := true)]
  }

  predicate SlotEmpty(cs: seq<Cell>, hash: nat) {
    forall i | 0 <= i < |cs| :: cs[i].key.None? ==> cs[i].hash != hash
  }

  /** The first step: the bucket directory hands out a sentinel; a new one goes into its empty slot. */
  function BeginStep(s: State, t: nat, start: nat): (r: State)
    requires Shape(s) && t < |s.threads| && s.threads[t].pc.Begin?
    ensures Shape(r) && |r.threads| == |s.threads|
  {
    var th, n, hash := s.threads[t], |s.cells|, HashFor(s.threads[t].errand);
    if !(start < n && s.cells[start].key.None?) then s
    else if th.errand.Install? then
      if s.cells[start].hash < hash && SlotEmpty(s.cells, hash)
      then State(s.cells + [Cell(None, hash, start, t, false)], s.threads[t := th.(pc := SpliceLoad(n, start))])
      else s
    else if s.cells[start].hash <= hash then s.(threads := s.threads[t := th.(pc := LoadFirst(start), born := n)])
    else s
  }

  /** A store or find moves along the list. */
  function KeyStep(s: State, t: nat, key: Key): (r: State)
    requires Shape(s) && t < |s.threads|
    ensures Shape(r) && |r.threads| == |s.threads|
  {
    var hash := HashOf(key);
    var inserts := s.threads[t].errand.Insert?;
    match s.threads[t].pc
    case LoadFirst(op) => Load(s, t, key, op, Walk(op, op, s.cells[op].next))
    case Walk(op, p, n) =>
      if hash > s.cells[n].hash then Load(s, t, key, n, Walk(op, n, s.cells[n].next)) else Goto(s, t, Match(op, p, n))
    case Match(op, p, n) =>
      if s.cells[n].hash == hash then
        if s.cells[n].key == Some(key) then Goto(s, t, Done(if inserts then DuplicateKey else Good, n))
        else Load(s, t, key, n, Match(op, n, s.cells[n].next))
      else if inserts then Goto(s, t, Swap(op, p, n)) else Goto(s, t, Done(NotFound, n))
    case Swap(op, p, n) =>
      if s.cells[p].next == n then
        var made := s.cells + [Cell(Some(key), hash, n, t, false)];
        Goto(s.(cells := Join(made, p, |s.cells|)), t, Done(Good, |s.cells|))
      else Goto(s, t, LoadFirst(op))
    case _ => s
  }

  /** The loop that splices a new sentinel in. */
  function SpliceStep(s: State, t: nat): (r: State)
    requires Shape(s) && t < |s.threads|
    ensures Shape(r) && |r.threads| == |s.threads|
  {
    match s.threads[t].pc
    case SpliceLoad(own, p) => Goto(s, t, SpliceWalk(own, p, s.cells[p].next))
    case SpliceWalk(own, p, n) =>
      if s.cells[n].hash < s.cells[own].hash then Goto(s, t, SpliceWalk(own, n, s.cells[n].next))
      else Goto(s, t, SpliceSet(own, p, n))
    case SpliceSet(own, p, n) =>
      Goto(s.(cells := s.cells[own := s.cells[own].(next := n)]), t, SpliceSwap(own, p, n))
    case SpliceSwap(own, p, n) =>
      if s.cells[p].next == n then Goto(s.(cells := Join(s.cells, p, own)), t, Done(Good, own))
      else Goto(s, t, SpliceLoad(own, p))
    case _ => s
  }

  function ThreadStep(s: State, t: nat, start: nat): (r: State)
    requires Shape(s) && t < |s.threads|
    ensures Shape(r) && |r.threads| == |s.threads|
  {
    if s.threads[t].pc.Begin? then BeginStep(s, t, start)
    else match s.threads[t].errand
      case Insert(key) => KeyStep(s, t, key)
      case Lookup(key) => KeyStep(s, t, key)
      case Install(_) => SpliceStep(s, t)
  }

  function Apply(s: State, step: Step): (r: State)
    requires Shape(s)
    ensures Shape(r)
  {
    match step
    case Spawn(errand) =>
      if 0 < HashFor(errand) < LAST then s.(threads := s.threads + [Thread(errand, Begin, 0, false)]) else s
    case Act(t, start) => if t < |s.threads| then ThreadStep(s, t, start) else s
  }

  /** Any interleaving of any number of threads. */
  function Run(steps: seq<Step>): (s: State)
    ensures Shape(s)
  {
    if steps == [] then Init() else Apply(Run(steps[..|steps| - 1]), steps[|steps| - 1])
  }

  /** The node behind which the thread's next step links its own. */
  predicate LinksAt(s: State, step: Step, p: nat)
    requires Shape(s)
  {
    step.Act? && step.t < |s.threads| &&
    var pc := s.threads[step.t].pc;
    (pc.Swap? || pc.SpliceSwap?) && pc.p == p && s.cells[p].next == pc.n
  }

  /** The step links behind a sentinel that is in its slot and not yet in the list. */
  predicate LinksOffList(s: State, step: Step)
    requires Shape(s)
  {
    exists p :: 0 <= p < |s.cells| && LinksAt(s, step, p) && !s.cells[p].linked
  }

  // ---------- the invariant ----------

  /** Over the linked nodes `next` is the successor in the order of the list; the end node is last and
      points at itself. */
  predicate ListInv(cs: seq<Cell>)
    requires Closed(cs)
  {
    && cs[HEAD].key.None? && cs[HEAD].hash == 0 && cs[HEAD].linked
    && cs[END].key.None? && cs[END].hash == LAST && cs[END].next == END && cs[END].linked
    && (forall i | 0 <= i < |cs| && cs[i].linked && i != END ::
          Less(cs, i, END) && cs[cs[i].next].linked && Less(cs, i, cs[i].next))
    && (forall i | 0 <= i < |cs| && cs[i].linked && i != HEAD :: Less(cs, HEAD, i))
    && (forall i, j | 0 <= i < |cs| && 0 <= j < |cs| && cs[i].linked && cs[j].linked && i != END && Less(cs, i, j) ::
          j == cs[i].next || Less(cs, cs[i].next, j))
  }

  /** No key between a and b but of a smaller hash than b's: who steps from a to b misses no key that is
      still to come. */
  predicate NoKeySkipped(cs: seq<Cell>, a: nat, b: nat)
    requires a < |cs| && b < |cs|
  {
    forall x | 0 <= x < |cs| && cs[x].key.Some? && Less(cs, a, x) && Less(cs, x, b) :: cs[x].hash < cs[b].hash
  }

  /** A sentinel in its slot points up at its parent or, after line 287, at its successor as it was. */
  predicate UnlinkedInv(cs: seq<Cell>)
    requires Closed(cs)
  {
    forall i | 0 <= i < |cs| && !cs[i].linked ::
      && (if cs[cs[i].next].hash < cs[i].hash then cs[cs[i].next].key.None? else cs[cs[i].next].linked)
      && NoKeySkipped(cs, i, cs[i].next)
  }

  predicate NothingTwice(cs: seq<Cell>) {
    forall i, j | 0 <= i < j < |cs| ::
      && (cs[i].key.Some? ==> cs[i].key != cs[j].key)
      && (cs[i].key.None? && cs[j].key.None? ==> cs[i].hash != cs[j].hash)
  }

  predicate Splices(pc: Pc, own: nat) {
    (pc.SpliceLoad? || pc.SpliceWalk? || pc.SpliceSet? || pc.SpliceSwap?) && pc.own == own
  }

  /** A key node was put there by the one thread that got HT_GOOD for it; a sentinel not yet linked is in
      the hands of the one thread that splices it. */
  predicate CellOk(c: Cell, i: nat, ts: seq<Thread>) {
    && (c.key.Some? ==>
          && c.linked && c.hash == HashOf(c.key.value) && 0 < c.hash < LAST
          && 0 <= c.owner < |ts| && ts[c.owner].errand == Insert(c.key.value) && ts[c.owner].pc == Done(Good, i))
    && (!c.linked ==>
          && 0 < c.hash < LAST
          && 0 <= c.owner < |ts| && ts[c.owner].errand == Install(c.hash) && Splices(ts[c.owner].pc, i))
  }

  /** Where a walking thread stands: its key is nowhere up to p, and stepping to n skips none of it. */
  predicate WalkOk(cs: seq<Cell>, key: Key, p: nat, n: nat)
    requires p < |cs| && n < |cs|
  {
    && cs[p].hash <= HashOf(key) && NoKeySkipped(cs, p, n)
    && (cs[n].linked || cs[n].hash < HashOf(key))
    && (forall x | 0 <= x < |cs| && cs[x].key == Some(key) :: Less(cs, p, x))
  }

  /** Of the nodes that were there when the thread began, none of its key is skipped at all. */
  predicate NoneMissed(cs: seq<Cell>, key: Key, born: nat, n: nat)
    requires n < |cs|
  {
    forall x | 0 <= x < |cs| && x < born && cs[x].key == Some(key) :: x == n || Less(cs, n, x)
  }

  /** A node of the key was there when the thread began. */
  predicate WasThere(cs: seq<Cell>, key: Key, born: nat) {
    exists x | 0 <= x < |cs| && x < born :: cs[x].key == Some(key)
  }

  /** What `missed` means for a thread that looks at n: without it none of the key's nodes is skipped; with it
      one is, and the walk of a find is about to end in front of n. */
  predicate MissedOk(cs: seq<Cell>, th: Thread, key: Key, n: nat)
    requires n < |cs|
  {
    && (!th.missed ==> NoneMissed(cs, key, th.born, n))
    && (th.missed && th.errand.Lookup? ==> HashOf(key) < cs[n].hash && WasThere(cs, key, th.born))
  }

  predicate StartOk(cs: seq<Cell>, key: Key, op: nat)
    requires op < |cs|
  {
    cs[op].key.None? && cs[op].hash <= HashOf(key)
  }

  predicate KeyThreadOk(cs: seq<Cell>, th: Thread, t: nat, key: Key)
    requires PcShape(th.errand, th.pc, |cs|)
  {
    var hash := HashOf(key);
    match th.pc
    case Begin => !th.missed
    case LoadFirst(op) => StartOk(cs, key, op) && (th.errand.Lookup? ==> !th.missed)
    case Walk(op, p, n) =>
      StartOk(cs, key, op) && WalkOk(cs, key, p, n) && MissedOk(cs, th, key, n)
    case Match(op, p, n) =>
      StartOk(cs, key, op) && WalkOk(cs, key, p, n) && MissedOk(cs, th, key, n) && hash <= cs[n].hash
    case Swap(op, p, n) => th.errand.Insert? && StartOk(cs, key, op) && WalkOk(cs, key, p, n) && hash < cs[n].hash
    case Done(status, node) =>
      (match status
       case Good => cs[node].key == Some(key) && (if th.errand.Insert? then cs[node].owner == t else !th.missed)
       case DuplicateKey => th.errand.Insert? && cs[node].key == Some(key)
       case NotFound => th.errand.Lookup? && (th.missed <==> WasThere(cs, key, th.born))
       case BadArgs => false)
    case _ => false
  }

  predicate OwnOk(cs: seq<Cell>, own: nat, t: nat, hash: nat)
    requires own < |cs|
  {
    cs[own].key.None? && cs[own].hash == hash && !cs[own].linked && cs[own].owner == t
  }

  predicate SpliceThreadOk(cs: seq<Cell>, th: Thread, t: nat, hash: nat)
    requires PcShape(th.errand, th.pc, |cs|)
  {
    match th.pc
    case Begin => true
    case SpliceLoad(own, p) => OwnOk(cs, own, t, hash) && cs[p].hash < hash
    case SpliceWalk(own, p, n) =>
      OwnOk(cs, own, t, hash) && cs[p].hash < hash && NoKeySkipped(cs, p, n) && (cs[n].linked || cs[n].hash < hash)
    case SpliceSet(own, p, n) =>
      OwnOk(cs, own, t, hash) && cs[p].hash < hash && NoKeySkipped(cs, p, n) && cs[n].linked && hash <= cs[n].hash
    case SpliceSwap(own, p, n) => OwnOk(cs, own, t, hash) && cs[p].hash < hash <= cs[n].hash && cs[own].next == n
    case Done(status, node) =>
      status == Good && cs[node].key.None? && cs[node].hash == hash && cs[node].linked
    case _ => false
  }

  predicate ThreadOk(cs: seq<Cell>, th: Thread, t: nat)
    requires PcShape(th.errand, th.pc, |cs|)
  {
    && 0 < HashFor(th.errand) < LAST && th.born <= |cs|
    && match th.errand
       case Insert(key) => KeyThreadOk(cs, th, t, key)
       case Lookup(key) => KeyThreadOk(cs, th, t, key)
       case Install(hash) => SpliceThreadOk(cs, th, t, hash)
  }

  predicate Inv(s: State) {
    && Shape(s) && ListInv(s.cells) && UnlinkedInv(s.cells) && NothingTwice(s.cells)
    && (forall i | 0 <= i < |s.cells| :: CellOk(s.cells[i], i, s.threads))
    && (forall t | 0 <= t < |s.threads| :: ThreadOk(s.cells, s.threads[t], t))
  }
}
