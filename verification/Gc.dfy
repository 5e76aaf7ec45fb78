/** Epoch and working-set reclamation of lib/gc.c.

    Any number of users interleave with one collector (gc_run holds a mutex). One step is one atomic
    access of the C code, or one malloc with the store that publishes it. A disabled step leaves the
    state unchanged, so `Run` ranges over every schedule.

    Addresses are reused: `Link` may give a new object any address that is not allocated, and a
    working set any address that is not allocated. The free list is a map from object to stamp; whether
    the mark of gc.c:132-133 reaches the entry of that map is a parameter of the model, see Mark. */
module Gc {

  type Obj = nat   // 0 is the null pointer
  type Ptr = nat

  /** `usr->working_set`: the pointer and its low tag bit. */
  datatype Field = Null | At(p: Ptr, tagged: bool)

  /** Program points of a user. `Fetching` is everything between gc_lock and gc_commit. */
  datatype UserPc =
    | Resting
    | Fetching
    | Storing(o: Obj, stamp: nat)      // gc_free has read the counter, ht_store comes next
    | Committed                        // working set stored, pending still set
    | Using
    | Clearing(seen: Field)
    | Freeing(p: Ptr)                  // the free at the end of gc_clear

  /** `held` is a history variable: the references the user may still follow. */
  datatype User = User(pc: UserPc, pending: bool, field: Field, held: set<Obj>)

  /** Program points of gc_run. */
  datatype CollectorPc =
    | Waiting
    | Counting                         // user list loaded, counter not yet bumped
    | NextUser
    | AwaitPending
    | LoadSet
    | TagSet(seen: Field)
    | Scan(p: Ptr, k: nat)
    | Mark(p: Ptr, k: nat, o: Obj)
    | Untag(p: Ptr)
    | Sweep(due: set<Obj>, visited: set<Obj>)
    | Release(o: Obj, due: set<Obj>, visited: set<Obj>)

  /** Who is to free a working set. A history variable: no step reads it. */
  datatype Custody = InField(u: nat) | OfCollector | OfOwner(u: nat) | Leaked

  datatype WorkingSet = WorkingSet(members: seq<Obj>, custody: Custody)

  datatype State = State(
    counter: nat,                  // gc_state.used_ctr
    freeList: map<Obj, nat>,       // object to stamp
    table: set<Obj>,               // what a fetch can reach
    limbo: map<Obj, nat>,          // unlinked, not yet on the free list; by which user
    live: set<Obj>,                // allocated objects
    sets: map<Ptr, WorkingSet>,    // allocated working sets
    users: seq<User>,
    pc: CollectorPc,
    epoch: nat,                    // gc_run's local ctr
    next: nat,                     // users below this index have not been scanned in this run
    fault: bool,                   // a free of, or an access to, memory that is not allocated
    ownerFrees: bool,              // see FreeOwn
    marks: bool)                   // see Mark

  datatype Action =
    | Lock | Fetch(o: Obj) | Link(o: Obj) | Drop(o: Obj) | Unlink(os: set<Obj>)
    | ReadStamp(o: Obj) | Store
    | Commit(p: Ptr, members: seq<Obj>) | CommitNull | Unpend
    | LoadField | ClearField | FreeOwn

  datatype Step = Register | Act(u: nat, a: Action) | Collect(o: Obj)

  function Init(ownerFrees: bool, marks: bool): State {
    State(0, map[], {}, map[], {}, map[], [], Waiting, 0, 0, false, ownerFrees, marks)
  }

  function SetUser(s: State, u: nat, usr: User): State
    requires u < |s.users|
  {
    s.(users := s.users[u := usr])
  }

  /** From gc_lock on: what a user fetches, links and unlinks. */
  function FetchStep(s: State, u: nat, a: Action): State
    requires u < |s.users|
  {
    var usr := s.users[u];
    match a
    case Lock =>
      if usr.pc != Resting then s else SetUser(s, u, usr.(pc := Fetching, pending := true))
    case Fetch(o) =>
      if usr.pc != Fetching || o !in s.table then s else SetUser(s, u, usr.(held := usr.held + {o}))
    case Link(o) => // the user keeps the reference if its working set names it or may still name it
      if usr.pc !in {Fetching, Using} || o in s.live || o == 0 then s
      else
        var keeps := usr.pc == Fetching || (usr.field.At? && usr.field.p in s.sets
                     && o in s.sets[usr.field.p].members);
        SetUser(s, u, if keeps then usr.(held := usr.held + {o}) else usr).(
          table := s.table + {o}, live := s.live + {o})
    case Drop(o) =>
      if usr.pc != Fetching then s else SetUser(s, u, usr.(held := usr.held - {o}))
    case Unlink(os) =>
      if usr.pc != Fetching || !(os <= s.table) then s
      else s.(table := s.table - os, limbo := s.limbo + (map o | o in os :: u))
    case _ => s
  }

  /** gc_free */
  function RetireStep(s: State, u: nat, a: Action): State
    requires u < |s.users|
  {
    var usr := s.users[u];
    match a
    case ReadStamp(o) => // up to the read of used_ctr
      if usr.pc != Fetching || o !in s.limbo || s.limbo[o] != u then s
      else SetUser(s, u, usr.(pc := Storing(o, s.counter)))
    case Store => // ht_store keeps an entry that is already there
      if !usr.pc.Storing? then s
      else SetUser(s, u, usr.(pc := Fetching)).(
        freeList := if usr.pc.o in s.freeList then s.freeList else s.freeList[usr.pc.o := usr.pc.stamp],
        limbo := s.limbo - {usr.pc.o})
    case _ => s
  }

  /** gc_commit */
  function CommitStep(s: State, u: nat, a: Action): State
    requires u < |s.users|
  {
    var usr := s.users[u];
    match a
    case Commit(p, members) => // malloc and fill the working set, then the first store
      if || usr.pc != Fetching || p in s.sets || !(forall o | o in usr.held :: o in members)
         || (exists o | o in s.limbo :: s.limbo[o] == u)
      then s
      else SetUser(s, u, usr.(pc := Committed, field := At(p, false))).(
        sets := s.sets[p := WorkingSet(members, InField(u))])
    case CommitNull => // command_del commits NULL, holding nothing
      if usr.pc != Fetching || usr.held != {} || (exists o | o in s.limbo :: s.limbo[o] == u) then s
      else SetUser(s, u, usr.(pc := Committed, field := Null))
    case Unpend => // the second store
      if usr.pc != Committed then s
      else SetUser(s, u, usr.(pc := if usr.field == Null then Resting else Using, pending := false))
    case _ => s
  }

  /** gc_clear */
  function ClearStep(s: State, u: nat, a: Action): State
    requires u < |s.users|
  {
    var usr := s.users[u];
    match a
    case LoadField =>
      if usr.pc != Using then s else SetUser(s, u, usr.(pc := Clearing(usr.field)))
    case ClearField =>
      if !usr.pc.Clearing? then s
      else if usr.field != usr.pc.seen then SetUser(s, u, usr.(pc := Using))
      else if usr.field == Null then SetUser(s, u, usr.(pc := Resting, held := {}))
      else
        var p := usr.field.p;
        var cleared := usr.(pc := if usr.field.tagged then Resting else Freeing(p), field := Null, held := {});
        SetUser(s, u, cleared).(
          sets := if p in s.sets
                  then s.sets[p := s.sets[p].(custody := if usr.field.tagged then OfCollector else OfOwner(u))]
                  else s.sets)
    case FreeOwn =>
      // `free(usr->working_set)` reads the field after it became NULL, so it frees nothing and the
      // working set leaks. With ownerFrees it frees what the field held, as the branch is meant to.
      if !usr.pc.Freeing? then s
      else
        var p := usr.pc.p;
        var t := SetUser(s, u, usr.(pc := Resting));
        if s.ownerFrees then t.(sets := s.sets - {p}, fault := s.fault || p !in s.sets)
        else t.(sets := if p in s.sets then s.sets[p := s.sets[p].(custody := Leaked)] else s.sets)
    case _ => s
  }

  /** One step of a user. */
  function UserStep(s: State, u: nat, a: Action): State
    requires u < |s.users|
  {
    if a.ReadStamp? || a.Store? then RetireStep(s, u, a)
    else if a.Commit? || a.CommitNull? || a.Unpend? then CommitStep(s, u, a)
    else if a.LoadField? || a.ClearField? || a.FreeOwn? then ClearStep(s, u, a)
    else FetchStep(s, u, a)
  }

  predicate Current(s: State) { 0 < s.next <= |s.users| }

  /** gc_run up to the wait for the next user. */
  function StartStep(s: State): State {
    match s.pc
    case Waiting => s.(pc := Counting, next := |s.users|)
    case Counting => s.(pc := NextUser, epoch := s.counter, counter := s.counter + 1)
    case NextUser =>
      if s.next == 0 then s.(pc := Sweep(s.freeList.Keys, {})) else s.(pc := AwaitPending)
    case AwaitPending => if !Current(s) || s.users[s.next - 1].pending then s else s.(pc := LoadSet)
    case _ => s
  }

  /** The loop that tags the user's working set. */
  function TagStep(s: State): State {
    match s.pc
    case LoadSet => if !Current(s) then s else s.(pc := TagSet(s.users[s.next - 1].field))
    case TagSet(seen) =>
      if !Current(s) then s
      else if seen == Null then s.(pc := NextUser, next := s.next - 1)
      else
        var usr := s.users[s.next - 1];
        if usr.field == seen
        then SetUser(s, s.next - 1, usr.(field := At(seen.p, true))).(pc := Scan(seen.p, 0))
        else s.(pc := TagSet(usr.field))
    case _ => s
  }

  /** The loop over a working set, and its hand-back. */
  function ScanStep(s: State): State {
    match s.pc
    case Scan(p, k) =>
      if p !in s.sets then s.(fault := true)
      else if k >= |s.sets[p].members| then s.(pc := Untag(p))
      else
        var m := s.sets[p].members[k];
        if m == 0 || m !in s.freeList then s.(pc := Scan(p, k + 1)) else s.(pc := Mark(p, k, m))
    case Mark(p, k, m) =>
      // ht_find hands out the address of the value slot (hashtable.h:19-26), so `elem->used` lies behind the
      // list node and no stamp changes. With marks the store goes to the element, as it is meant to.
      if m !in s.freeList then s.(fault := true)
      else s.(freeList := if s.marks then s.freeList[m := s.epoch] else s.freeList, pc := Scan(p, k + 1))
    case Untag(p) =>
      if !Current(s) then s
      else
        var usr := s.users[s.next - 1];
        if usr.field == At(p, true)
        then SetUser(s, s.next - 1, usr.(field := At(p, false))).(pc := NextUser, next := s.next - 1)
        else s.(pc := NextUser, next := s.next - 1, sets := s.sets - {p}, fault := s.fault || p !in s.sets)
    case _ => s
  }

  /** The loop over the free list; `o` is the element it visits. */
  function SweepStep(s: State, o: Obj): State {
    match s.pc
    case Sweep(due, visited) =>
      if due <= visited && o !in s.freeList then s.(pc := Waiting)
      else if o !in s.freeList || o in visited then s
      else if s.freeList[o] < s.epoch
      then s.(freeList := s.freeList - {o}, pc := Release(o, due, visited + {o}))
      else s.(pc := Sweep(due, visited + {o}))
    case Release(x, due, visited) =>
      s.(pc := Sweep(due, visited), live := s.live - {x}, fault := s.fault || x !in s.live)
    case _ => s
  }

  /** One step of gc_run. */
  function CollectorStep(s: State, o: Obj): State {
    if s.pc.LoadSet? || s.pc.TagSet? then TagStep(s)
    else if s.pc.Scan? || s.pc.Mark? || s.pc.Untag? then ScanStep(s)
    else if s.pc.Sweep? || s.pc.Release? then SweepStep(s, o)
    else StartStep(s)
  }

  function Apply(s: State, step: Step): State {
    match step
    case Register => s.(users := s.users + [User(Resting, false, Null, {})])
    case Act(u, a) => if u < |s.users| then UserStep(s, u, a) else s
    case Collect(o) => CollectorStep(s, o)
  }

  function Run(s: State, steps: seq<Step>): State {
    if steps == [] then s else Apply(Run(s, steps[..|steps| - 1]), steps[|steps| - 1])
  }

  // ---------- the two steps after which an object may be freed while it is in use ----------

  /** The bump of gc.c:112 while a user that registered since the load of gc.c:109 is about to retire, with
      the old stamp, an object that a user registered after it holds: the next run scans the holder before
      it waits for the retirement. */
  predicate UnsafeBump(s: State) {
    s.pc == Counting && exists u, v | s.next <= u < v < |s.users| ::
      s.users[u].pc.Storing? && s.users[u].pc.o in s.users[v].held
  }

  /** o would be freed by the run in progress, unless it is marked first. */
  predicate Low(s: State, o: Obj) { o in s.freeList && s.freeList[o] < s.epoch }

  /** Where the mark does not reach the element: the scan of a working set is over, and its user still holds
      an object that this run will free. */
  predicate UnheededSet(s: State) {
    !s.marks && s.pc.Untag? && Current(s) && exists o | o in s.users[s.next - 1].held :: Low(s, o)
  }

  predicate Hazard(s: State, step: Step) { step.Collect? && (UnsafeBump(s) || UnheededSet(s)) }
}
