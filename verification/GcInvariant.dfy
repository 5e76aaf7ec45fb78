/** The inductive invariant of the reclamation protocol. */
module GcInvariant {
  import opened Gc

  predicate InRun(s: State) { s.pc != Waiting && s.pc != Counting }

  /** gc_run is past its wait for the current user. */
  predicate Waited(pc: CollectorPc) {
    pc.LoadSet? || pc.TagSet? || pc.Scan? || pc.Mark? || pc.Untag?
  }

  /** The working set the collector reads or is about to hand back. */
  predicate Reads(pc: CollectorPc, p: Ptr) {
    (pc.Scan? || pc.Mark? || pc.Untag?) && pc.p == p
  }

  predicate CollectorInv(s: State) {
    && (InRun(s) ==> s.counter == s.epoch + 1)
    && (s.pc == Counting ==> s.next <= |s.users|)
    && (InRun(s) ==> s.next <= |s.users|)
    && (s.pc == AwaitPending || Waited(s.pc) ==> 0 < s.next)
    && (s.pc.Sweep? || s.pc.Release? ==> s.next == 0)
  }

  /** An object is linked, or unlinked and about to be retired, or on the free list, or freed. */
  predicate Partition(table: set<Obj>, limbo: map<Obj, nat>, freeList: map<Obj, nat>, live: set<Obj>) {
    && table !! freeList.Keys && table !! limbo.Keys && limbo.Keys !! freeList.Keys
    && table <= live && limbo.Keys <= live && freeList.Keys <= live
    && 0 !in live
  }

  predicate ObjectInv(s: State) {
    && Partition(s.table, s.limbo, s.freeList, s.live)
    && (forall o | o in s.freeList :: s.freeList[o] <= s.counter)
    && (s.pc.Release? ==> s.pc.o in s.live && s.pc.o !in s.table && s.pc.o !in s.limbo && s.pc.o !in s.freeList)
  }

  predicate Tracked(s: State, o: Obj) { o in s.table || o in s.limbo || o in s.freeList }

  predicate UserOk(usr: User, table: set<Obj>, limbo: map<Obj, nat>, freeList: map<Obj, nat>,
          sets: map<Ptr, WorkingSet>) {
    && (usr.pending <==> usr.pc == Fetching || usr.pc.Storing? || usr.pc == Committed)
    && (forall o | o in usr.held :: o in table || o in limbo || o in freeList)
    && (usr.pc == Resting || usr.pc.Freeing? ==> usr.held == {} && usr.field == Null)
    && (usr.pc == Fetching || usr.pc.Storing? ==> usr.field == Null)
    && (usr.pc == Committed && usr.field == Null ==> usr.held == {})
    && (usr.pc == Using || usr.pc.Clearing? ==> usr.field.At?)
    && (usr.field.At? ==> usr.field.p in sets && forall o | o in usr.held :: o in sets[usr.field.p].members)
  }

  predicate UsersOk(users: seq<User>, table: set<Obj>, limbo: map<Obj, nat>, freeList: map<Obj, nat>,
          sets: map<Ptr, WorkingSet>) {
    forall u | 0 <= u < |users| :: UserOk(users[u], table, limbo, freeList, sets)
  }

  predicate UsersInv(s: State) {
    UsersOk(s.users, s.table, s.limbo, s.freeList, s.sets)
  }

  /** The least stamp that user u may still put on the free list. */
  function Floor(s: State, u: nat): nat {
    if !InRun(s) then s.counter
    else if u < s.next && !(Waited(s.pc) && u == s.next - 1) then s.epoch
    else s.epoch + 1
  }

  predicate LimboOk(users: seq<User>, limbo: map<Obj, nat>) {
    forall o | o in limbo ::
      limbo[o] < |users| && (users[limbo[o]].pc == Fetching || users[limbo[o]].pc.Storing?)
  }

  /** No user after u holds o. Since o is in limbo, none will. */
  predicate HeldBelow(users: seq<User>, u: nat, o: Obj) {
    forall v | u < v < |users| :: o !in users[v].held
  }

  /** A user that registered between the load and the bump of a run may be one behind. */
  predicate StampOk(s: State, u: nat)
    requires u < |s.users| && s.users[u].pc.Storing?
  {
    var o, stamp := s.users[u].pc.o, s.users[u].pc.stamp;
    || Floor(s, u) <= stamp <= s.counter
    || (stamp + 1 == Floor(s, u) && (s.pc == Counting ==> u < s.next) && HeldBelow(s.users, u, o))
  }

  predicate RetireInv(s: State) {
    && LimboOk(s.users, s.limbo)
    && (forall u | 0 <= u < |s.users| && s.users[u].pc.Storing? ::
          s.users[u].pc.o in s.limbo && s.limbo[s.users[u].pc.o] == u && StampOk(s, u))
  }

  /** Custody says who refers to an allocated working set; nothing else does. */
  predicate CustodyOk(s: State, p: Ptr)
    requires p in s.sets
  {
    match s.sets[p].custody
    case InField(u) => u < |s.users| && s.users[u].field.At? && s.users[u].field.p == p
    case OfCollector => Reads(s.pc, p)
    case OfOwner(u) => u < |s.users| && s.users[u].pc == Freeing(p)
    case Leaked => true
  }

  predicate SetInv(s: State) {
    && (forall p | p in s.sets :: CustodyOk(s, p))
    && (forall u | 0 <= u < |s.users| && s.users[u].field.At? ::
          var f := s.users[u].field;
          && f.p in s.sets && s.sets[f.p].custody == InField(u)
          && (f.tagged <==> Reads(s.pc, f.p) && u == s.next - 1))
    && (forall u | 0 <= u < |s.users| && s.users[u].pc.Freeing? ::
          s.users[u].pc.p in s.sets && s.sets[s.users[u].pc.p].custody == OfOwner(u))
    && (s.pc.Scan? || s.pc.Mark? || s.pc.Untag? ==>
          && s.pc.p in s.sets && 0 < s.next
          && (s.sets[s.pc.p].custody == OfCollector || s.sets[s.pc.p].custody == InField(s.next - 1)))
    && (s.pc.Scan? ==> s.pc.k <= |s.sets[s.pc.p].members|)
    && (s.pc.Mark? ==>
          && s.pc.k < |s.sets[s.pc.p].members| && s.sets[s.pc.p].members[s.pc.k] == s.pc.o && s.pc.o in s.freeList)
  }

  /** A doomed object that an already scanned user holds does not exist; one held by the user being
      scanned is still ahead of the scan. */
  predicate HoldOk(s: State, u: nat, o: Obj)
    requires u < |s.users|
  {
    Low(s, o) ==>
      && u < s.next
      && (u == s.next - 1 ==>
            match s.pc
            case LoadSet => s.users[u].field.At?
            case TagSet(seen) => seen != Null && s.users[u].field.At?
            case Scan(p, k) => s.marks ==> p in s.sets && k <= |s.sets[p].members| && o in s.sets[p].members[k..]
            case Mark(p, k, m) => s.marks ==> p in s.sets && k <= |s.sets[p].members| && o in s.sets[p].members[k..]
            case Untag(_) => !s.marks
            case _ => true)
  }

  predicate HoldInv(s: State) {
    && (InRun(s) ==> forall u, o | 0 <= u < |s.users| && o in s.users[u].held :: HoldOk(s, u, o))
    && (s.pc == Counting ==>
          forall u, o | 0 <= u < |s.users| && o in s.users[u].held && o in s.freeList ::
            s.freeList[o] < s.counter ==> u < s.next)
  }

  predicate Inv(s: State) {
    CollectorInv(s) && ObjectInv(s) && UsersInv(s) && RetireInv(s) && SetInv(s) && HoldInv(s) && !s.fault
  }
}
