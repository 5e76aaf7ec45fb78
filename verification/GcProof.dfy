/** Every step keeps the invariant; safe reclamation, working-set hand-off and delay follow. */
module GcProof {
  import opened Gc
  import opened GcFrame
  import opened GcInvariant

  // ---------- user steps ----------

  /** A step that rewrites one user's record and nothing else. */
  predicate RecordOk(s: State, u: nat, usr: User) {
    && u < |s.users| && UserOk(usr, s.table, s.limbo, s.freeList, s.sets) && usr.field == s.users[u].field
    && !usr.pc.Freeing? && !s.users[u].pc.Freeing?
    && (forall o | o in usr.held :: o in s.users[u].held || o in s.table)
    && (forall o | o in s.limbo && s.limbo[o] == u :: usr.pc == Fetching || usr.pc.Storing?)
    && (usr.pc.Storing? ==>
          usr.pc.o in s.limbo && s.limbo[usr.pc.o] == u && StampOk(SetUser(s, u, usr), u))
  }

  lemma RecordKeepsObjects(s: State, u: nat, usr: User)
    requires Inv(s) && RecordOk(s, u, usr)
    ensures CollectorInv(SetUser(s, u, usr))
    ensures ObjectInv(SetUser(s, u, usr))
    ensures UsersInv(SetUser(s, u, usr))
  {
    hide Partition, SetInv, HoldInv, RetireInv;
  }

  /** What is in limbo can no longer be fetched. */
  lemma RecordKeepsBelow(s: State, u: nat, usr: User, v: nat)
    requires Inv(s) && RecordOk(s, u, usr) && v < |s.users| && v != u && s.users[v].pc.Storing?
    ensures StampOk(SetUser(s, u, usr), v)
  {
    hide SetInv, HoldInv, UsersInv, CollectorInv;
    var o := s.users[v].pc.o;
    assert o in s.limbo && o !in s.table && StampOk(s, v);
    hide Partition, LimboOk;
  }

  lemma RecordKeepsRetire(s: State, u: nat, usr: User)
    requires Inv(s) && RecordOk(s, u, usr)
    ensures RetireInv(SetUser(s, u, usr))
  {
    hide Partition, SetInv, HoldInv, UsersInv, StampOk, CollectorInv;
    forall v | 0 <= v < |s.users| && v != u && s.users[v].pc.Storing?
      ensures StampOk(SetUser(s, u, usr), v)
    {
      RecordKeepsBelow(s, u, usr, v);
    }
  }

  lemma RecordKeepsSets(s: State, u: nat, usr: User)
    requires Inv(s) && RecordOk(s, u, usr)
    ensures SetInv(SetUser(s, u, usr))
    ensures !SetUser(s, u, usr).fault
  {
    hide Partition, HoldInv, RetireInv, UsersOk;
  }

  lemma RecordKeepsHeld(s: State, u: nat, usr: User)
    requires Inv(s) && RecordOk(s, u, usr)
    ensures HoldInv(SetUser(s, u, usr))
  {
    hide SetInv, RetireInv;
  }

  lemma RecordKeepsInv(s: State, u: nat, usr: User)
    requires Inv(s) && RecordOk(s, u, usr)
    ensures Inv(SetUser(s, u, usr))
  {
    RecordKeepsObjects(s, u, usr);
    RecordKeepsRetire(s, u, usr);
    RecordKeepsSets(s, u, usr);
    RecordKeepsHeld(s, u, usr);
    hide CollectorInv, ObjectInv, UsersInv, RetireInv, SetInv, HoldInv;
  }

  lemma LinkKeepsObjects(s: State, u: nat, o: Obj)
    requires Inv(s) && u < |s.users|
    ensures CollectorInv(UserStep(s, u, Link(o)))
    ensures ObjectInv(UserStep(s, u, Link(o)))
  {
    hide SetInv, HoldInv, UsersInv, RetireInv;
    if (s.users[u].pc == Fetching || s.users[u].pc == Using) && o !in s.live && o != 0 {
      LinkIs(s, u, o);
      hide UserStep;
    }
  }

  lemma LinkKeepsRetire(s: State, u: nat, o: Obj)
    requires Inv(s) && u < |s.users|
    ensures RetireInv(UserStep(s, u, Link(o)))
  {
    hide SetInv, HoldInv, UsersInv;
    if (s.users[u].pc == Fetching || s.users[u].pc == Using) && o !in s.live && o != 0 {
      LinkIs(s, u, o);
      hide UserStep;
    }
  }

  lemma LinkKeepsUsers(s: State, u: nat, o: Obj)
    requires Inv(s) && u < |s.users|
    ensures UsersInv(UserStep(s, u, Link(o)))
  {
    hide SetInv, HoldInv, RetireInv, Partition;
  }

  lemma LinkKeepsSets(s: State, u: nat, o: Obj)
    requires Inv(s) && u < |s.users|
    ensures SetInv(UserStep(s, u, Link(o)))
    ensures !UserStep(s, u, Link(o)).fault
  {
    hide HoldInv, RetireInv, Partition;
  }

  lemma LinkKeepsHeld(s: State, u: nat, o: Obj)
    requires Inv(s) && u < |s.users|
    ensures HoldInv(UserStep(s, u, Link(o)))
  {
  }

  lemma UnlinkKeepsObjects(s: State, u: nat, os: set<Obj>)
    requires Inv(s) && u < |s.users| && s.users[u].pc == Fetching && os <= s.table
    ensures CollectorInv(UserStep(s, u, Unlink(os)))
    ensures ObjectInv(UserStep(s, u, Unlink(os)))
    ensures UsersInv(UserStep(s, u, Unlink(os)))
    ensures RetireInv(UserStep(s, u, Unlink(os)))
  {
    hide SetInv, HoldInv;
    UnlinkIs(s, u, os);
    hide UserStep;
  }

  lemma UnlinkKeepsSets(s: State, u: nat, os: set<Obj>)
    requires Inv(s) && u < |s.users| && s.users[u].pc == Fetching && os <= s.table
    ensures SetInv(UserStep(s, u, Unlink(os)))
    ensures !UserStep(s, u, Unlink(os)).fault
  {
    hide HoldInv, RetireInv, Partition;
  }

  lemma UnlinkKeepsHeld(s: State, u: nat, os: set<Obj>)
    requires Inv(s) && u < |s.users| && s.users[u].pc == Fetching && os <= s.table
    ensures HoldInv(UserStep(s, u, Unlink(os)))
  {
  }

  lemma StoreKeepsObjects(s: State, u: nat)
    requires Inv(s) && u < |s.users| && s.users[u].pc.Storing?
    ensures CollectorInv(UserStep(s, u, Store))
    ensures ObjectInv(UserStep(s, u, Store))
    ensures UsersInv(UserStep(s, u, Store))
    ensures RetireInv(UserStep(s, u, Store))
  {
    hide SetInv, HoldInv;
    StoreIs(s, u);
    hide UserStep;
  }

  lemma StoreKeepsSets(s: State, u: nat)
    requires Inv(s) && u < |s.users| && s.users[u].pc.Storing?
    ensures SetInv(UserStep(s, u, Store))
    ensures !UserStep(s, u, Store).fault
  {
  }

  lemma StoreKeepsHeld(s: State, u: nat)
    requires Inv(s) && u < |s.users| && s.users[u].pc.Storing?
    ensures HoldInv(UserStep(s, u, Store))
  {
  }

  lemma CommitKeepsObjects(s: State, u: nat, p: Ptr, members: seq<Obj>)
    requires Inv(s) && u < |s.users|
    ensures CollectorInv(UserStep(s, u, Commit(p, members)))
    ensures ObjectInv(UserStep(s, u, Commit(p, members)))
    ensures RetireInv(UserStep(s, u, Commit(p, members)))
  {
    hide Partition, SetInv, HoldInv, UsersInv;
    CommitIs(s, u, p, members);
    hide UserStep;
  }

  lemma CommitKeepsUsers(s: State, u: nat, p: Ptr, members: seq<Obj>)
    requires Inv(s) && u < |s.users|
    ensures UsersInv(UserStep(s, u, Commit(p, members)))
  {
    hide Partition, SetInv, HoldInv, RetireInv;
    CommitIs(s, u, p, members);
    hide UserStep;
  }

  lemma CommitKeepsSets(s: State, u: nat, p: Ptr, members: seq<Obj>)
    requires Inv(s) && u < |s.users|
    ensures SetInv(UserStep(s, u, Commit(p, members)))
    ensures !UserStep(s, u, Commit(p, members)).fault
  {
    hide Partition, HoldInv, RetireInv;
  }

  lemma CommitKeepsHeld(s: State, u: nat, p: Ptr, members: seq<Obj>)
    requires Inv(s) && u < |s.users|
    ensures HoldInv(UserStep(s, u, Commit(p, members)))
  {
    hide Partition;
  }

  lemma ClearedIsPublished(s: State, u: nat)
    requires UsersInv(s) && u < |s.users| && s.users[u].pc == Clearing(s.users[u].field)
    ensures s.users[u].field.At? && s.users[u].field.p in s.sets
  {
    assert UserOk(s.users[u], s.table, s.limbo, s.freeList, s.sets);
  }

  lemma ClearKeepsObjects(s: State, u: nat)
    requires Inv(s) && u < |s.users| && s.users[u].pc == Clearing(s.users[u].field)
    ensures CollectorInv(UserStep(s, u, ClearField))
    ensures ObjectInv(UserStep(s, u, ClearField))
    ensures UsersInv(UserStep(s, u, ClearField))
    ensures RetireInv(UserStep(s, u, ClearField))
  {
    hide Partition, SetInv, HoldInv;
    ClearedIsPublished(s, u);
    ClearIs(s, u);
    hide UserStep;
  }

  lemma ClearKeepsSets(s: State, u: nat)
    requires Inv(s) && u < |s.users| && s.users[u].pc == Clearing(s.users[u].field)
    ensures SetInv(UserStep(s, u, ClearField))
    ensures !UserStep(s, u, ClearField).fault
  {
    hide Partition, HoldInv, RetireInv;
    ClearedIsPublished(s, u);
    ClearIs(s, u);
    hide UserStep, UsersInv;
    if s.users[u].field.tagged { } else { }
  }

  lemma ClearKeepsHeld(s: State, u: nat)
    requires Inv(s) && u < |s.users| && s.users[u].pc == Clearing(s.users[u].field)
    ensures HoldInv(UserStep(s, u, ClearField))
  {
    hide Partition;
  }

  lemma FreeOwnKeepsObjects(s: State, u: nat)
    requires Inv(s) && u < |s.users|
    ensures CollectorInv(UserStep(s, u, FreeOwn))
    ensures ObjectInv(UserStep(s, u, FreeOwn))
    ensures RetireInv(UserStep(s, u, FreeOwn))
  {
    hide Partition, HoldInv, UsersInv;
    if s.users[u].pc.Freeing? {
      FreeOwnIs(s, u);
      hide UserStep;
      if s.ownerFrees { } else { }
    }
  }

  lemma FreeOwnKeepsUsers(s: State, u: nat)
    requires Inv(s) && u < |s.users|
    ensures UsersInv(UserStep(s, u, FreeOwn))
  {
    hide Partition, HoldInv, RetireInv;
    if s.users[u].pc.Freeing? {
      FreeOwnIs(s, u);
      hide UserStep;
      if s.ownerFrees { } else { }
    }
  }

  lemma FreeOwnKeepsSets(s: State, u: nat)
    requires Inv(s) && u < |s.users|
    ensures SetInv(UserStep(s, u, FreeOwn))
    ensures !UserStep(s, u, FreeOwn).fault
  {
    hide SetInv;
    if s.users[u].pc.Freeing? {
      if s.ownerFrees { OwnerFreesItsSet(s, u); } else { OwnerLeaksItsSet(s, u); }
    }
  }

  lemma OwnerFreesItsSet(s: State, u: nat)
    requires Inv(s) && u < |s.users| && s.users[u].pc.Freeing? && s.ownerFrees
    ensures SetInv(UserStep(s, u, FreeOwn)) && !UserStep(s, u, FreeOwn).fault
  {
    hide Partition, HoldInv, RetireInv, UsersInv;
    FreeOwnIs(s, u);
    hide UserStep;
  }

  lemma OwnerLeaksItsSet(s: State, u: nat)
    requires Inv(s) && u < |s.users| && s.users[u].pc.Freeing? && !s.ownerFrees
    ensures SetInv(UserStep(s, u, FreeOwn)) && !UserStep(s, u, FreeOwn).fault
  {
    hide Partition, HoldInv, RetireInv, UsersInv;
    FreeOwnIs(s, u);
    hide UserStep;
  }

  lemma FreeOwnKeepsHeld(s: State, u: nat)
    requires Inv(s) && u < |s.users|
    ensures HoldInv(UserStep(s, u, FreeOwn))
  {
    hide Partition;
  }

  /** The actions that touch no more than the user's own record. */
  predicate OwnRecordOnly(a: Action) {
    a.Lock? || a.Fetch? || a.Drop? || a.ReadStamp? || a.CommitNull? || a.Unpend? || a.LoadField?
  }

  lemma OwnRecordIsOk(s: State, u: nat, a: Action)
    requires Inv(s) && u < |s.users| && OwnRecordOnly(a) && UserStep(s, u, a) != s
    ensures UserStep(s, u, a) == SetUser(s, u, UserStep(s, u, a).users[u])
    ensures RecordOk(s, u, UserStep(s, u, a).users[u])
  {
    if a.Lock? || a.Fetch? || a.Drop? { FetchIsOk(s, u, a); } else { CommitIsOk(s, u, a); }
    hide UserStep, RecordOk;
  }

  lemma FetchIsOk(s: State, u: nat, a: Action)
    requires Inv(s) && u < |s.users| && (a.Lock? || a.Fetch? || a.Drop?) && UserStep(s, u, a) != s
    ensures UserStep(s, u, a) == SetUser(s, u, UserStep(s, u, a).users[u])
    ensures RecordOk(s, u, UserStep(s, u, a).users[u])
  {
    hide SetInv, HoldInv, Partition;
    assert UserOk(s.users[u], s.table, s.limbo, s.freeList, s.sets);
    hide UsersOk;
    match a
    case Lock =>
    case Fetch(_) =>
    case Drop(_) =>
  }

  lemma CommitIsOk(s: State, u: nat, a: Action)
    requires Inv(s) && u < |s.users| && UserStep(s, u, a) != s
    requires a.ReadStamp? || a.CommitNull? || a.Unpend? || a.LoadField?
    ensures UserStep(s, u, a) == SetUser(s, u, UserStep(s, u, a).users[u])
    ensures RecordOk(s, u, UserStep(s, u, a).users[u])
  {
    hide SetInv, HoldInv, Partition;
    assert UserOk(s.users[u], s.table, s.limbo, s.freeList, s.sets);
    hide UsersOk;
    match a
    case ReadStamp(_) =>
    case CommitNull =>
    case Unpend =>
    case LoadField =>
  }

  lemma MissedClearIsOk(s: State, u: nat)
    requires Inv(s) && u < |s.users| && s.users[u].pc.Clearing? && s.users[u].field != s.users[u].pc.seen
    ensures UserStep(s, u, ClearField) == SetUser(s, u, UserStep(s, u, ClearField).users[u])
    ensures RecordOk(s, u, UserStep(s, u, ClearField).users[u])
  {
    hide SetInv, HoldInv, Partition;
  }

  lemma UserKeepsInv(s: State, u: nat, a: Action)
    requires Inv(s) && u < |s.users|
    ensures Inv(UserStep(s, u, a))
  {
    hide CollectorInv, ObjectInv, UsersInv, RetireInv, SetInv, HoldInv, RecordOk;
    var s' := UserStep(s, u, a);
    var usr := s.users[u];
    match a
    case Link(o) =>
      LinkKeepsObjects(s, u, o); LinkKeepsRetire(s, u, o); LinkKeepsUsers(s, u, o);
      LinkKeepsSets(s, u, o); LinkKeepsHeld(s, u, o);
    case Unlink(os) =>
      if s' != s { UnlinkKeepsObjects(s, u, os); UnlinkKeepsSets(s, u, os); UnlinkKeepsHeld(s, u, os); }
    case Store =>
      if s' != s { StoreKeepsObjects(s, u); StoreKeepsSets(s, u); StoreKeepsHeld(s, u); }
    case Commit(p, members) =>
      CommitKeepsObjects(s, u, p, members); CommitKeepsUsers(s, u, p, members);
      CommitKeepsSets(s, u, p, members); CommitKeepsHeld(s, u, p, members);
    case ClearField =>
      if usr.pc.Clearing? {
        if usr.field == usr.pc.seen {
          ClearKeepsObjects(s, u); ClearKeepsSets(s, u); ClearKeepsHeld(s, u);
        } else {
          MissedClearIsOk(s, u);
          RecordKeepsInv(s, u, s'.users[u]);
        }
      }
    case FreeOwn =>
      FreeOwnKeepsObjects(s, u); FreeOwnKeepsUsers(s, u); FreeOwnKeepsSets(s, u); FreeOwnKeepsHeld(s, u);
    case _ =>
      if s' != s {
        OwnRecordIsOk(s, u, a);
        RecordKeepsInv(s, u, s'.users[u]);
      }
  }

  lemma RegisterKeepsObjects(s: State)
    requires Inv(s)
    ensures CollectorInv(Apply(s, Register)) && ObjectInv(Apply(s, Register))
    ensures UsersInv(Apply(s, Register)) && RetireInv(Apply(s, Register))
  {
    hide Partition, SetInv, HoldInv;
  }

  lemma RegisterKeepsSets(s: State)
    requires Inv(s)
    ensures SetInv(Apply(s, Register)) && HoldInv(Apply(s, Register))
  {
    hide Partition, RetireInv;
  }

  lemma RegisterKeepsInv(s: State)
    requires Inv(s)
    ensures Inv(Apply(s, Register))
  {
    hide CollectorInv, ObjectInv, UsersInv, RetireInv, SetInv, HoldInv;
    RegisterKeepsObjects(s);
    RegisterKeepsSets(s);
  }

  // ---------- collector steps ----------

  /** Between two moments at which the collector reads no working set. */
  lemma SetInvCarries(s: State, t: State)
    requires SetInv(s) && t.users == s.users && t.sets == s.sets
    requires !s.pc.Scan? && !s.pc.Mark? && !s.pc.Untag? && !t.pc.Scan? && !t.pc.Mark? && !t.pc.Untag?
    ensures SetInv(t)
  {
  }

  lemma LoadKeepsObjects(s: State, o: Obj)
    requires Inv(s) && s.pc == Waiting
    ensures CollectorInv(CollectorStep(s, o))
    ensures ObjectInv(CollectorStep(s, o))
    ensures UsersInv(CollectorStep(s, o))
    ensures RetireInv(CollectorStep(s, o))
  {
    hide Partition, SetInv, HoldInv, UsersOk, LimboOk;
  }

  lemma LoadKeepsSets(s: State, o: Obj)
    requires CollectorInv(s) && SetInv(s) && s.pc == Waiting
    ensures SetInv(CollectorStep(s, o))
    ensures CollectorStep(s, o).fault == s.fault
  {
  }

  lemma LoadKeepsHeld(s: State, o: Obj)
    requires Inv(s) && s.pc == Waiting
    ensures HoldInv(CollectorStep(s, o))
  {
    hide Partition;
  }

  lemma CountKeepsObjects(s: State, o: Obj)
    requires Inv(s) && s.pc == Counting && !UnsafeBump(s)
    ensures CollectorInv(CollectorStep(s, o))
    ensures ObjectInv(CollectorStep(s, o))
    ensures UsersInv(CollectorStep(s, o))
    ensures RetireInv(CollectorStep(s, o))
  {
    hide Partition, SetInv, HoldInv, UsersOk, LimboOk;
  }

  lemma CountKeepsSets(s: State, o: Obj)
    requires CollectorInv(s) && SetInv(s) && s.pc == Counting
    ensures SetInv(CollectorStep(s, o))
    ensures CollectorStep(s, o).fault == s.fault
  {
  }

  lemma CountKeepsHeld(s: State, o: Obj)
    requires Inv(s) && s.pc == Counting
    ensures HoldInv(CollectorStep(s, o))
  {
    hide Partition;
  }

  lemma NextKeepsObjects(s: State, o: Obj)
    requires Inv(s) && s.pc == NextUser
    ensures CollectorInv(CollectorStep(s, o))
    ensures ObjectInv(CollectorStep(s, o))
    ensures UsersInv(CollectorStep(s, o))
    ensures RetireInv(CollectorStep(s, o))
  {
    hide Partition, SetInv, HoldInv, UsersOk, LimboOk;
    if s.next == 0 { } else { }
  }

  lemma NextKeepsSets(s: State, o: Obj)
    requires CollectorInv(s) && SetInv(s) && s.pc == NextUser
    ensures SetInv(CollectorStep(s, o))
    ensures CollectorStep(s, o).fault == s.fault
  {
  }

  lemma NextKeepsHeld(s: State, o: Obj)
    requires Inv(s) && s.pc == NextUser
    ensures HoldInv(CollectorStep(s, o))
  {
    hide Partition;
  }

  lemma AwaitKeepsObjects(s: State, o: Obj)
    requires Inv(s) && (s.pc == AwaitPending || s.pc == LoadSet)
    ensures CollectorInv(CollectorStep(s, o))
    ensures ObjectInv(CollectorStep(s, o))
    ensures UsersInv(CollectorStep(s, o))
    ensures RetireInv(CollectorStep(s, o))
  {
    hide Partition, SetInv, HoldInv;
  }

  lemma AwaitKeepsSets(s: State, o: Obj)
    requires CollectorInv(s) && SetInv(s) && (s.pc == AwaitPending || s.pc == LoadSet)
    ensures SetInv(CollectorStep(s, o))
    ensures CollectorStep(s, o).fault == s.fault
  {
  }

  lemma AwaitKeepsHeld(s: State, o: Obj)
    requires Inv(s) && (s.pc == AwaitPending || s.pc == LoadSet)
    ensures HoldInv(CollectorStep(s, o))
  {
    hide Partition;
  }

  lemma TagNullKeepsObjects(s: State, o: Obj)
    requires Inv(s) && s.pc == TagSet(Null)
    ensures CollectorInv(CollectorStep(s, o))
    ensures ObjectInv(CollectorStep(s, o))
    ensures UsersInv(CollectorStep(s, o))
    ensures RetireInv(CollectorStep(s, o))
  {
    hide Partition, SetInv, HoldInv, UsersOk, LimboOk;
  }

  lemma TagNullKeepsSets(s: State, o: Obj)
    requires CollectorInv(s) && SetInv(s) && s.pc == TagSet(Null)
    ensures SetInv(CollectorStep(s, o))
    ensures CollectorStep(s, o).fault == s.fault
  {
  }

  lemma TagNullKeepsHeld(s: State, o: Obj)
    requires Inv(s) && s.pc == TagSet(Null)
    ensures HoldInv(CollectorStep(s, o))
  {
    hide Partition;
  }

  lemma TagMissedKeepsObjects(s: State, o: Obj)
    requires Inv(s) && s.pc.TagSet? && s.pc.seen != Null && s.users[s.next - 1].field != s.pc.seen
    ensures CollectorInv(CollectorStep(s, o))
    ensures ObjectInv(CollectorStep(s, o))
    ensures UsersInv(CollectorStep(s, o))
    ensures RetireInv(CollectorStep(s, o))
  {
    hide Partition, SetInv, HoldInv, UsersOk, LimboOk;
  }

  lemma TagMissedKeepsSets(s: State, o: Obj)
    requires CollectorInv(s) && SetInv(s) && s.pc.TagSet? && s.pc.seen != Null && s.users[s.next - 1].field != s.pc.seen
    ensures SetInv(CollectorStep(s, o))
    ensures CollectorStep(s, o).fault == s.fault
  {
    TagElseFrame(s);
    var t := CollectorStep(s, o);
    assert t == TagStep(s) && !t.pc.Scan? && !t.pc.Mark? && !t.pc.Untag? && t.users == s.users && t.fault == s.fault;
    hide SetInv, CollectorStep, TagStep;
    SetInvCarries(s, t);
  }

  lemma TagMissedKeepsHeld(s: State, o: Obj)
    requires Inv(s) && s.pc.TagSet? && s.pc.seen != Null && s.users[s.next - 1].field != s.pc.seen
    ensures HoldInv(CollectorStep(s, o))
  {
    hide Partition;
  }

  lemma TagKeepsObjects(s: State, o: Obj)
    requires Inv(s) && s.pc.TagSet? && s.pc.seen != Null && s.users[s.next - 1].field == s.pc.seen
    ensures CollectorInv(CollectorStep(s, o))
    ensures ObjectInv(CollectorStep(s, o))
    ensures UsersInv(CollectorStep(s, o))
  {
    hide Partition, SetInv, HoldInv, RetireInv;
    TagIs(s);
    assert CollectorStep(s, o) == TagStep(s);
    hide CollectorStep, TagStep;
  }

  lemma TagKeepsRetire(s: State, o: Obj)
    requires Inv(s) && s.pc.TagSet? && s.pc.seen != Null && s.users[s.next - 1].field == s.pc.seen
    ensures RetireInv(CollectorStep(s, o))
  {
    hide Partition, SetInv, HoldInv, ObjectInv, UsersInv;
    TagIs(s);
    assert CollectorStep(s, o) == TagStep(s);
    hide CollectorStep, TagStep;
  }

  lemma TagKeepsSets(s: State, o: Obj)
    requires CollectorInv(s) && SetInv(s) && s.pc.TagSet? && s.pc.seen != Null && s.users[s.next - 1].field == s.pc.seen
    ensures SetInv(CollectorStep(s, o))
    ensures CollectorStep(s, o).fault == s.fault
  {
    TagIs(s);
    assert CollectorStep(s, o) == TagStep(s);
    hide CollectorStep, TagStep;
  }

  lemma TagKeepsHeld(s: State, o: Obj)
    requires Inv(s) && s.pc.TagSet? && s.pc.seen != Null && s.users[s.next - 1].field == s.pc.seen
    ensures HoldInv(CollectorStep(s, o))
  {
    hide Partition;
  }

  lemma ScanKeepsObjects(s: State, o: Obj)
    requires Inv(s) && s.pc.Scan? && s.pc.k < |s.sets[s.pc.p].members|
    ensures CollectorInv(CollectorStep(s, o))
    ensures ObjectInv(CollectorStep(s, o))
    ensures UsersInv(CollectorStep(s, o))
    ensures RetireInv(CollectorStep(s, o))
  {
    hide Partition, SetInv, HoldInv, UsersOk, LimboOk;
  }

  lemma ScanKeepsSets(s: State, o: Obj)
    requires CollectorInv(s) && SetInv(s) && s.pc.Scan? && s.pc.k < |s.sets[s.pc.p].members|
    ensures SetInv(CollectorStep(s, o))
    ensures CollectorStep(s, o).fault == s.fault
  {
    ScanIs(s);
    assert CollectorStep(s, o) == ScanStep(s);
    hide CollectorStep, ScanStep;
    var m := s.sets[s.pc.p].members[s.pc.k];
    if m == 0 || m !in s.freeList { } else { }
  }

  lemma ScanKeepsHeld(s: State, o: Obj)
    requires Inv(s) && s.pc.Scan? && s.pc.k < |s.sets[s.pc.p].members|
    ensures HoldInv(CollectorStep(s, o))
  {
  }

  lemma ScanEndKeepsObjects(s: State, o: Obj)
    requires Inv(s) && s.pc.Scan? && s.pc.k == |s.sets[s.pc.p].members|
    ensures CollectorInv(CollectorStep(s, o))
    ensures ObjectInv(CollectorStep(s, o))
    ensures UsersInv(CollectorStep(s, o))
    ensures RetireInv(CollectorStep(s, o))
  {
    hide Partition, SetInv, HoldInv, UsersOk, LimboOk;
  }

  lemma ScanEndKeepsSets(s: State, o: Obj)
    requires CollectorInv(s) && SetInv(s) && s.pc.Scan? && s.pc.k == |s.sets[s.pc.p].members|
    ensures SetInv(CollectorStep(s, o))
    ensures CollectorStep(s, o).fault == s.fault
  {
  }

  lemma ScanEndKeepsHeld(s: State, o: Obj)
    requires Inv(s) && s.pc.Scan? && s.pc.k == |s.sets[s.pc.p].members|
    ensures HoldInv(CollectorStep(s, o))
  {
    hide Partition;
  }

  lemma MarkKeepsObjects(s: State, o: Obj)
    requires Inv(s) && s.pc.Mark?
    ensures CollectorInv(CollectorStep(s, o))
    ensures ObjectInv(CollectorStep(s, o))
    ensures UsersInv(CollectorStep(s, o))
    ensures RetireInv(CollectorStep(s, o))
  {
    hide SetInv, HoldInv;
    if s.marks { } else { }
  }

  lemma MarkKeepsSets(s: State, o: Obj)
    requires CollectorInv(s) && SetInv(s) && s.pc.Mark?
    ensures SetInv(CollectorStep(s, o))
    ensures CollectorStep(s, o).fault == s.fault
  {
  }

  lemma MarkKeepsHeld(s: State, o: Obj)
    requires Inv(s) && s.pc.Mark?
    ensures HoldInv(CollectorStep(s, o))
  {
  }

  lemma UntagKeepsObjects(s: State, o: Obj)
    requires Inv(s) && s.pc.Untag? && s.users[s.next - 1].field == At(s.pc.p, true)
    ensures CollectorInv(CollectorStep(s, o))
    ensures ObjectInv(CollectorStep(s, o))
    ensures UsersInv(CollectorStep(s, o))
    ensures RetireInv(CollectorStep(s, o))
  {
    hide Partition, HoldInv;
    UntagIs(s);
    assert CollectorStep(s, o) == ScanStep(s);
    hide CollectorStep, ScanStep;
  }

  lemma UntagKeepsSets(s: State, o: Obj)
    requires CollectorInv(s) && SetInv(s) && s.pc.Untag? && s.users[s.next - 1].field == At(s.pc.p, true)
    ensures SetInv(CollectorStep(s, o))
    ensures CollectorStep(s, o).fault == s.fault
  {
    UntagIs(s);
    assert CollectorStep(s, o) == ScanStep(s);
    hide CollectorStep, ScanStep;
  }

  /** At the end of a scan: the marks have seen to it, or the set was not unheeded. */
  lemma ScannedHoldsNothingLow(s: State)
    requires Inv(s) && s.pc.Untag? && !UnheededSet(s)
    ensures Current(s) && forall x | x in s.users[s.next - 1].held :: !Low(s, x)
  {
    hide Partition, RetireInv, UsersInv;
    forall x | x in s.users[s.next - 1].held
      ensures !Low(s, x)
    {
      assert HoldOk(s, s.next - 1, x);
    }
  }

  lemma UntagKeepsHeld(s: State, o: Obj)
    requires Inv(s) && s.pc.Untag? && s.users[s.next - 1].field == At(s.pc.p, true) && !UnheededSet(s)
    ensures HoldInv(CollectorStep(s, o))
  {
    hide Partition, RetireInv, UsersInv, SetInv;
    ScannedHoldsNothingLow(s);
    var t := CollectorStep(s, o);
    forall u, x | 0 <= u < |t.users| && x in t.users[u].held
      ensures HoldOk(t, u, x)
    {
      assert x in s.users[u].held && HoldOk(s, u, x);
      if u == s.next - 1 { assert !Low(s, x); }
      assert Low(t, x) ==> u < t.next;
    }
  }

  lemma HandKeepsObjects(s: State, o: Obj)
    requires Inv(s) && s.pc.Untag? && s.users[s.next - 1].field != At(s.pc.p, true)
    ensures CollectorInv(CollectorStep(s, o))
    ensures ObjectInv(CollectorStep(s, o))
    ensures UsersInv(CollectorStep(s, o))
    ensures RetireInv(CollectorStep(s, o))
  {
    hide Partition, HoldInv;
    UntagIs(s);
    assert CollectorStep(s, o) == ScanStep(s);
    hide CollectorStep, ScanStep;
  }

  lemma HandKeepsSets(s: State, o: Obj)
    requires CollectorInv(s) && SetInv(s) && s.pc.Untag? && s.users[s.next - 1].field != At(s.pc.p, true)
    ensures SetInv(CollectorStep(s, o))
    ensures CollectorStep(s, o).fault == s.fault
  {
    UntagIs(s);
    assert CollectorStep(s, o) == ScanStep(s);
    hide CollectorStep, ScanStep;
    assert CustodyOk(s, s.pc.p);
  }

  lemma HandKeepsHeld(s: State, o: Obj)
    requires Inv(s) && s.pc.Untag? && s.users[s.next - 1].field != At(s.pc.p, true) && !UnheededSet(s)
    ensures HoldInv(CollectorStep(s, o))
  {
    hide Partition, RetireInv, UsersInv, SetInv;
    ScannedHoldsNothingLow(s);
    var t := CollectorStep(s, o);
    forall u, x | 0 <= u < |t.users| && x in t.users[u].held
      ensures HoldOk(t, u, x)
    {
      assert x in s.users[u].held && HoldOk(s, u, x);
      if u == s.next - 1 { assert !Low(s, x); }
      assert Low(t, x) ==> u < t.next;
    }
  }

  lemma SweepKeepsObjects(s: State, o: Obj)
    requires Inv(s) && s.pc.Sweep?
    ensures CollectorInv(CollectorStep(s, o))
    ensures ObjectInv(CollectorStep(s, o))
  {
    hide SetInv, HoldInv, UsersInv, RetireInv;
    assert CollectorStep(s, o) == SweepStep(s, o);
    if o in s.freeList && o !in s.pc.visited { VisitIs(s, o); } else { NoVisitIs(s, o); }
    hide CollectorStep, SweepStep;
  }

  lemma SweepKeepsRetire(s: State, o: Obj)
    requires Inv(s) && s.pc.Sweep?
    ensures RetireInv(CollectorStep(s, o))
  {
    hide SetInv, HoldInv, UsersInv, Partition;
    SweepFrame(s, o);
    assert CollectorStep(s, o) == SweepStep(s, o);
    if o in s.freeList && o !in s.pc.visited { VisitIs(s, o); } else { NoVisitIs(s, o); }
    hide CollectorStep, SweepStep;
  }

  lemma SweepKeepsUsers(s: State, o: Obj)
    requires Inv(s) && s.pc.Sweep?
    ensures UsersInv(CollectorStep(s, o))
  {
    hide SetInv, RetireInv, Partition;
  }

  lemma SweepKeepsSets(s: State, o: Obj)
    requires CollectorInv(s) && SetInv(s) && s.pc.Sweep?
    ensures SetInv(CollectorStep(s, o))
    ensures CollectorStep(s, o).fault == s.fault
  {
    SweepFrame(s, o);
    var t := CollectorStep(s, o);
    assert t == SweepStep(s, o);
    hide SetInv, CollectorStep;
    if o in s.freeList && o !in s.pc.visited { VisitIs(s, o); } else { NoVisitIs(s, o); }
    hide SweepStep;
    SetInvCarries(s, t);
  }

  lemma SweepKeepsHeld(s: State, o: Obj)
    requires Inv(s) && s.pc.Sweep?
    ensures HoldInv(CollectorStep(s, o))
  {
  }

  lemma ReleaseKeepsObjects(s: State, o: Obj)
    requires Inv(s) && s.pc.Release?
    ensures CollectorInv(CollectorStep(s, o))
    ensures ObjectInv(CollectorStep(s, o))
    ensures UsersInv(CollectorStep(s, o))
    ensures RetireInv(CollectorStep(s, o))
  {
    hide SetInv, HoldInv;
  }

  lemma ReleaseKeepsSets(s: State, o: Obj)
    requires CollectorInv(s) && SetInv(s) && s.pc.Release?
    ensures SetInv(CollectorStep(s, o))
    ensures CollectorStep(s, o).fault == (s.fault || s.pc.o !in s.live)
  {
  }

  lemma ReleasedIsLive(s: State)
    requires Inv(s) && s.pc.Release?
    ensures s.pc.o in s.live
  {
    hide UsersInv, RetireInv, HoldInv, SetInv;
  }

  lemma ReleaseKeepsHeld(s: State, o: Obj)
    requires Inv(s) && s.pc.Release?
    ensures HoldInv(CollectorStep(s, o))
  {
  }

  lemma StepKeepsInv(s: State, step: Step)
    requires Inv(s) && !Hazard(s, step)
    ensures Inv(Apply(s, step))
  {
    match step
    case Register => RegisterKeepsInv(s);
    case Act(u, a) => if u < |s.users| { UserKeepsInv(s, u, a); }
    case Collect(o) => CollectorKeepsInv(s, o);
  }

  lemma CollectorKeepsInv(s: State, o: Obj)
    requires Inv(s) && !UnsafeBump(s) && !UnheededSet(s)
    ensures Inv(CollectorStep(s, o))
  {
    hide ObjectInv, UsersInv, RetireInv, HoldInv, CollectorStep;
    match s.pc
    case Waiting => LoadKeepsObjects(s, o); LoadKeepsSets(s, o); LoadKeepsHeld(s, o);
    case Counting => CountKeepsObjects(s, o); CountKeepsSets(s, o); CountKeepsHeld(s, o);
    case NextUser => NextKeepsObjects(s, o); NextKeepsSets(s, o); NextKeepsHeld(s, o);
    case AwaitPending | LoadSet => AwaitKeepsObjects(s, o); AwaitKeepsSets(s, o); AwaitKeepsHeld(s, o);
    case TagSet(seen) =>
      if seen == Null {
        TagNullKeepsObjects(s, o); TagNullKeepsSets(s, o); TagNullKeepsHeld(s, o);
      } else if s.users[s.next - 1].field == seen {
        TagKeepsObjects(s, o); TagKeepsRetire(s, o); TagKeepsSets(s, o); TagKeepsHeld(s, o);
      } else {
        TagMissedKeepsObjects(s, o); TagMissedKeepsSets(s, o); TagMissedKeepsHeld(s, o);
      }
    case Scan(p, k) =>
      if k < |s.sets[p].members| {
        ScanKeepsObjects(s, o); ScanKeepsSets(s, o); ScanKeepsHeld(s, o);
      } else {
        ScanEndKeepsObjects(s, o); ScanEndKeepsSets(s, o); ScanEndKeepsHeld(s, o);
      }
    case Mark(_, _, _) => MarkKeepsObjects(s, o); MarkKeepsSets(s, o); MarkKeepsHeld(s, o);
    case Untag(p) =>
      if s.users[s.next - 1].field == At(p, true) {
        UntagKeepsObjects(s, o); UntagKeepsSets(s, o); UntagKeepsHeld(s, o);
      } else {
        HandKeepsObjects(s, o); HandKeepsSets(s, o); HandKeepsHeld(s, o);
      }
    case Sweep(_, _) =>
      SweepKeepsObjects(s, o); SweepKeepsRetire(s, o); SweepKeepsUsers(s, o);
      SweepKeepsSets(s, o); SweepKeepsHeld(s, o);
    case Release(_, _, _) =>
      ReleaseKeepsObjects(s, o); ReleaseKeepsSets(s, o); ReleaseKeepsHeld(s, o); ReleasedIsLive(s);
  }
}
