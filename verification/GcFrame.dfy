/** What a step leaves alone. */
module GcFrame {
  import opened Gc

  /** What single steps come to. */
  lemma UnlinkIs(s: State, u: nat, os: set<Obj>)
    requires u < |s.users| && s.users[u].pc == Fetching && os <= s.table
    ensures UserStep(s, u, Unlink(os)) == s.(table := s.table - os, limbo := s.limbo + (map o | o in os :: u))
  {
  }

  lemma StoreIs(s: State, u: nat)
    requires u < |s.users| && s.users[u].pc.Storing?
    ensures var o, stamp := s.users[u].pc.o, s.users[u].pc.stamp;
            UserStep(s, u, Store) == s.(
              users := s.users[u := s.users[u].(pc := Fetching)], limbo := s.limbo - {o},
              freeList := if o in s.freeList then s.freeList else s.freeList[o := stamp])
  {
  }

  lemma FreeOwnIs(s: State, u: nat)
    requires u < |s.users| && s.users[u].pc.Freeing?
    ensures var p, users := s.users[u].pc.p, s.users[u := s.users[u].(pc := Resting)];
            var freed := s.(users := users, sets := s.sets - {p}, fault := s.fault || p !in s.sets);
            && (s.ownerFrees ==> UserStep(s, u, FreeOwn) == freed)
            && (!s.ownerFrees && p in s.sets ==>
                  UserStep(s, u, FreeOwn) == s.(users := users, sets := s.sets[p := s.sets[p].(custody := Leaked)]))
  {
  }

  lemma ClearIs(s: State, u: nat)
    requires u < |s.users| && s.users[u].pc.Clearing? && s.users[u].field == s.users[u].pc.seen
    requires s.users[u].field.At? && s.users[u].field.p in s.sets
    ensures var usr := s.users[u];
            var p, tagged := usr.field.p, usr.field.tagged;
            UserStep(s, u, ClearField) == s.(
              users := s.users[u := usr.(pc := if tagged then Resting else Freeing(p), field := Null, held := {})],
              sets := s.sets[p := s.sets[p].(custody := if tagged then OfCollector else OfOwner(u))])
  {
  }

  lemma LinkIs(s: State, u: nat, o: Obj)
    requires u < |s.users| && (s.users[u].pc == Fetching || s.users[u].pc == Using) && o !in s.live && o != 0
    ensures UserStep(s, u, Link(o)) == s.(table := s.table + {o}, live := s.live + {o},
              users := s.users[u := s.users[u].(held := UserStep(s, u, Link(o)).users[u].held)])
    ensures UserStep(s, u, Link(o)).users[u].held <= s.users[u].held + {o}
  {
  }

  lemma CommitIs(s: State, u: nat, p: Ptr, members: seq<Obj>)
    requires u < |s.users|
    ensures UserStep(s, u, Commit(p, members)) == s ||
            (&& s.users[u].pc == Fetching && p !in s.sets && (forall o | o in s.users[u].held :: o in members)
             && (forall o | o in s.limbo :: s.limbo[o] != u)
             && UserStep(s, u, Commit(p, members)) ==
                s.(users := s.users[u := s.users[u].(pc := Committed, field := At(p, false))],
                   sets := s.sets[p := WorkingSet(members, InField(u))]))
  {
  }

  lemma ScanEndIs(s: State)
    requires s.pc.Scan? && s.pc.p in s.sets && s.pc.k >= |s.sets[s.pc.p].members|
    ensures ScanStep(s) == s.(pc := Untag(s.pc.p))
  {
  }

  lemma VisitIs(s: State, o: Obj)
    requires s.pc.Sweep? && o in s.freeList && o !in s.pc.visited
    ensures SweepStep(s, o) ==
            if s.freeList[o] < s.epoch
            then s.(freeList := s.freeList - {o}, pc := Release(o, s.pc.due, s.pc.visited + {o}))
            else s.(pc := Sweep(s.pc.due, s.pc.visited + {o}))
  {
  }

  lemma NoVisitIs(s: State, o: Obj)
    requires s.pc.Sweep? && !(o in s.freeList && o !in s.pc.visited)
    ensures SweepStep(s, o) == s || SweepStep(s, o) == s.(pc := Waiting)
  {
  }

  lemma TagIs(s: State)
    requires s.pc.TagSet? && Current(s) && s.pc.seen.At? && s.users[s.next - 1].field == s.pc.seen
    ensures var u, p := s.next - 1, s.pc.seen.p;
            TagStep(s) == s.(pc := Scan(p, 0), users := s.users[u := s.users[u].(field := At(p, true))])
  {
  }

  lemma UntagIs(s: State)
    requires s.pc.Untag? && Current(s)
    ensures var u, p := s.next - 1, s.pc.p;
            ScanStep(s) ==
            if s.users[u].field == At(p, true)
            then s.(pc := NextUser, next := u, users := s.users[u := s.users[u].(field := At(p, false))])
            else s.(pc := NextUser, next := u, sets := s.sets - {p}, fault := s.fault || p !in s.sets)
  {
  }

  lemma ScanIs(s: State)
    requires s.pc.Scan? && s.pc.p in s.sets && s.pc.k < |s.sets[s.pc.p].members|
    ensures var p, k := s.pc.p, s.pc.k;
            var m := s.sets[p].members[k];
            ScanStep(s) == s.(pc := if m == 0 || m !in s.freeList then Scan(p, k + 1) else Mark(p, k, m))
  {
  }

  /** A user's step is invisible to the collector's registers and to all other users; entries of the free
      list keep their stamps. */
  predicate UserFrame(s: State, t: State, u: nat) {
    && t.pc == s.pc && t.next == s.next && t.epoch == s.epoch && t.counter == s.counter
    && t.marks == s.marks && t.ownerFrees == s.ownerFrees && |t.users| == |s.users|
    && (forall w | 0 <= w < |s.users| && w != u :: t.users[w] == s.users[w])
    && (forall o | o in s.freeList :: o in t.freeList && t.freeList[o] == s.freeList[o])
  }

  lemma LinkFrame(s: State, u: nat, o: Obj)
    requires u < |s.users|
    ensures UserFrame(s, FetchStep(s, u, Link(o)), u) && FetchStep(s, u, Link(o)).freeList == s.freeList
    ensures FetchStep(s, u, Link(o)).users[u].pc == s.users[u].pc
  {
    var usr := s.users[u];
    if usr.pc !in {Fetching, Using} || o in s.live || o == 0 { } else { }
  }

  lemma FetchFrame(s: State, u: nat, a: Action)
    requires u < |s.users|
    ensures UserFrame(s, FetchStep(s, u, a), u) && FetchStep(s, u, a).freeList == s.freeList
    ensures FetchStep(s, u, a).users[u].pc.Storing? ==> FetchStep(s, u, a).users[u].pc == s.users[u].pc
  {
    if a.Link? {
      LinkFrame(s, u, a.o);
      hide FetchStep;
    } else {
      match a
      case Lock =>
      case Fetch(_) =>
      case Drop(_) =>
      case Unlink(_) =>
      case _ =>
    }
  }

  lemma RetireFrame(s: State, u: nat, a: Action)
    requires u < |s.users|
    ensures UserFrame(s, RetireStep(s, u, a), u)
  {
  }

  lemma CommitFrame(s: State, u: nat, a: Action)
    requires u < |s.users|
    ensures UserFrame(s, CommitStep(s, u, a), u) && CommitStep(s, u, a).freeList == s.freeList
    ensures CommitStep(s, u, a).users[u].pc.Storing? ==> CommitStep(s, u, a).users[u].pc == s.users[u].pc
  {
  }

  lemma ClearFrame(s: State, u: nat, a: Action)
    requires u < |s.users|
    ensures UserFrame(s, ClearStep(s, u, a), u) && ClearStep(s, u, a).freeList == s.freeList
    ensures ClearStep(s, u, a).users[u].pc.Storing? ==> ClearStep(s, u, a).users[u].pc == s.users[u].pc
  {
    var usr := s.users[u];
    match a
    case LoadField =>
    case ClearField =>
      if usr.pc.Clearing? {
        if usr.field != usr.pc.seen {
        } else if usr.field == Null {
        } else {
        }
      }
    case FreeOwn => if usr.pc.Freeing? { }
    case _ =>
  }

  lemma UserFrames(s: State, u: nat, a: Action)
    requires u < |s.users|
    ensures UserFrame(s, UserStep(s, u, a), u)
  {
    hide FetchStep, RetireStep, CommitStep, ClearStep, UserFrame;
    FetchFrame(s, u, a);
    RetireFrame(s, u, a);
    CommitFrame(s, u, a);
    ClearFrame(s, u, a);
  }

  /** The collector touches of a user only the tag of its field, and of the objects only those on the free
      list; it keeps its number for a whole run. */
  predicate CollectorFrame(s: State, t: State) {
    && t.marks == s.marks && t.ownerFrees == s.ownerFrees && t.table == s.table && t.limbo == s.limbo
    && |t.users| == |s.users| && (s.pc != Counting ==> t.counter == s.counter && t.epoch == s.epoch)
    && (forall w | 0 <= w < |s.users| ::
          && t.users[w] == s.users[w].(field := t.users[w].field)
          && (t.users[w].field.At? <==> s.users[w].field.At?)
          && (s.users[w].field.At? ==> t.users[w].field.p == s.users[w].field.p))
    && (forall o | o in t.freeList :: o in s.freeList && (t.freeList[o] == s.freeList[o] || t.freeList[o] == s.epoch))
    && (!s.pc.Release? ==> t.live == s.live)
  }

  lemma StartFrame(s: State)
    requires s.pc.Waiting? || s.pc.Counting? || s.pc.NextUser? || s.pc.AwaitPending?
    ensures CollectorFrame(s, StartStep(s)) && StartStep(s).users == s.users
    ensures StartStep(s).sets == s.sets && StartStep(s).freeList == s.freeList
  {
    match s.pc
    case Waiting =>
    case Counting =>
    case NextUser => if s.next == 0 { } else { }
    case AwaitPending => if !Current(s) || s.users[s.next - 1].pending { } else { }
  }

  lemma LoadFrame(s: State)
    requires s.pc.LoadSet?
    ensures CollectorFrame(s, TagStep(s)) && TagStep(s).users == s.users
    ensures TagStep(s).sets == s.sets && TagStep(s).freeList == s.freeList
  {
    if Current(s) { }
  }

  lemma TagSuccessFrame(s: State)
    requires s.pc.TagSet? && Current(s) && s.pc.seen != Null && s.users[s.next - 1].field == s.pc.seen
    ensures CollectorFrame(s, TagStep(s)) && TagStep(s).sets == s.sets && TagStep(s).freeList == s.freeList
  {
    TagIs(s);
    hide TagStep;
  }

  lemma TagFrame(s: State)
    requires s.pc.TagSet?
    ensures CollectorFrame(s, TagStep(s)) && TagStep(s).sets == s.sets && TagStep(s).freeList == s.freeList
  {
    hide CollectorFrame;
    if Current(s) && s.pc.seen.At? && s.users[s.next - 1].field == s.pc.seen {
      TagSuccessFrame(s);
    } else {
      TagElseFrame(s);
    }
  }

  lemma TagElseFrame(s: State)
    requires s.pc.TagSet? && !(Current(s) && s.pc.seen.At? && s.users[s.next - 1].field == s.pc.seen)
    ensures CollectorFrame(s, TagStep(s)) && TagStep(s).sets == s.sets && TagStep(s).freeList == s.freeList
  {
    if Current(s) { if s.pc.seen == Null { } else { } }
  }

  lemma MarkFrame(s: State)
    requires s.pc.Scan? || s.pc.Mark?
    ensures CollectorFrame(s, ScanStep(s)) && ScanStep(s).sets == s.sets && ScanStep(s).users == s.users
    ensures ScanStep(s).freeList.Keys == s.freeList.Keys
  {
    if s.pc.Scan? {
      if s.pc.p in s.sets && s.pc.k < |s.sets[s.pc.p].members| {
        ScanIs(s);
        hide ScanStep;
      }
    } else {
      if s.pc.o !in s.freeList { } else { }
    }
  }

  lemma UntagFrame(s: State)
    requires s.pc.Untag?
    ensures CollectorFrame(s, ScanStep(s)) && ScanStep(s).freeList == s.freeList
  {
    if Current(s) {
      UntagIs(s);
      hide ScanStep;
      if s.users[s.next - 1].field == At(s.pc.p, true) { } else { }
    }
  }

  lemma SweepFrame(s: State, o: Obj)
    requires s.pc.Sweep? || s.pc.Release?
    ensures CollectorFrame(s, SweepStep(s, o)) && SweepStep(s, o).sets == s.sets && SweepStep(s, o).users == s.users
  {
    if s.pc.Sweep? {
      if o in s.freeList && o !in s.pc.visited {
        if s.freeList[o] < s.epoch { } else { }
      }
    }
  }

  lemma CollectorFrames(s: State, o: Obj)
    ensures CollectorFrame(s, CollectorStep(s, o))
    ensures !s.pc.Untag? ==> CollectorStep(s, o).sets == s.sets
    ensures !s.pc.TagSet? && !s.pc.Untag? ==> CollectorStep(s, o).users == s.users
  {
    hide StartStep, TagStep, ScanStep, SweepStep, CollectorFrame;
    match s.pc
    case LoadSet => LoadFrame(s);
    case TagSet(_) => TagFrame(s);
    case Scan(_, _) => MarkFrame(s);
    case Mark(_, _, _) => MarkFrame(s);
    case Untag(_) => UntagFrame(s);
    case Sweep(_, _) => SweepFrame(s, o);
    case Release(_, _, _) => SweepFrame(s, o);
    case _ => StartFrame(s);
  }
}
