/** gc_register_user, gc_free and gc_run of lib/gc.c as classes over their fields. Each method is one C function
    run with no other thread in between and with the mark as it is meant; what other threads may do meanwhile
    is the subject of module Gc, and GcAlone ties the two together. */
module GcRun {

  type Obj = nat   // 0 is the null pointer

  class WorkingSet {
    const members: seq<Obj>

    constructor (members: seq<Obj>)
      ensures this.members == members
    {
      this.members := members;
    }
  }

  /** struct gc_user; `tagged` is the low bit of working_set. */
  class User {
    var pending: bool
    var workingSet: WorkingSet?
    var tagged: bool

    constructor ()
      ensures !pending && workingSet == null && !tagged
    {
      pending, workingSet, tagged := false, null, false;
    }
  }

  predicate InSome(sets: seq<seq<Obj>>, o: Obj) {
    o != 0 && exists i :: 0 <= i < |sets| && o in sets[i]
  }

  /** The free list after the working sets have been scanned. */
  function Marked(freeList: map<Obj, nat>, sets: seq<seq<Obj>>, ctr: nat): map<Obj, nat> {
    map o | o in freeList :: if InSome(sets, o) then ctr else freeList[o]
  }

  /** The free list after the sweep. */
  function Swept(freeList: map<Obj, nat>, ctr: nat): map<Obj, nat> {
    map o | o in freeList && freeList[o] >= ctr :: freeList[o]
  }

  function AfterRun(freeList: map<Obj, nat>, sets: seq<seq<Obj>>, ctr: nat): map<Obj, nat> {
    Swept(Marked(freeList, sets, ctr), ctr)
  }

  function MembersOf(ws: WorkingSet?): seq<Obj> { if ws == null then [] else ws.members }

  /** gc_state, and the objects freed so far in order (a history variable). */
  class GcState {
    var users: seq<User>
    var freeList: map<Obj, nat>
    var usedCtr: nat
    ghost var freed: seq<Obj>

    ghost predicate Valid()
      reads this
    {
      && (forall i, j | 0 <= i < j < |users| :: users[i] != users[j])
      && (forall o | o in freeList :: freeList[o] <= usedCtr)
    }

    /** The members of the users' working sets. */
    ghost function Sets(): (s: seq<seq<Obj>>)
      reads this, users
      ensures |s| == |users|
    {
      seq(|users|, i requires 0 <= i < |users| reads this, users => MembersOf(users[i].workingSet))
    }

    constructor ()
      ensures Valid() && users == [] && freeList == map[] && usedCtr == 0 && freed == []
    {
      users, freeList, usedCtr, freed := [], map[], 0, [];
    }

    /** gc_register_user: a new user goes to the front of the list. */
    method Register() returns (usr: User)
      requires Valid()
      modifies this`users
      ensures Valid() && fresh(usr) && users == [usr] + old(users)
      ensures !usr.pending && usr.workingSet == null && !usr.tagged
    {
      usr := new User();
      users := [usr] + users;
    }

    /** gc_free: an object that is on the free list already keeps its stamp. */
    method Retire(o: Obj)
      requires Valid()
      modifies this`freeList
      ensures Valid()
      ensures freeList == if o in old(freeList) then old(freeList) else old(freeList)[o := usedCtr]
    {
      var used := usedCtr;
      if o !in freeList {
        freeList := freeList[o := used];
      }
    }

    /** The loop over one working set: what it holds of the free list gets the stamp of this run. */
    method MarkSet(ws: WorkingSet, ctr: nat)
      modifies this`freeList
      ensures freeList == Marked(old(freeList), [ws.members], ctr)
    {
      for i := 0 to |ws.members|
        invariant freeList == Marked(old(freeList), [ws.members[..i]], ctr)
      {
        MarkOneMore(old(freeList), ws.members, i, ctr);
        if ws.members[i] != 0 && ws.members[i] in freeList {
          freeList := freeList[ws.members[i] := ctr];
        }
      }
      assert ws.members[..|ws.members|] == ws.members;
    }

    /** gc_run. */
    method Run()
      requires Valid() && forall i | 0 <= i < |users| :: !users[i].pending && !users[i].tagged
      modifies this`freeList, this`usedCtr, this`freed, users
      ensures Valid() && usedCtr == old(usedCtr) + 1
      ensures freeList == AfterRun(old(freeList), old(Sets()), old(usedCtr))
      ensures |freed| >= |old(freed)| && freed[..|old(freed)|] == old(freed)
      ensures var now := freed[|old(freed)|..];
              && (forall i, j | 0 <= i < j < |now| :: now[i] != now[j])
              && (forall o :: o in now <==> o in old(freeList) && o !in freeList)
      ensures Sets() == old(Sets()) && forall i | 0 <= i < |users| :: !users[i].pending && !users[i].tagged
    {
      var list := users;
      var ctr := usedCtr;
      usedCtr := usedCtr + 1;
      hide Marked, Swept, InSome;
      ghost var sets := Sets();
      NothingMarked(freeList, ctr);
      for k := 0 to |list|
        invariant users == list && usedCtr == ctr + 1 && freed == old(freed)
        invariant freeList == Marked(old(freeList), sets[..k], ctr)
        invariant forall i | 0 <= i < |users| ::
                    !users[i].pending && !users[i].tagged && users[i].workingSet == old(users[i].workingSet)
      {
        ghost var was := freeList;
        var usr := list[k];
        var ws := usr.workingSet;
        if ws != null {
          usr.tagged := true;               // the compare-and-swap that sets the low bit
          MarkSet(ws, ctr);
          if usr.workingSet == ws && usr.tagged {
            usr.tagged := false;            // and the one that clears it
          }
        }
        MarkNextSet(old(freeList), sets, k, ctr, freeList);
      }
      assert sets[..|list|] == sets && sets == old(Sets());
      ghost var marked := freeList;
      assert marked == Marked(old(freeList), sets, ctr);
      Sweep(ctr);
      assert Sets() == sets;
    }

    /** The sweep: elements older than this run are taken off the list and freed. */
    method Sweep(ctr: nat)
      requires Valid() && usedCtr == ctr + 1
      modifies this`freeList, this`freed
      ensures Valid() && freeList == Swept(old(freeList), ctr)
      ensures |freed| >= |old(freed)| && freed[..|old(freed)|] == old(freed)
      ensures var now := freed[|old(freed)|..];
              && (forall i, j | 0 <= i < j < |now| :: now[i] != now[j])
              && (forall o :: o in now <==> o in old(freeList) && o !in freeList)
    {
      var rest := freeList.Keys;
      ghost var now: seq<Obj> := [];
      while rest != {}
        invariant rest <= freeList.Keys <= old(freeList).Keys && freed == old(freed) + now
        invariant forall o | o in freeList :: freeList[o] == old(freeList)[o]
        invariant forall o | o in old(freeList) && o !in rest :: o in freeList <==> old(freeList)[o] >= ctr
        invariant forall i, j | 0 <= i < j < |now| :: now[i] != now[j]
        invariant forall o :: o in now <==> o in old(freeList) && o !in freeList
        decreases |rest|
      {
        var o :| o in rest;
        if freeList[o] < ctr {
          freeList := freeList - {o};
          freed, now := freed + [o], now + [o];
        }
        rest := rest - {o};
      }
      assert freed[|old(freed)|..] == now;
      assert freeList == Swept(old(freeList), ctr);
    }
  }

  lemma InOne(members: seq<Obj>, o: Obj)
    ensures InSome([members], o) <==> o != 0 && o in members
  {
    assert o in members ==> o in [members][0];
  }

  lemma InPrefix(sets: seq<seq<Obj>>, k: nat, o: Obj)
    requires k < |sets|
    ensures InSome(sets[..k + 1], o) <==> InSome(sets[..k], o) || (o != 0 && o in sets[k])
  {
    if o in sets[k] { assert o in sets[..k + 1][k]; }
    if InSome(sets[..k], o) {
      var i :| 0 <= i < k && o in sets[..k][i];
      assert o in sets[..k + 1][i];
    }
  }

  lemma NothingMarked(freeList: map<Obj, nat>, ctr: nat)
    ensures Marked(freeList, [], ctr) == freeList
  {
  }

  lemma MarkOneMore(freeList: map<Obj, nat>, members: seq<Obj>, i: nat, ctr: nat)
    requires i < |members|
    ensures var was := Marked(freeList, [members[..i]], ctr);
            Marked(freeList, [members[..i + 1]], ctr) ==
              if members[i] != 0 && members[i] in was then was[members[i] := ctr] else was
  {
    assert members[..i + 1] == members[..i] + [members[i]];
    forall o
      ensures InSome([members[..i + 1]], o) <==> InSome([members[..i]], o) || (o != 0 && o == members[i])
    {
      InOne(members[..i], o);
      InOne(members[..i + 1], o);
    }
    hide InSome;
  }

  lemma MarkNextSet(freeList: map<Obj, nat>, sets: seq<seq<Obj>>, k: nat, ctr: nat, next: map<Obj, nat>)
    requires k < |sets|
    requires next == Marked(Marked(freeList, sets[..k], ctr), [sets[k]], ctr) || (sets[k] == []
        && next == Marked(freeList, sets[..k], ctr))
    ensures next == Marked(freeList, sets[..k + 1], ctr)
  {
    forall o
      ensures InSome(sets[..k + 1], o) <==> InSome(sets[..k], o) || InSome([sets[k]], o)
      ensures InSome([sets[k]], o) <==> o != 0 && o in sets[k]
    {
      InPrefix(sets, k, o);
      InOne(sets[k], o);
    }
    hide InSome;
  }
}
