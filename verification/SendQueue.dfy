/** lib/send_queue.c as a class over its ring arrays. A method runs one C function with no other
    thread in between; its contract is a function of the shared memory, and the `Alone` lemmas show
    that the step machine of `SendQueueProtocol`, run by one thread, computes the same function. */
module SendQueues {
  import opened SendQueueProtocol

  /** The replies that stand ready from index i on, up to the first that does not. */
  function ReadyRun(q: Queue, i: nat): (run: seq<Slot>)
    requires q.Shape()
    ensures i <= q.tail ==> i + |run| <= q.tail
    decreases q.tail - i
  {
    if i < q.tail && q.ready[q.SlotOf(i)] then [q.data[q.SlotOf(i)]] + ReadyRun(q, i + 1) else []
  }

  function Registered(q: Queue): (q': Queue)
    requires q.Shape()
    ensures q'.Shape()
  {
    if q.head <= q.tail && q.tail - q.head < q.length
    then q.(tail := q.tail + 1,
            ready := q.ready[q.SlotOf(q.tail) := false], data := q.data[q.SlotOf(q.tail) := Blank])
    else q
  }

  datatype Popped = Popped(code: int, item: Slot, after: Queue)

  function PopStarted(q: Queue): Popped
    requires q.Shape()
  {
    if q.head == q.tail || q.length == 0 then Popped(-1, Blank, q)
    else if !q.ready[q.SlotOf(q.head)] then Popped(-2, Blank, q)
    else if q.headLock != q.head then Popped(-3, Blank, q)
    else Popped(0, q.data[q.SlotOf(q.head)], q.(headLock := q.head + 1))
  }

  /** `pop_continue` finds the next index ready. */
  predicate CanContinue(q: Queue)
    requires q.Shape()
  {
    var next := q.head + 1;
    q.length > 0 && next != q.tail && q.ready[q.SlotOf(next)] && q.headLock != q.tail
  }

  class SendQueue {
    const length: nat
    var headLock: nat
    var head: nat
    var tail: nat
    const ready: array<bool>
    const data: array<Slot>

    ghost predicate Valid()
      reads this, ready, data
    {
      && ready.Length == data.Length == length
      && head <= tail <= head + length
      && (length == 0 ==> tail == 0)
    }

    ghost function Memory(): (q: Queue)
      requires Valid()
      reads this, ready, data
      ensures q.Shape()
    {
      Queue(length, head, headLock, tail, ready[..], data[..])
    }

    constructor (n: nat)
      ensures Valid() && Memory() == Init(n).q
      ensures fresh(ready) && fresh(data)
    {
      length := n;
      head, tail, headLock := 0, 0, 0;
      ready := new bool[n](_ => false);
      data := new Slot[n](_ => Blank);
      new;
      assert ready[..] == Init(n).q.ready;
      assert data[..] == Init(n).q.data;
    }

    method Register() returns (index: int)
      requires Valid()
      modifies this, ready, data
      ensures Valid() && Memory() == Registered(old(Memory()))
      ensures index == if old(tail - head) < length then old(tail) else -1
    {
      if tail - head < length {
        var rv := tail;
        ready[rv % length] := false;
        data[rv % length] := Blank;
        tail := tail + 1;
        index := rv;
      } else {
        index := -1;
      }
    }

    method Commit(index: nat, reply: Reply)
      requires Valid() && head <= index < tail
      modifies ready, data
      ensures Valid()
      ensures var q := old(Memory());
              Memory() == q.(data := q.data[q.SlotOf(index) := Full(reply)], ready := q.ready[q.SlotOf(index) := true])
    {
      data[index % length] := Full(reply);
      ready[index % length] := true;
    }

    method PopStart() returns (code: int, item: Slot)
      requires Valid()
      modifies this`headLock
      ensures Valid() && Popped(code, item, Memory()) == PopStarted(old(Memory()))
      ensures code == -1 <==> old(head == tail)
      ensures code == -2 <==> old(head < tail && !ready[head % length])
      ensures code == -3 <==> old(head < tail && ready[head % length] && headLock != head)
      ensures code == 0 <==> old(head < tail && ready[head % length] && headLock == head)
      ensures if code == 0 then item == data[head % length] && headLock == head + 1
              else item == Blank && headLock == old(headLock)
    {
      item := Blank;
      var attempt := head;
      if attempt == tail {
        return -1, item;
      }
      if !ready[attempt % length] {
        return -2, item;
      }
      var copied := data[attempt % length];
      if headLock == attempt {
        headLock := attempt + 1;
        return 0, copied;
      }
      return -3, item;
    }

    method PopContinue() returns (code: int, item: Slot)
      requires Valid() && head < tail
      modifies this`head, this`headLock
      ensures Valid() && head == old(head) + 1
      ensures headLock == old(headLock) + (if code == 0 then 1 else 0)
      ensures code == (if old(CanContinue(Memory())) then 0 else -1)
      ensures code == 0 ==> item == old(Memory().data[Memory().SlotOf(head + 1)])
    {
      item := Blank;
      var h := head;
      if h + 1 != tail && ready[(h + 1) % length] && headLock != tail {
        item := data[(h + 1) % length];
        headLock := headLock + 1;
        head := head + 1;
        code := 0;
      } else {
        head := head + 1;
        code := -1;
      }
    }
  }

  /** `pop_continue` until it fails, by the thread that holds the queue at its head. */
  method SendRest(queue: SendQueue) returns (out: seq<Slot>)
    requires queue.Valid() && queue.head < queue.tail && queue.headLock == queue.head + 1
    modifies queue`head, queue`headLock
    ensures queue.Valid()
    ensures out == old(ReadyRun(queue.Memory(), queue.head + 1))
    ensures queue.Memory() ==
            old(queue.Memory()).(head := old(queue.head) + 1 + |out|, headLock := old(queue.head) + 1 + |out|)
  {
    hide ReadyRun;
    ghost var q := queue.Memory();
    out := [];
    var code, item := queue.PopContinue();
    while code == 0
      invariant queue.Valid() && queue.head == q.head + 1 + |out| && queue.head <= queue.tail
      invariant queue.ready[..] == q.ready && queue.data[..] == q.data
          && queue.headLock == queue.head + (if code == 0 then 1 else 0) && queue.tail == q.tail
      invariant code == 0 <==> ReadyAt(q, queue.head)
      invariant code == 0 ==> item == q.data[q.SlotOf(queue.head)]
      invariant ReadyRun(q, q.head + 1) == out + ReadyRun(q, queue.head)
      decreases q.tail - |out|, code == 0
    {
      ReadyRunStep(q, q.head + 1, |out|, out, item);
      out := out + [item];
      code, item := queue.PopContinue();
    }
    NothingReady(q, queue.head);
    assert out + [] == out;
  }

  lemma NothingReady(q: Queue, i: nat)
    requires q.Shape() && !ReadyAt(q, i)
    ensures ReadyRun(q, i) == []
  {
  }

  /** The drain loop of a worker thread: it sends exactly the run of ready replies at the head, in
      order, and leaves the queue unlocked at the first index that is not ready. */
  method DrainReplies(queue: SendQueue) returns (out: seq<Slot>)
    requires queue.Valid() && queue.headLock == queue.head
    modifies queue`head, queue`headLock
    ensures queue.Valid()
    ensures out == old(ReadyRun(queue.Memory(), queue.head))
    ensures queue.Memory() ==
            old(queue.Memory()).(head := old(queue.head) + |out|, headLock := old(queue.head) + |out|)
  {
    ghost var q := queue.Memory();
    out := [];
    var code, item := queue.PopStart();
    if code == 0 {
      RunIgnoresCounters(q, queue.Memory(), q.head + 1);
      var rest := SendRest(queue);
      out := [item] + rest;
    }
  }

  predicate ReadyAt(q: Queue, i: nat)
    requires q.Shape()
  {
    i < q.tail && q.ready[q.SlotOf(i)]
  }

  lemma {:induction false} RunIgnoresCounters(q: Queue, q': Queue, i: nat)
    requires q.Shape() && q' == q.(head := q'.head, headLock := q'.headLock)
    ensures ReadyRun(q', i) == ReadyRun(q, i)
    decreases q.tail - i
  {
    if i < q.tail {
      RunIgnoresCounters(q, q', i + 1);
    }
  }

  lemma ReadyRunStep(q: Queue, h: nat, n: nat, out: seq<Slot>, item: Slot)
    requires q.Shape() && ReadyAt(q, h + n) && item == q.data[q.SlotOf(h + n)]
    requires ReadyRun(q, h) == out + ReadyRun(q, h + n)
    ensures ReadyRun(q, h) == out + [item] + ReadyRun(q, h + n + 1)
  {
  }

  // ---------- a thread of the step machine that runs alone computes the same ----------

  /** n steps of owner i in a row. */
  function Alone(s: State, i: nat, n: nat): (s': State)
    requires Shape(s) && i < s.q.tail
    ensures Shape(s')
    decreases n
  {
    if n == 0 then s
    else
      var t := OwnerNext(s, i, Nil);
      if i < t.q.tail then Alone(t, i, n - 1) else t
  }

  lemma AloneUnroll(s: State, i: nat, n: nat)
    requires Shape(s) && i < s.q.tail && i < OwnerNext(s, i, Nil).q.tail
    ensures Alone(s, i, n + 1) == Alone(OwnerNext(s, i, Nil), i, n)
  {
  }

  lemma AloneLast(s: State, i: nat)
    requires Shape(s) && i < s.q.tail
    ensures Alone(s, i, 1) == OwnerNext(s, i, Nil)
  {
  }

  function RegisterAlone(s: State, n: nat): (s': State)
    requires Shape(s)
    ensures Shape(s')
    decreases n
  {
    if n == 0 then s else RegisterAlone(RegisterStep(s), n - 1)
  }

  /** Four registrar steps with nothing in between are one `Register`, and a thread is born for it. */
  lemma RegisterAloneIsRegistered(s: State)
    requires Shape(s) && s.reg == Check && s.q.head <= s.q.tail
    ensures RegisterAlone(s, 4).q == Registered(s.q) && RegisterAlone(s, 4).reg == Check
    ensures |RegisterAlone(s, 4).owners| == Registered(s.q).tail
  {
    var s1 := RegisterStep(s);
    var s2 := RegisterStep(s1);
    var s3 := RegisterStep(s2);
    var s4 := RegisterStep(s3);
    assert RegisterAlone(s, 4) == RegisterAlone(s1, 3) == RegisterAlone(s2, 2) == RegisterAlone(s3, 1) == s4;
  }

  /** The steps of `pop_start` run without interference compute `PopStarted`. */
  lemma PopStartAlone(s: State, i: nat) returns (n: nat)
    requires Shape(s) && i < s.q.tail && s.owners[i].pc == LoadHead
    ensures var p, t := PopStarted(s.q), Alone(s, i, n);
            && 0 < n <= 5 && t.q == p.after && i < t.q.tail
            && t.owners[i].pc == (if p.code == 0 then Send else if p.code == -3 then LoadHead else Done)
            && (p.code == 0 ==> t.owners[i].item == p.item)
  {
    hide Alone;
    var s1 := OwnerNext(s, i, Nil);
    var s2 := OwnerNext(s1, i, Nil);
    assert s1.q == s.q && s1.owners[i].pc == CheckTail && s1.owners[i].h == s.q.head;
    AloneUnroll(s, i, 1); AloneLast(s1, i);
    if s.q.head == s.q.tail { return 2; }
    assert s2.q == s.q && s2.owners[i].pc == CheckReady && s2.owners[i].h == s.q.head;
    var s3 := OwnerNext(s2, i, Nil);
    AloneUnroll(s, i, 2); AloneUnroll(s1, i, 1); AloneLast(s2, i);
    if !s.q.ready[s.q.SlotOf(s.q.head)] { return 3; }
    assert s3.q == s.q && s3.owners[i].pc == CopyItem && s3.owners[i].h == s.q.head;
    n := AloneAfterCheck(s3, i);
    AloneUnroll(s, i, 4); AloneUnroll(s1, i, 3); AloneUnroll(s2, i, 2);
    n := 5;
  }

  lemma AloneAfterCheck(s: State, i: nat) returns (n: nat)
    requires Shape(s) && i < s.q.tail && s.owners[i].pc == CopyItem
    ensures n == 2
    ensures var t := Alone(s, i, n);
            var o := s.owners[i];
            && i < t.q.tail
            && t.q == (if s.q.headLock == o.h then s.q.(headLock := o.h + 1) else s.q)
            && t.owners[i].pc == (if s.q.headLock == o.h then Send else LoadHead)
            && t.owners[i].item == s.q.data[s.q.SlotOf(o.h)]
  {
    hide Alone;
    n := 2;
    var s1 := OwnerNext(s, i, Nil);
    assert s1.q == s.q && s1.owners[i].pc == TryLock && s1.owners[i].h == s.owners[i].h;
    var s2 := OwnerNext(s1, i, Nil);
    AloneUnroll(s, i, 1); AloneLast(s1, i);
  }

  /** The steps of `pop_continue` run without interference do what the method does. */
  lemma PopContinueAlone(s: State, i: nat) returns (n: nat)
    requires Shape(s) && i < s.q.tail && s.owners[i].pc == ContLoad
    ensures var t, go := Alone(s, i, n), CanContinue(s.q);
            && 0 < n <= 8 && i < t.q.tail
            && t.q == s.q.(head := s.q.head + 1, headLock := if go then s.q.headLock + 1 else s.q.headLock)
            && t.owners[i].pc == (if go then Send else Done)
            && (go ==> t.owners[i].item == s.q.data[s.q.SlotOf(s.q.head + 1)])
  {
    hide Alone;
    var s1 := OwnerNext(s, i, Nil);
    assert s1.q == s.q && s1.owners[i].pc == ContTail && s1.owners[i].h == s.q.head;
    var s2 := OwnerNext(s1, i, Nil);
    if s.q.head + 1 == s.q.tail {
      AloneUnroll(s, i, 2); AloneUnroll(s1, i, 1); AloneLast(s2, i);
      return 3;
    }
    assert s2.q == s.q && s2.owners[i].pc == ContReady && s2.owners[i].h == s.q.head;
    n := AloneAfterTail(s2, i);
    AloneUnroll(s, i, n + 1); AloneUnroll(s1, i, n);
    n := n + 2;
  }

  lemma AloneAfterTail(s: State, i: nat) returns (n: nat)
    requires Shape(s) && i < s.q.tail && s.owners[i].pc == ContReady && s.owners[i].h == s.q.head
    ensures var t := Alone(s, i, n);
            var next := s.q.head + 1;
            var go := s.q.ready[s.q.SlotOf(next)] && s.q.headLock != s.q.tail;
            && 0 < n <= 6 && i < t.q.tail
            && t.q == (if go then s.q.(headLock := s.q.headLock + 1, head := next) else s.q.(head := next))
            && t.owners[i].pc == (if go then Send else Done)
            && (go ==> t.owners[i].item == s.q.data[s.q.SlotOf(next)])
  {
    hide Alone;
    var s1 := OwnerNext(s, i, Nil);
    if !s.q.ready[s.q.SlotOf(s.q.head + 1)] {
      AloneUnroll(s, i, 1); AloneLast(s1, i);
      return 2;
    }
    assert s1.q == s.q && s1.owners[i].pc == ContLock && s1.owners[i].h == s.q.head;
    n := AloneAfterReady(s1, i);
    AloneUnroll(s, i, n);
    n := n + 1;
  }

  lemma AloneBumps(s: State, i: nat)
    requires Shape(s) && i < s.q.tail && s.owners[i].pc == ContBumpLock
    ensures var t := Alone(s, i, 2);
            && i < t.q.tail && t.q == s.q.(headLock := s.q.headLock + 1, head := s.q.head + 1)
            && t.owners[i] == s.owners[i].(pc := Send)
  {
    hide Alone;
    var s1 := OwnerNext(s, i, Nil);
    assert s1.q == s.q.(headLock := s.q.headLock + 1) && s1.owners[i] == s.owners[i].(pc := ContBumpHead);
    AloneUnroll(s, i, 1); AloneLast(s1, i);
  }

  lemma AloneAfterReady(s: State, i: nat) returns (n: nat)
    requires Shape(s) && i < s.q.tail && s.owners[i].pc == ContLock
    ensures var t := Alone(s, i, n);
            var o := s.owners[i];
            var go := s.q.headLock != s.q.tail;
            && 0 < n <= 5 && i < t.q.tail
            && t.q == s.q.(headLock := s.q.headLock + (if go then 1 else 0), head := s.q.head + 1)
            && t.owners[i].pc == (if go then Send else Done)
            && (go ==> t.owners[i].item == s.q.data[s.q.SlotOf(o.h + 1)])
  {
    hide Alone;
    var o := s.owners[i];
    var s1 := OwnerNext(s, i, Nil);
    assert s1.q == s.q && s1.owners[i] == o.(pc := ContLockTail, l := s.q.headLock);
    var s2 := OwnerNext(s1, i, Nil);
    var s3 := OwnerNext(s2, i, Nil);
    if s.q.headLock == s.q.tail {
      AloneUnroll(s, i, 2); AloneUnroll(s1, i, 1); AloneLast(s2, i);
      return 3;
    }
    assert s2.q == s.q && s2.owners[i].pc == ContCopy && s2.owners[i].h == o.h;
    assert s3.q == s.q && s3.owners[i].pc == ContBumpLock && s3.owners[i].item == s.q.data[s.q.SlotOf(o.h + 1)];
    AloneBumps(s3, i);
    AloneUnroll(s, i, 4); AloneUnroll(s1, i, 3); AloneUnroll(s2, i, 2);
    n := 5;
  }
}
