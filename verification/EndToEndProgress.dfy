/** No reachable state of a connection is stuck: whatever the threads have done so far, some continuation answers every
    command read, and then reads and answers one more. */
module EndToEndProgress {
  import opened SendQueueProtocol
  import opened SendQueueProof
  import opened SendQueueProgress
  import opened SendQueues
  import opened Replies
  import opened EndToEnd

  function Onward(v: Server, more: seq<Turn>, programs: nat -> seq<Call>): (w: Server)
    requires ServerShape(v)
    ensures ServerShape(w)
    decreases |more|
  {
    if more == [] then v else Onward(Turned(v, more[0], programs), more[1..], programs)
  }

  ghost predicate Leads(v: Server, w: Server, programs: nat -> seq<Call>)
    requires ServerShape(v)
  {
    exists more :: Onward(v, more, programs) == w
  }

  /** What every reachable state satisfies. */
  ghost predicate Sound(v: Server, programs: nat -> seq<Call>) {
    ServerShape(v) && Inv(v.queue) && JobsOk(v, programs) && forall k :: programs(k) != []
  }

  lemma LeadsNowhere(v: Server, programs: nat -> seq<Call>)
    requires ServerShape(v)
    ensures Leads(v, v, programs)
  {
    assert Onward(v, [], programs) == v;
  }

  lemma LeadsOne(v: Server, turn: Turn, w: Server, programs: nat -> seq<Call>)
    requires ServerShape(v) && ServerShape(w) && Leads(Turned(v, turn, programs), w, programs)
    ensures Leads(v, w, programs)
  {
    hide Turned;
    var more :| Onward(Turned(v, turn, programs), more, programs) == w;
    assert ([turn] + more)[1..] == more;
    assert Onward(v, [turn] + more, programs) == w;
  }

  lemma {:induction false} OnwardJoins(v: Server, a: seq<Turn>, b: seq<Turn>, programs: nat -> seq<Call>)
    requires ServerShape(v)
    ensures Onward(v, a + b, programs) == Onward(Onward(v, a, programs), b, programs)
    decreases |a|
  {
    hide Turned;
    if a == [] {
      assert a + b == b;
    } else {
      assert (a + b)[1..] == a[1..] + b;
      OnwardJoins(Turned(v, a[0], programs), a[1..], b, programs);
    }
  }

  lemma LeadsTransitive(u: Server, v: Server, w: Server, programs: nat -> seq<Call>)
    requires ServerShape(u) && ServerShape(v) && Leads(u, v, programs) && Leads(v, w, programs)
    ensures Leads(u, w, programs)
  {
    hide Onward;
    var a :| Onward(u, a, programs) == v;
    var b :| Onward(v, b, programs) == w;
    OnwardJoins(u, a, b, programs);
    assert Onward(u, a + b, programs) == w;
  }

  lemma {:induction false} ServedOnward(length: nat, turns: seq<Turn>, more: seq<Turn>, programs: nat -> seq<Call>)
    ensures Served(length, turns + more, programs) == Onward(Served(length, turns, programs), more, programs)
    decreases |more|
  {
    hide Turned;
    if more == [] {
      assert turns + more == turns;
    } else {
      assert turns + more == turns + [more[0]] + more[1..];
      assert (turns + [more[0]])[..|turns|] == turns;
      ServedOnward(length, turns + [more[0]], more[1..], programs);
    }
  }

  // ---------- soundness is kept ----------

  lemma RegisterIsSound(v: Server, programs: nat -> seq<Call>)
    requires ServerShape(v) && Sound(v, programs)
    ensures Sound(RegisterTurn(v, programs), programs)
  {
    hide Inv, JobsOk;
    RegisterKeepsJobs(v, programs);
    StepKeepsInv(v.queue, Registrar);
  }

  lemma WorkIsSound(v: Server, i: nat, programs: nat -> seq<Call>)
    requires ServerShape(v) && Sound(v, programs) && i < v.queue.q.tail
    ensures Sound(WorkTurn(v, i), programs)
  {
    WorkKeepsJobs(v, i, programs);
    hide Inv, JobsOk, OwnerNext;
    var reply := if v.jobs[i].calls == [] then Nil else ReplyOf(v.jobs[i].calls[0]);
    StepKeepsInv(v.queue, OwnerStep(i, reply));
    assert Apply(v.queue, OwnerStep(i, reply)) == OwnerNext(v.queue, i, reply);
  }

  // ---------- a thread's calls ----------

  /** What a thread that works alone leaves to the others. */
  predicate SameButFor(v: Server, w: Server, i: nat) {
    && ServerShape(v) && ServerShape(w) && w.queue.q.tail == v.queue.q.tail && w.queue.reg == v.queue.reg
    && forall j | 0 <= j < v.queue.q.tail && j != i ::
         w.queue.owners[j] == v.queue.owners[j] && w.jobs[j] == v.jobs[j]
  }

  lemma WorkKeepsOthers(v: Server, i: nat)
    requires ServerShape(v) && i < v.queue.q.tail
    ensures SameButFor(v, WorkTurn(v, i), i)
  {
    var reply := if v.jobs[i].calls == [] then Nil else ReplyOf(v.jobs[i].calls[0]);
    OwnerWritesItself(v.queue, i, reply);
    TailAndRegStay(v.queue, i, reply);
    hide OwnerNext;
  }

  lemma TailAndRegStay(s: State, i: nat, reply: Reply)
    requires Shape(s) && i < s.q.tail
    ensures var t := OwnerNext(s, i, reply); t.q.tail == s.q.tail && t.reg == s.reg
    ensures s.owners[i].pc == WriteData || s.owners[i].pc == SetReady ==> OwnerNext(s, i, reply).holder == s.holder
  {
  }

  function CommitLeft(pc: Pc): nat {
    match pc
    case WriteData => 2
    case SetReady => 1
    case _ => 0
  }

  lemma CallGetsNearer(v: Server, i: nat, programs: nat -> seq<Call>)
    requires ServerShape(v) && Sound(v, programs) && i < v.queue.q.tail && v.jobs[i].calls != []
    ensures var w := WorkTurn(v, i);
            && i < |w.jobs| && w.queue.holder == v.queue.holder
            && (|w.jobs[i].calls| < |v.jobs[i].calls|
                || (w.jobs[i].calls == v.jobs[i].calls
                    && CommitLeft(w.queue.owners[i].pc) < CommitLeft(v.queue.owners[i].pc)))
  {
    hide Inv;
    assert JobOk(v.jobs[i], v.queue.owners[i], programs(i));
    var reply := ReplyOf(v.jobs[i].calls[0]);
    TailAndRegStay(v.queue, i, reply);
    OwnerStaysCommitted(v.queue, i, reply);
    OwnerWritesItself(v.queue, i, reply);
    hide OwnerNext;
  }

  /** A thread can always come to the end of its calls. */
  lemma {:induction false} CallsEnd(v: Server, i: nat, programs: nat -> seq<Call>) returns (w: Server)
    requires ServerShape(v) && Sound(v, programs) && i < v.queue.q.tail
    ensures ServerShape(w) && Sound(w, programs) && Leads(v, w, programs) && SameButFor(v, w, i)
    ensures w.queue.holder == v.queue.holder && w.jobs[i].calls == []
    decreases |v.jobs[i].calls|, CommitLeft(v.queue.owners[i].pc)
  {
    hide Sound, WorkTurn, Leads;
    if v.jobs[i].calls == [] {
      LeadsNowhere(v, programs);
      return v;
    }
    CallGetsNearer(v, i, programs);
    WorkKeepsOthers(v, i);
    WorkIsSound(v, i, programs);
    w := CallsEnd(WorkTurn(v, i), i, programs);
    LeadsOne(v, Work(i), w, programs);
  }

  lemma QueueIsSound(v: Server, programs: nat -> seq<Call>)
    requires ServerShape(v) && Sound(v, programs)
    ensures Inv(v.queue)
  {
    hide Inv, JobsOk;
  }

  // ---------- a thread's drain ----------

  lemma DrainTurnIs(v: Server, i: nat)
    requires ServerShape(v) && i < v.queue.q.tail && v.jobs[i].calls == []
    ensures WorkTurn(v, i) == v.(queue := OwnerNext(v.queue, i, Nil))
    ensures OwnerNext(v.queue, i, Nil).q.tail == v.queue.q.tail
  {
    TailAndRegStay(v.queue, i, Nil);
    hide OwnerNext;
  }

  /** A thread that has made its calls runs pop_start and pop_continue. */
  lemma {:induction false} DrainsAlone(v: Server, i: nat, n: nat, programs: nat -> seq<Call>)
    requires ServerShape(v) && Sound(v, programs) && i < v.queue.q.tail && v.jobs[i].calls == []
    ensures var w := v.(queue := Alone(v.queue, i, n));
            ServerShape(w) && Sound(w, programs) && Leads(v, w, programs) && SameButFor(v, w, i)
    decreases n
  {
    hide Sound, WorkTurn, OwnerNext, Leads, Inv, JobsOk;
    if n == 0 {
      assert v.(queue := Alone(v.queue, i, n)) == v;
      LeadsNowhere(v, programs);
    } else {
      var u := WorkTurn(v, i);
      DrainTurnIs(v, i);
      WorkIsSound(v, i, programs);
      WorkKeepsOthers(v, i);
      AloneUnroll(v.queue, i, n - 1);
      hide Alone;
      DrainsAlone(u, i, n - 1, programs);
      var w := u.(queue := Alone(u.queue, i, n - 1));
      LeadsOne(v, Work(i), w, programs);
    }
  }

  lemma EndOfCalls(v: Server, i: nat, programs: nat -> seq<Call>)
    requires ServerShape(v) && Sound(v, programs) && i < v.queue.q.tail
    ensures v.jobs[i].calls == [] ==> Committed(v.queue.owners[i].pc)
    ensures Draining(v.queue.owners[i].pc) ==> v.jobs[i].calls == [] && Committed(v.queue.owners[i].pc)
  {
    hide Inv;
    assert JobOk(v.jobs[i], v.queue.owners[i], programs(i));
  }

  /** Whoever drains comes to the end. */
  lemma HolderEnds(v: Server, programs: nat -> seq<Call>) returns (w: Server)
    requires ServerShape(v) && Sound(v, programs)
    ensures ServerShape(w) && Sound(w, programs) && Leads(v, w, programs) && w.queue.holder == -1
    ensures w.queue.q.tail == v.queue.q.tail && w.queue.reg == v.queue.reg
    ensures forall j | 0 <= j < v.queue.q.tail && v.queue.owners[j].pc == Pc.Done :: w.queue.owners[j].pc == Pc.Done
  {
    QueueIsSound(v, programs);
    HolderDrains(v.queue);
    var h := v.queue.holder;
    if h == -1 {
      LeadsNowhere(v, programs);
      return v;
    }
    assert Draining(v.queue.owners[h].pc) by { HolderIsDraining(v.queue); }
    EndOfCalls(v, h, programs);
    var n := OwnerLeaves(v.queue, h);
    DrainsAlone(v, h, n, programs);
    hide Sound, Inv, Leads, Alone;
    w := v.(queue := Alone(v.queue, h, n));
  }

  lemma HolderIsDraining(s: State)
    requires Inv(s) && s.holder != -1
    ensures 0 <= s.holder < s.q.tail && Draining(s.owners[s.holder].pc)
  {
    hide RingInv, SlotInv, SentInv, DrainerInv, StarterInv;
  }

  /** Every thread can always come to its end. */
  lemma ThreadEnds(v: Server, i: nat, programs: nat -> seq<Call>) returns (w: Server)
    requires ServerShape(v) && Sound(v, programs) && i < v.queue.q.tail
    ensures ServerShape(w) && Sound(w, programs) && Leads(v, w, programs) && w.queue.holder == -1
    ensures w.queue.q.tail == v.queue.q.tail && w.queue.reg == v.queue.reg
    ensures w.queue.owners[i].pc == Pc.Done
    ensures forall j | 0 <= j < v.queue.q.tail && v.queue.owners[j].pc == Pc.Done :: w.queue.owners[j].pc == Pc.Done
  {
    hide Sound, Inv, Leads;
    var a := HolderEnds(v, programs);
    var b := CallsEnd(a, i, programs);
    QueueIsSound(b, programs);
    EndOfCalls(b, i, programs);
    var n := OwnerLeaves(b.queue, i);
    DrainsAlone(b, i, n, programs);
    w := b.(queue := Alone(b.queue, i, n));
    hide Alone;
    LeadsTransitive(v, a, b, programs);
    LeadsTransitive(v, b, w, programs);
  }

  /** All threads up to k can. */
  lemma {:induction false} ThreadsEnd(v: Server, k: nat, programs: nat -> seq<Call>) returns (w: Server)
    requires ServerShape(v) && Sound(v, programs) && k <= v.queue.q.tail
    ensures ServerShape(w) && Sound(w, programs) && Leads(v, w, programs)
    ensures w.queue.q.tail == v.queue.q.tail && w.queue.reg == v.queue.reg
    ensures forall j | 0 <= j < k :: w.queue.owners[j].pc == Pc.Done
  {
    hide Sound, Leads, Inv;
    if k == 0 {
      LeadsNowhere(v, programs);
      return v;
    }
    var u := ThreadsEnd(v, k - 1, programs);
    w := ThreadEnds(u, k - 1, programs);
    LeadsTransitive(v, u, w, programs);
  }

  // ---------- the registrar ----------

  function RegisterLeft(reg: RegPc): nat {
    match reg
    case Check => 0
    case Reset => 3
    case Wipe => 2
    case Publish => 1
  }

  /** A registration under way can come to its end. */
  lemma {:induction false} RegistrationEnds(v: Server, programs: nat -> seq<Call>) returns (w: Server)
    requires ServerShape(v) && Sound(v, programs)
    ensures ServerShape(w) && Sound(w, programs) && Leads(v, w, programs) && w.queue.reg == Check
    ensures w.queue.q.tail == v.queue.q.tail + (if v.queue.reg == Check then 0 else 1)
    decreases RegisterLeft(v.queue.reg)
  {
    hide Inv, JobsOk, Leads;
    if v.queue.reg == Check {
      LeadsNowhere(v, programs);
      return v;
    }
    var u := RegisterTurn(v, programs);
    RegisterIsSound(v, programs);
    w := RegistrationEnds(u, programs);
    LeadsOne(v, Turn.Register, w, programs);
  }

  lemma QuiescentIsDelivered(s: State)
    requires Inv(s) && s.reg == Check && forall i | 0 <= i < s.q.tail :: s.owners[i].pc == Pc.Done
    ensures s.q.head == s.q.headLock == s.q.tail == |s.sent|
  {
    assert s.holder == -1;
    assert forall i: nat :: !WillLook(s, i);
    assert !HeadReady(s);
  }

  /** Everything read can be answered. */
  lemma AllAnswered(v: Server, programs: nat -> seq<Call>) returns (w: Server)
    requires ServerShape(v) && Sound(v, programs)
    ensures ServerShape(w) && Sound(w, programs) && Leads(v, w, programs)
    ensures w.queue.reg == Check && w.queue.q.head == w.queue.q.tail == |w.queue.sent|
    ensures v.queue.q.tail + (if v.queue.reg == Check then 0 else 1) == w.queue.q.tail
  {
    hide Sound, Leads, Inv;
    var u := RegistrationEnds(v, programs);
    w := ThreadsEnd(u, u.queue.q.tail, programs);
    QueueIsSound(w, programs);
    QuiescentIsDelivered(w.queue);
    LeadsTransitive(v, u, w, programs);
  }

  lemma {:induction false} ServedIsSound(length: nat, turns: seq<Turn>, programs: nat -> seq<Call>)
    requires forall k :: programs(k) != []
    ensures Sound(Served(length, turns, programs), programs)
  {
    EveryJobIsOk(length, turns, programs);
    var steps := QueueIsReached(length, turns, programs);
    Invariant(length, steps);
    hide Served, Inv, JobsOk, Run;
  }

  lemma LengthStays(length: nat, turns: seq<Turn>, programs: nat -> seq<Call>)
    ensures Served(length, turns, programs).queue.q.length == length
  {
    var steps := QueueIsReached(length, turns, programs);
    RunKeepsLength(length, steps);
  }

  lemma {:induction false} RunKeepsLength(length: nat, steps: seq<Step>)
    ensures Run(Init(length), steps).q.length == length
  {
    hide Apply;
    if steps != [] { RunKeepsLength(length, steps[..|steps| - 1]); }
  }

  /** From every state that threads with any programs of replies reach, some continuation answers every command
      read. */
  lemma CanAnswerAll(length: nat, turns: seq<Turn>, outcomes: nat -> Outcome) returns (more: seq<Turn>)
    ensures var programs := Programs(outcomes);
            var s, r := Served(length, turns, programs).queue, Served(length, turns + more, programs).queue;
            && r.q.tail == s.q.tail + (if s.reg == Check then 0 else 1)
            && r.reg == Check && r.q.head == r.q.tail == |r.sent|
            && forall k | 0 <= k < |r.sent| :: r.sent[k] == Full(AnswerOf(outcomes(k)))
  {
    hide Served, Sound, Onward;
    var programs := Programs(outcomes);
    var v := Served(length, turns, programs);
    ServedIsSound(length, turns, programs);
    var w := AllAnswered(v, programs);
    more :| Onward(v, more, programs) == w;
    ServedOnward(length, turns, more, programs);
    KthReplyAnswersKthCommand(length, turns + more, outcomes);
  }

  lemma FourTurns(length: nat, turns: seq<Turn>, programs: nat -> seq<Call>)
    requires var s := Served(length, turns, programs).queue; s.reg == Check && s.q.head == s.q.tail && s.q.length > 0
    ensures var four := [Turn.Register, Turn.Register, Turn.Register, Turn.Register];
            var s, r := Served(length, turns, programs).queue, Served(length, turns + four, programs).queue;
            r.reg == Check && r.q.tail == s.q.tail + 1
  {
    hide Served;
    var four := [Turn.Register, Turn.Register, Turn.Register, Turn.Register];
    ServedOnward(length, turns, four, programs);
    var v := Served(length, turns, programs);
    var v1 := RegisterTurn(v, programs);
    var v2 := RegisterTurn(v1, programs);
    var v3 := RegisterTurn(v2, programs);
    var v4 := RegisterTurn(v3, programs);
    assert Onward(v3, four[3..], programs) == v4;
    assert Onward(v2, four[2..], programs) == v4;
    assert Onward(v1, four[1..], programs) == v4;
  }

  /** And then it can read one more command, and answer that: however many commands have been read, there can always be
      one more answer. */
  lemma AlwaysOneMore(length: nat, turns: seq<Turn>, outcomes: nat -> Outcome) returns (more: seq<Turn>)
    requires length > 0
    ensures var programs := Programs(outcomes);
            var s, r := Served(length, turns, programs).queue, Served(length, turns + more, programs).queue;
            && r.q.tail > s.q.tail && |r.sent| == r.q.tail
            && r.sent[s.q.tail] == Full(AnswerOf(outcomes(s.q.tail)))
  {
    hide Served;
    var programs := Programs(outcomes);
    var first := CanAnswerAll(length, turns, outcomes);
    LengthStays(length, turns + first, programs);
    FourTurns(length, turns + first, programs);
    var four := [Turn.Register, Turn.Register, Turn.Register, Turn.Register];
    var last := CanAnswerAll(length, turns + first + four, outcomes);
    more := first + four + last;
    assert turns + more == turns + first + four + last;
  }
}
