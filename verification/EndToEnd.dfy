/** From the commands of a connection to its replies (onestep_thread, packet_reciever): the k-th command
    read registers index k, `runner` commits its answer there, and the queue sends in index order. */
module EndToEnd {
  import opened Bytes
  import opened RespFormat
  import opened RespParser
  import opened SendQueueProtocol
  import opened SendQueueProof
  import opened SendQueues
  import opened Replies

  /** How the server answers the k-th command of a connection: any program of replies. Equal commands may be
      answered differently, since what they find depends on those before them. */
  type Behaviour = (nat, Command) -> Outcome

  /** All reply* calls that runner makes for an outcome, its own among them, in order; each is guarded by
      needs_reply, the OK at the end too. */
  function Program(outcome: Outcome): (calls: seq<Call>)
    ensures calls != [] && ReplyOf(calls[0]) == AnswerOf(outcome)
  {
    var end := [CallSimpleString("OK")];
    match outcome
    case NoName => end
    case UnknownCommand => [CallError("ERR unknown command")] + end
    case Meta(calls) => calls + end
    case WrongLength => [CallSimpleString("ERR other thingie")] + end
    case ArgumentTrouble(WrongTypeToModify) => [CallError("ERR WRONGTYPE")] + end
    case ArgumentTrouble(NothingToRead) => [CallNilBulkString] + end
    case ArgumentTrouble(WrongTypeToRead) => [CallError("ERR WRONGTYPE"), CallNilBulkString] + end
    case ArgumentTrouble(OtherTrouble) => [CallSimpleString("ERR other thingie")] + end
    case Normal(calls, wrong) => calls + (if wrong then [CallSimpleString("ERR wrong arg count")] else []) + end
  }

  // ---------- the owner threads run their commands ----------

  /** struct predis_ctx of the thread that runs a command: the calls it has yet to make. `commits` is a history
      variable. */
  datatype Job = Job(calls: seq<Call>, needsReply: bool, commits: seq<Reply>)

  /** The reply queue with its threads, and what each thread still has to do before it drains. */
  datatype Server = Server(queue: State, jobs: seq<Job>)

  datatype Turn = Register | Work(i: nat)

  predicate ServerShape(v: Server) { Shape(v.queue) && |v.jobs| == v.queue.q.tail }

  function Start(length: nat): (v: Server)
    ensures ServerShape(v)
  {
    Server(Init(length), [])
  }

  /** The thread that was handed command k gets the calls of programs(k). */
  function RegisterTurn(v: Server, programs: nat -> seq<Call>): (w: Server)
    requires ServerShape(v)
    ensures ServerShape(w)
  {
    var queue := RegisterStep(v.queue);
    var k := v.queue.q.tail;
    Server(queue, if queue.q.tail > k then v.jobs + [Job(programs(k), true, [])] else v.jobs)
  }

  /** One step of thread i: a guarded reply* call is refused, or commits (two stores) and then clears the flag;
      when all calls are made the thread goes on to drain. */
  function WorkTurn(v: Server, i: nat): (w: Server)
    requires ServerShape(v) && i < v.queue.q.tail
    ensures ServerShape(w)
  {
    var job := v.jobs[i];
    if job.calls == [] then v.(queue := OwnerNext(v.queue, i, Nil))
    else if !job.needsReply then v.(jobs := v.jobs[i := job.(calls := job.calls[1..])])
    else
      var reply := ReplyOf(job.calls[0]);
      match v.queue.owners[i].pc
      case WriteData => v.(queue := OwnerNext(v.queue, i, reply))
      case SetReady =>
        Server(OwnerNext(v.queue, i, reply), v.jobs[i := job.(commits := job.commits + [reply])])
      case _ => v.(jobs := v.jobs[i := job.(needsReply := false, calls := job.calls[1..])])
  }

  function Turned(v: Server, turn: Turn, programs: nat -> seq<Call>): (w: Server)
    requires ServerShape(v)
    ensures ServerShape(w)
  {
    match turn
    case Register => RegisterTurn(v, programs)
    case Work(i) => if i < v.queue.q.tail then WorkTurn(v, i) else v
  }

  /** Any interleaving of the registrar and the threads. */
  function Served(length: nat, turns: seq<Turn>, programs: nat -> seq<Call>): (v: Server)
    ensures ServerShape(v)
  {
    if turns == [] then Start(length)
    else Turned(Served(length, turns[..|turns| - 1], programs), turns[|turns| - 1], programs)
  }

  /** Until its commit the thread is at the first call of its program; from then on its index holds that call's
      reply and the calls that are left are refused. */
  predicate JobOk(job: Job, o: Owner, program: seq<Call>)
    requires program != []
  {
    var first := ReplyOf(program[0]);
    if Committed(o.pc)
    then o.reply == Full(first) && job.commits == [first]
         && (job.needsReply ==> job.calls == program) && (job.calls != [] ==> o.pc == LoadHead)
    else job.needsReply && job.calls == program && job.commits == []
         && o.reply == (if o.pc == WriteData then Blank else Full(first))
  }

  predicate JobsOk(v: Server, programs: nat -> seq<Call>)
    requires ServerShape(v)
  {
    forall i | 0 <= i < v.queue.q.tail :: programs(i) != [] && JobOk(v.jobs[i], v.queue.owners[i], programs(i))
  }

  lemma RegisterKeepsJobs(v: Server, programs: nat -> seq<Call>)
    requires ServerShape(v) && JobsOk(v, programs) && programs(v.queue.q.tail) != []
    ensures JobsOk(RegisterTurn(v, programs), programs)
  {
  }

  lemma OwnerStaysCommitted(s: State, i: nat, reply: Reply)
    requires Shape(s) && i < s.q.tail
    ensures var o, o' := s.owners[i], OwnerNext(s, i, reply).owners[i];
            && OwnerNext(s, i, reply).q.tail == s.q.tail
            && (Committed(o.pc) ==> Committed(o'.pc))
            && (o.pc == WriteData ==> o'.pc == SetReady) && (o.pc == SetReady ==> o'.pc == LoadHead)
  {
  }

  lemma WorkKeepsJobs(v: Server, i: nat, programs: nat -> seq<Call>)
    requires ServerShape(v) && i < v.queue.q.tail && JobsOk(v, programs)
    ensures JobsOk(WorkTurn(v, i), programs)
  {
    var job, pc := v.jobs[i], v.queue.owners[i].pc;
    assert JobOk(job, v.queue.owners[i], programs(i));
    if job.calls == [] || (job.needsReply && !Committed(pc)) {
      var reply := if job.calls == [] then Nil else ReplyOf(job.calls[0]);
      OwnerWritesItself(v.queue, i, reply);
      OwnerStaysCommitted(v.queue, i, reply);
      hide OwnerNext;
    }
  }

  lemma {:induction false} EveryJobIsOk(length: nat, turns: seq<Turn>, programs: nat -> seq<Call>)
    requires forall k :: programs(k) != []
    ensures JobsOk(Served(length, turns, programs), programs)
  {
    hide RegisterTurn, WorkTurn, JobsOk;
    if turns == [] {
      assert JobsOk(Start(length), programs) by { NoJobsYet(length, programs); }
    } else {
      var n := |turns| - 1;
      var v := Served(length, turns[..n], programs);
      EveryJobIsOk(length, turns[..n], programs);
      match turns[n]
      case Register => RegisterKeepsJobs(v, programs);
      case Work(i) => if i < v.queue.q.tail { WorkKeepsJobs(v, i, programs); }
    }
  }

  lemma NoJobsYet(length: nat, programs: nat -> seq<Call>)
    ensures JobsOk(Start(length), programs)
  {
  }

  /** What the threads do to the queue is a schedule of the queue's own machine. */
  lemma {:induction false} QueueIsReached(length: nat, turns: seq<Turn>, programs: nat -> seq<Call>)
    returns (steps: seq<Step>)
    ensures Run(Init(length), steps) == Served(length, turns, programs).queue
  {
    hide RegisterStep, OwnerNext;
    steps := [];
    if turns != [] {
      var n := |turns| - 1;
      var v := Served(length, turns[..n], programs);
      var before := QueueIsReached(length, turns[..n], programs);
      var after := Turned(v, turns[n], programs).queue;
      steps := before;
      if after != v.queue {
        var step := match turns[n]
          case Register => Registrar
          case Work(i) =>
            OwnerStep(i, if v.jobs[i].calls == [] then Nil else ReplyOf(v.jobs[i].calls[0]));
        steps := before + [step];
        assert steps[..|steps| - 1] == before;
        assert Apply(v.queue, step) == after;
      }
    }
  }

  /** The k-th registration is for the k-th command read, whose outcome is outcomes(k). */
  function Programs(outcomes: nat -> Outcome): (programs: nat -> seq<Call>)
    ensures forall k :: programs(k) != []
  {
    var programs := (k: nat) => Program(outcomes(k));
    assert forall k: nat :: programs(k) == Program(outcomes(k));
    programs
  }

  /** The reply discipline in every interleaving: however many reply* calls a command makes, its thread commits
      at most once, exactly once by the end of its calls, and what it commits is the answer. */
  lemma EachCommitsOnce(length: nat, turns: seq<Turn>, outcomes: nat -> Outcome, i: nat)
    requires i < Served(length, turns, Programs(outcomes)).queue.q.tail
    ensures var v := Served(length, turns, Programs(outcomes)); var answer := AnswerOf(outcomes(i));
            && (v.jobs[i].commits == [] || v.jobs[i].commits == [answer])
            && (v.jobs[i].calls == [] ==> v.jobs[i].commits == [answer] && v.queue.owners[i].reply == Full(answer))
            && Promised(outcomes(i), answer)
  {
    hide Served;
    var programs := Programs(outcomes);
    EveryJobIsOk(length, turns, programs);
    var v := Served(length, turns, programs);
    assert JobOk(v.jobs[i], v.queue.owners[i], programs(i));
  }

  /** In every interleaving of the threads, and whatever the commands' outcomes are, the k-th reply sent is the
      answer to the k-th command read; and when all threads have left and no command is being registered, every
      command read has been answered. */
  lemma KthReplyAnswersKthCommand(length: nat, turns: seq<Turn>, outcomes: nat -> Outcome)
    ensures var s := Served(length, turns, Programs(outcomes)).queue;
            && |s.sent| <= s.q.tail
            && (forall k | 0 <= k < |s.sent| ::
                  && s.sent[k] == Full(AnswerOf(outcomes(k))) && Promised(outcomes(k), s.sent[k].reply)
                  && (outcomes(k) == ArgumentTrouble(NothingToRead) ==> s.sent[k] == Full(Nil)))
            && (s.reg == Check && (forall i | 0 <= i < s.q.tail :: s.owners[i].pc == Pc.Done) ==> |s.sent| == s.q.tail)
  {
    hide Served, Run;
    var programs := Programs(outcomes);
    var v := Served(length, turns, programs);
    var steps := QueueIsReached(length, turns, programs);
    OrderedDelivery(length, steps);
    QuiescentMeansDelivered(length, steps);
    EveryJobIsOk(length, turns, programs);
    var s := v.queue;
    forall k | 0 <= k < |s.sent|
      ensures s.sent[k] == Full(AnswerOf(outcomes(k))) && Promised(outcomes(k), s.sent[k].reply)
      ensures outcomes(k) == ArgumentTrouble(NothingToRead) ==> s.sent[k] == Full(Nil)
    {
      assert JobOk(v.jobs[k], s.owners[k], programs(k));
    }
  }

  // ---------- one thread, from bytes to replies ----------

  /** The arguments that a request's argv points at. */
  method Arguments(argv: seq<RespParser.Slice>, ghost allocations: seq<array<Byte>>,
          ghost cmd: Command) returns (args: Command)
    requires Spells(argv, allocations, cmd)
    ensures args == cmd
  {
    args := [];
    for i := 0 to |argv|
      invariant args == cmd[..i]
    {
      args := args + [argv[i].buf[argv[i].offset..argv[i].offset + argv[i].length]];
    }
  }

  lemma OneReady(q: Queue, reply: Reply)
    requires q.Shape() && q.length > 0 && q.tail == q.head + 1
    ensures ReadyRun(CommittedAt(q, q.head, reply), q.head) == [Full(reply)]
  {
    var r := CommittedAt(q, q.head, reply);
    assert ReadyRun(r, q.head + 1) == [];
  }

  /** Register, run, drain: the queue is empty before and after, and the one reply is sent. */
  method Answer(queue: SendQueue, outcome: Outcome) returns (sent: seq<Slot>)
    requires queue.Valid() && queue.length > 0 && queue.head == queue.tail == queue.headLock
    modifies queue, queue.ready, queue.data
    ensures queue.Valid() && queue.head == queue.tail == queue.headLock
    ensures sent == [Full(AnswerOf(outcome))] && Promised(outcome, sent[0].reply)
  {
    var index := queue.Register();
    var ctx := new Context(queue, index);
    ghost var q := queue.Memory();
    Runner(ctx, outcome);
    OneReady(q, AnswerOf(outcome));
    sent := DrainReplies(queue);
  }

  /** One call of the parser, and the answer to the request it may have finished. */
  method ServeOne(p: Parser, queue: SendQueue, behave: Behaviour, sent: seq<Slot>, ghost cmds: seq<Command>)
    returns (status: SmStatus, all: seq<Slot>)
    requires p.Valid() && |sent| <= |cmds| && p.rest == cmds[|sent|..]
    requires queue.Valid() && queue.length > 0 && queue.head == queue.tail == queue.headLock
    modifies p, p.sock, p.buf, queue, queue.ready, queue.data
    ensures p.Valid() && (p.buf == old(p.buf) || p.buf == null || fresh(p.buf))
    ensures queue.Valid() && queue.head == queue.tail == queue.headLock
    ensures Moved(old(p.Now()), p.Now(), Some(status)) && (status == SmStatus.Done ==> p.buf == null)
    ensures |all| <= |cmds| && p.rest == cmds[|all|..]
    ensures all == sent || (|all| == |sent| + 1 && all[..|sent|] == sent
                            && var outcome := behave(|sent|, cmds[|sent|]);
                               all[|sent|] == Full(AnswerOf(outcome)) && Promised(outcome, all[|sent|].reply))
  {
    hide Sync, Spells, EncodeAll, Encode, Place, BodyPlace, InRegime, Position, AnswerOf, Promised, Enough, Incomplete;
    status := p.Process();
    all := sent;
    if status == More || status == SmStatus.Done {
      hide Moved;
      var args := Arguments(p.argv, p.allocations, cmds[|sent|]);
      var replies := Answer(queue, behave(|sent|, args));
      all := sent + replies;
    }
  }

  /** A connection served by one thread: whatever the chunks in which the commands arrive, what is sent
      are the answers to the commands that have arrived, in order. */
  method Serve(p: Parser, queue: SendQueue, behave: Behaviour) returns (sent: seq<Slot>)
    requires p.Valid() && queue.Valid() && queue.length > 0 && queue.head == queue.tail == queue.headLock
    modifies p, p.sock, p.buf, queue, queue.ready, queue.data
    ensures p.Valid() && p.sock.turns == []
    ensures |sent| <= |old(p.rest)| && p.rest == old(p.rest)[|sent|..]
    ensures forall k | 0 <= k < |sent| ::
              var outcome := behave(k, old(p.rest)[k]);
              sent[k] == Full(AnswerOf(outcome)) && Promised(outcome, sent[k].reply)
    ensures Incomplete(p.Now()) && (p.sock.incoming == [] ==> |sent| == |old(p.rest)|)
    ensures old(Enough(p.sock.incoming, p.sock.turns)) ==> p.sock.incoming == [] && |sent| == |old(p.rest)|
  {
    hide Sync, Spells, EncodeAll, Encode, Place, BodyPlace, InRegime, Position, AnswerOf, Promised, Enough;
    ghost var cmds := p.rest;
    sent := [];
    var more := true;
    while more || p.sock.turns != []
      invariant p.Valid() && (p.buf == old(p.buf) || p.buf == null || fresh(p.buf))
      invariant queue.Valid() && queue.head == queue.tail == queue.headLock
      invariant |sent| <= |cmds| && p.rest == cmds[|sent|..]
      invariant forall k | 0 <= k < |sent| ::
                  var outcome := behave(k, cmds[k]);
                  sent[k] == Full(AnswerOf(outcome)) && Promised(outcome, sent[k].reply)
      invariant !more ==> Incomplete(p.Now()) && (p.sock.incoming == [] ==> p.rest == [])
      invariant old(Enough(p.sock.incoming, p.sock.turns)) ==> Enough(p.sock.incoming, p.sock.turns)
      decreases |p.rest|, |p.sock.turns|, if more then 1 else 0
    {
      var status;
      status, sent := ServeOne(p, queue, behave, sent, cmds);
      more := status == More;
      if status == SmStatus.Done {
        NothingReceived(p.Now());
        if p.sock.incoming == [] { NothingLeft(p.Now()); }
      }
    }
    assert Enough(p.sock.incoming, []) ==> p.sock.incoming == [] by { EnoughIsAll(p.sock.incoming); }
  }
}
