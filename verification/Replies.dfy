/** The reply discipline: the guarded reply* functions (lib/commands.c), a command run by `runner`
    (network_parser.c), and the order of replies on a connection. */
module Replies {
  import opened SendQueueProtocol
  import opened SendQueues

  /** A call of one of the four reply* functions. */
  datatype Call =
    | CallSimpleString(text: string)
    | CallError(message: string)
    | CallInt(n: int)
    | CallBulkString(bytes: string)
    | CallNilBulkString

  function ReplyOf(call: Call): Reply {
    match call
    case CallSimpleString(text) => SimpleString(text)
    case CallError(message) => Error(message)
    case CallInt(n) => Number(n)
    case CallBulkString(bytes) => BulkString(bytes)
    case CallNilBulkString => Nil
  }

  /** What the fetch loop of runner meets when an argument cannot be had. */
  datatype Trouble = WrongTypeToModify | NothingToRead | WrongTypeToRead | OtherTrouble

  /** What dispatch and the command body decide: the body is any sequence of reply* calls. */
  datatype Outcome =
    | NoName
    | UnknownCommand
    | Meta(calls: seq<Call>)
    | WrongLength
    | ArgumentTrouble(trouble: Trouble)
    | Normal(calls: seq<Call>, wrongArgCount: bool)

  /** The first reply; OK when there is none. */
  function FirstOf(calls: seq<Call>, otherwise: Reply): Reply {
    if calls == [] then otherwise else ReplyOf(calls[0])
  }

  /** The one reply a client may expect. */
  function AnswerOf(outcome: Outcome): Reply {
    match outcome
    case NoName => SimpleString("OK")
    case UnknownCommand => Error("ERR unknown command")
    case Meta(calls) => FirstOf(calls, SimpleString("OK"))
    case WrongLength => SimpleString("ERR other thingie")
    case ArgumentTrouble(WrongTypeToModify) => Error("ERR WRONGTYPE")
    case ArgumentTrouble(NothingToRead) => Nil
    case ArgumentTrouble(WrongTypeToRead) => Error("ERR WRONGTYPE")
    case ArgumentTrouble(OtherTrouble) => SimpleString("ERR other thingie")
    case Normal(calls, wrong) => FirstOf(calls, SimpleString(if wrong then "ERR wrong arg count" else "OK"))
  }

  /** An error message, on whichever of the two ways. */
  predicate SaysErr(reply: Reply) {
    (reply.Error? && "ERR" <= reply.message) || (reply.SimpleString? && "ERR" <= reply.text)
  }

  /** The reply that a call asks for. */
  predicate AsksFor(call: Call, reply: Reply) {
    match call
    case CallSimpleString(text) => reply == SimpleString(text)
    case CallError(message) => reply == Error(message)
    case CallInt(n) => reply == Number(n)
    case CallBulkString(bytes) => reply == BulkString(bytes)
    case CallNilBulkString => reply == Nil
  }

  /** What a client is promised: the nil reply when there is nothing to read, an error when the command cannot be
      run, the body's first reply when it makes one, and else OK. */
  predicate Promised(outcome: Outcome, reply: Reply) {
    && (outcome == ArgumentTrouble(NothingToRead) ==> reply == Nil)
    && (outcome.UnknownCommand? || outcome.WrongLength? ==> SaysErr(reply))
    && (outcome.ArgumentTrouble? && outcome.trouble != NothingToRead ==> SaysErr(reply))
    && (outcome.NoName? ==> reply == SimpleString("OK"))
    && (outcome.Meta? || outcome.Normal? ==>
          if outcome.calls != [] then AsksFor(outcome.calls[0], reply)
          else if outcome.Normal? && outcome.wrongArgCount then SaysErr(reply)
          else reply == SimpleString("OK"))
  }

  /** The shared memory after a commit at index i. */
  function CommittedAt(q: Queue, i: nat, reply: Reply): (r: Queue)
    requires q.Shape() && q.length > 0
    ensures r.Shape()
  {
    q.(data := q.data[q.SlotOf(i) := Full(reply)], ready := q.ready[q.SlotOf(i) := true])
  }

  /** struct predis_ctx, as far as replies go. `commits` is a history variable. */
  class Context {
    const queue: SendQueue
    const index: nat          // send_queue_ptr
    var needsReply: bool
    ghost var commits: seq<Reply>

    constructor (queue: SendQueue, index: nat)
      ensures this.queue == queue && this.index == index && !needsReply && commits == []
    {
      this.queue, this.index, needsReply, commits := queue, index, false, [];
    }

    /** The index is registered and not sent yet. */
    ghost predicate Valid()
      reads this, queue, queue.ready, queue.data
    {
      queue.Valid() && queue.head <= index < queue.tail
    }

    /** A reply* call: committed once, and only if a reply is still owed. */
    twostate predicate Replied(reply: Reply, code: int)
      reads this, queue, queue.ready, queue.data
    {
      && Valid() && old(Valid()) && !needsReply
      && if old(needsReply)
         then && code == 0 && commits == old(commits) + [reply]
              && queue.Memory() == CommittedAt(old(queue.Memory()), index, reply)
         else code == 1 && commits == old(commits) && queue.Memory() == old(queue.Memory())
    }

    method Commit(reply: Reply)
      requires Valid()
      modifies this`commits, queue.ready, queue.data
      ensures Valid() && commits == old(commits) + [reply]
      ensures queue.Memory() == CommittedAt(old(queue.Memory()), index, reply)
    {
      queue.Commit(index, reply);
      commits := commits + [reply];
    }

    method ReplySimpleString(text: string) returns (code: int)
      requires Valid()
      modifies this`needsReply, this`commits, queue.ready, queue.data
      ensures Replied(SimpleString(text), code)
    {
      if !needsReply {
        return 1;
      }
      Commit(SimpleString(text));
      needsReply := false;
      return 0;
    }

    method ReplyError(message: string) returns (code: int)
      requires Valid()
      modifies this`needsReply, this`commits, queue.ready, queue.data
      ensures Replied(Error(message), code)
    {
      if !needsReply {
        return 1;
      }
      Commit(Error(message));
      needsReply := false;
      return 0;
    }

    method ReplyInt(n: int) returns (code: int)
      requires Valid()
      modifies this`needsReply, this`commits, queue.ready, queue.data
      ensures Replied(Number(n), code)
    {
      if !needsReply {
        return 1;
      }
      Commit(Number(n));
      needsReply := false;
      return 0;
    }

    /** A NULL string of length -1 makes the nil reply. */
    method ReplyBulkString(bytes: string, isNull: bool) returns (code: int)
      requires Valid()
      modifies this`needsReply, this`commits, queue.ready, queue.data
      ensures Replied(if isNull then Nil else BulkString(bytes), code)
    {
      if !needsReply {
        return 1;
      }
      Commit(if isNull then Nil else BulkString(bytes));
      needsReply := false;
      return 0;
    }

    /** A command body: its reply* calls in order, of which the first alone counts. */
    method Body(calls: seq<Call>)
      requires Valid()
      modifies this`needsReply, this`commits, queue.ready, queue.data
      ensures Valid() && (needsReply <==> old(needsReply) && calls == [])
      ensures if old(needsReply) && calls != []
              then && commits == old(commits) + [ReplyOf(calls[0])]
                   && queue.Memory() == CommittedAt(old(queue.Memory()), index, ReplyOf(calls[0]))
              else commits == old(commits) && queue.Memory() == old(queue.Memory())
    {
      for i := 0 to |calls|
        invariant Valid() && (needsReply <==> old(needsReply) && i == 0)
        invariant if old(needsReply) && i > 0
                  then && commits == old(commits) + [ReplyOf(calls[0])]
                       && queue.Memory() == CommittedAt(old(queue.Memory()), index, ReplyOf(calls[0]))
                  else commits == old(commits) && queue.Memory() == old(queue.Memory())
      {
        var code;
        match calls[i]
        case CallSimpleString(text) => code := ReplySimpleString(text);
        case CallError(message) => code := ReplyError(message);
        case CallInt(n) => code := ReplyInt(n);
        case CallBulkString(bytes) => code := ReplyBulkString(bytes, false);
        case CallNilBulkString => code := ReplyBulkString("", true);
      }
    }
  }

  /** runner: whatever the command does, exactly one reply is committed to its index, the expected one. */
  method Runner(ctx: Context, outcome: Outcome)
    requires ctx.Valid()
    modifies ctx`needsReply, ctx`commits, ctx.queue.ready, ctx.queue.data
    ensures ctx.Valid() && !ctx.needsReply
    ensures |ctx.commits| == |old(ctx.commits)| + 1 && ctx.commits[..|old(ctx.commits)|] == old(ctx.commits)
    ensures var reply := ctx.commits[|old(ctx.commits)|];
            && reply == AnswerOf(outcome) && Promised(outcome, reply)
            && (outcome == ArgumentTrouble(NothingToRead) ==> reply == Nil)
            && (reply == SimpleString("OK") ==>
                  || outcome.NoName?
                  || ((outcome.Meta? || outcome.Normal?) && outcome.calls == [])
                  || ((outcome.Meta? || outcome.Normal?) && outcome.calls[0] == CallSimpleString("OK")))
            && (reply == SimpleString("OK") && outcome.Normal? && outcome.calls == [] ==> !outcome.wrongArgCount)
    ensures ctx.queue.Memory() == CommittedAt(old(ctx.queue.Memory()), ctx.index, AnswerOf(outcome))
  {
    hide CommittedAt;
    var code;
    ctx.needsReply := true;
    var errorHappened, errorResolved := false, false;
    match outcome {
      case NoName =>
      case UnknownCommand => code := ctx.ReplyError("ERR unknown command");
      case Meta(calls) => ctx.Body(calls);
      case WrongLength => errorHappened := true;
      case ArgumentTrouble(trouble) =>
        errorHappened := true;
        match trouble {
          case WrongTypeToModify =>
            code := ctx.ReplyError("ERR WRONGTYPE");
            errorResolved := true;
          case NothingToRead =>
            errorResolved := true;
            code := ctx.ReplyBulkString("", true);
          case WrongTypeToRead =>
            code := ctx.ReplyError("ERR WRONGTYPE");
            errorResolved := true;
            code := ctx.ReplyBulkString("", true);
          case OtherTrouble =>
        }
      case Normal(calls, wrongArgCount) =>
        ctx.Body(calls);
        if wrongArgCount {
          code := ctx.ReplySimpleString("ERR wrong arg count");
        }
    }
    if errorHappened && !errorResolved {
      code := ctx.ReplySimpleString("ERR other thingie");
    }
    if ctx.needsReply {
      code := ctx.ReplySimpleString("OK");
    }
  }
}
