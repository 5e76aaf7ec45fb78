/** The resumable command parser of lib/resp_parser.c (resp_cmd_process_sm), on a connection that carries
    commands of at least one argument and at most 256 encoded bytes each. */
module RespParser {
  import opened Bytes
  import opened RespFormat

  const BUFSIZE: nat := 256
  const MAX_CHARS_IN_SIZE: nat := 32

  predicate InRegime(cmds: seq<Command>) {
    forall i | 0 <= i < |cmds| :: |cmds[i]| >= 1 && |Encode(cmds[i])| <= BUFSIZE
  }

  /** The commands of at most 256 bytes are exactly those whose every body, closing line end included,
      fits into the buffer that the command begins: no others may rely on what is proved here. */
  lemma BodiesFitIffSmall(cmd: Command)
    requires |cmd| >= 1
    ensures |Encode(cmd)| <= BUFSIZE <==> forall i | 0 <= i < |cmd| :: BodyPlace(cmd, i) + |cmd[i]| + 2 <= BUFSIZE
  {
    hide Encode, EncodeArg;
    WhatFollows(cmd, |cmd|);
    forall i | 0 <= i < |cmd|
      ensures BodyPlace(cmd, i) + |cmd[i]| + 2 == Place(cmd, i + 1) <= |Encode(cmd)|
    {
      ArgStands(cmd, i);
      PlaceOfNext(cmd, i);
    }
    assert Place(cmd, |cmd|) == BodyPlace(cmd, |cmd| - 1) + |cmd[|cmd| - 1]| + 2;
  }

  // ---------- the connection ----------

  datatype Received = Bytes(n: nat) | Again | Ended

  function Min(a: nat, b: nat): nat { if a < b then a else b }

  /** At how many turns something may be received. */
  function Chances(turns: seq<nat>): nat {
    if turns == [] then 0 else (if turns[0] > 0 then 1 else 0) + Chances(turns[1..])
  }

  /** Even one byte at a time, all of it can be received. */
  predicate Enough(incoming: seq<Byte>, turns: seq<nat>) { |incoming| <= Chances(turns) }

  lemma EnoughIsAll(incoming: seq<Byte>)
    ensures Enough(incoming, []) ==> incoming == []
  {
  }

  /** A non-blocking socket: the bytes still to be received, and how many of them each receive may take
      (0: nothing has arrived yet). */
  class Socket {
    var incoming: seq<Byte>
    var turns: seq<nat>
    var closed: bool

    constructor (incoming: seq<Byte>, turns: seq<nat>, closed: bool)
      ensures this.incoming == incoming && this.turns == turns && this.closed == closed
    {
      this.incoming, this.turns, this.closed := incoming, turns, closed;
    }

    /** recv into buf[used..total]: some bytes, EAGAIN, or the end of the stream. */
    method Recv(buf: array<Byte>, used: nat, total: nat) returns (r: Received)
      requires used < total <= buf.Length
      modifies this, buf
      ensures closed == old(closed) && (if old(turns) == [] then turns == [] else turns == old(turns)[1..])
      ensures r.Bytes? <==> old(turns != [] && turns[0] > 0 && incoming != [])
      ensures r.Ended? <==> old(turns != [] && turns[0] > 0 && incoming == [] && closed)
      ensures match r
              case Bytes(n) =>
                && n == Min(Min(old(turns)[0], total - used), |old(incoming)|)
                && incoming == old(incoming)[n..] && buf[..used + n] == old(buf[..used]) + old(incoming)[..n]
              case _ => incoming == old(incoming) && buf[..] == old(buf[..])
      ensures old(Enough(incoming, turns)) ==> Enough(incoming, turns)
    {
      if turns == [] {
        return Again;
      }
      var k := turns[0];
      turns := turns[1..];
      if k == 0 {
        return Again;
      }
      if incoming == [] {
        return if closed then Ended else Again;
      }
      var n := Min(Min(k, total - used), |incoming|);
      forall i | 0 <= i < n {
        buf[used + i] := incoming[i];
      }
      assert buf[..used + n] == old(buf[..used]) + incoming[..n];
      incoming := incoming[n..];
      return Bytes(n);
    }
  }

  // ---------- what the bytes in memory say ----------

  /** Of the memory mem the first `end` bytes have been received, of the stream s. */
  predicate Seen(mem: seq<Byte>, end: nat, s: seq<Byte>) {
    end <= |mem| && end <= |s| && forall j | 0 <= j < end :: mem[j] == s[j]
  }

  /** A number of which memory holds a part: its line end is found exactly when it has arrived, and
      strtol then reads the number. */
  predicate Readable(mem: seq<Byte>, end: nat, p: nat, n: nat)
    requires p <= end <= |mem|
  {
    var d := |Decimal(n)|;
    && (forall m | p <= m <= end :: CR in mem[p..m] <==> p + d < m)
    && (p + d < end ==> Strtol(mem[p..]) == (n, d) && mem[p + d] == CR)
    && (p + d + 1 < end ==> mem[p + d + 1] == LF)
  }

  lemma NumberInMemory(mem: seq<Byte>, end: nat, s: seq<Byte>, more: seq<Byte>, p: nat, n: nat)
    requires Seen(mem, end, s + more) && NumberAt(s, p, n) && p <= end
    ensures Readable(mem, end, p, n)
  {
    hide Strtol, Decimal;
    var digits := Decimal(n);
    var d := |digits|;
    forall j | p <= j < p + d && j < end
      ensures mem[j] == digits[j - p] && IsDigit(mem[j])
    {
      assert (s + more)[j] == s[j];
      assert s[p..p + d][j - p] == s[j];
      assert digits[j - p] in digits;
    }
    forall m | p <= m <= end
      ensures CR in mem[p..m] <==> p + d < m
    {
      if p + d < m {
        assert mem[p..m][d] == mem[p + d];
      } else {
        assert forall j | 0 <= j < m - p :: mem[p..m][j] == mem[p + j];
      }
    }
    if p + d < end {
      assert mem[p..p + d] == digits;
      assert mem[p..] == digits + mem[p + d..];
      StrtolReadsDecimal(n, mem[p + d..]);
    }
  }

  /** The head of a command, seen from the buffer that begins with it. */
  lemma HeadInMemory(mem: seq<Byte>, end: nat, cmd: Command, more: seq<Byte>)
    requires |cmd| >= 1 && |Encode(cmd)| <= BUFSIZE && 0 < end && Seen(mem, end, Encode(cmd) + more)
    ensures var d := |Decimal(|cmd|)|;
            && d <= 3 && Place(cmd, 0) == d + 3 < |Encode(cmd)|
            && Readable(mem, end, 1, |cmd|) && (d + 3 < end ==> mem[d + 3] == DOLLAR)
  {
    ArgsAreLong(cmd);
    DecimalIsShort(|cmd|);
    ArgStands(cmd, 0);
    HeadStands(cmd);
    hide Readable, Decimal, Encode, NumberAt;
    NumberInMemory(mem, end, Encode(cmd), more, 1, |cmd|);
  }

  /** An argument of the current command, seen from the buffer that begins with the command. */
  predicate ArgOk(mem: seq<Byte>, end: nat, cmd: Command, i: nat)
    requires i < |cmd| && end <= |mem|
  {
    var n := |cmd[i]|;
    var p, d, b := Place(cmd, i), |Decimal(n)|, BodyPlace(cmd, i);
    && d <= 3 && b == p + d + 3 && b + n + 2 == Place(cmd, i + 1) <= |Encode(cmd)|
    && (p < end ==> mem[p] == DOLLAR && Readable(mem, end, p + 1, n))
    && (b + n + 2 <= end ==> mem[b..b + n] == cmd[i] && mem[b + n] == CR && mem[b + n + 1] == LF)
  }

  lemma ArgInMemory(mem: seq<Byte>, end: nat, cmd: Command, i: nat, more: seq<Byte>)
    requires i < |cmd| && |Encode(cmd)| <= BUFSIZE && Seen(mem, end, Encode(cmd) + more)
    ensures ArgOk(mem, end, cmd, i)
  {
    hide Encode, EncodeArg, Place, BodyPlace, Decimal, Readable, NumberAt;
    ArgStands(cmd, i);
    PlaceOfNext(cmd, i);
    var e, n := Encode(cmd), |cmd[i]|;
    var p, b := Place(cmd, i), BodyPlace(cmd, i);
    DecimalIsShort(n);
    if p < end { NumberInMemory(mem, end, e, more, p + 1, n); }
    if b + n + 2 <= end { assert mem[b..b + n] == e[b..b + n]; }
  }

  // ---------- the parser ----------

  datatype Phase = Clean | ArrayStart | StringPre | StringStart | BodyFit

  datatype SmStatus = Error | Empty | Closed | More | Done

  /** What a parser and its connection stand for: the bytes received for the current command, how far
      they have been read, the bytes still to come, and the commands not handed out yet. */
  datatype View = View(
    state: Phase, start: nat, bsLength: int, argc: int, countdown: int,
    received: seq<Byte>, incoming: seq<Byte>, turns: seq<nat>, rest: seq<Command>)

  /** Argument i of the current command is being read. */
  predicate AtArg(v: View) {
    v.rest != [] && v.argc == |v.rest[0]| && 0 < v.countdown <= v.argc
  }

  /** The reading position within the current command. */
  predicate Position(v: View) {
    match v.state
    case Clean => v.start == 0
    case ArrayStart => v.rest != [] && v.start == 1
    case StringPre => AtArg(v) && v.start == Place(v.rest[0], v.argc - v.countdown) && v.bsLength == 0
    case StringStart => AtArg(v) && v.start == Place(v.rest[0], v.argc - v.countdown) + 1 && v.bsLength == 0
    case BodyFit =>
      && AtArg(v) && v.start == BodyPlace(v.rest[0], v.argc - v.countdown)
      && v.bsLength == |v.rest[0][v.argc - v.countdown]|
  }

  /** Nothing received is lost: what is in the buffer, and what is still to come, are the remaining
      commands; the consumed part of the buffer is the consumed part of the current command. */
  predicate Sync(v: View) {
    && InRegime(v.rest) && v.received + v.incoming == EncodeAll(v.rest)
    && v.start <= |v.received| <= BUFSIZE && Position(v)
  }

  /** The current command is not in the buffer as a whole; the buffer has room for the rest of it. */
  predicate Waiting(v: View) {
    v.rest != [] && |v.received| < |Encode(v.rest[0])| <= BUFSIZE && v.incoming != []
  }

  /** The next command has not been received as a whole. */
  predicate Incomplete(v: View) { v.rest != [] ==> |v.received| < |Encode(v.rest[0])| }

  /** How a visit of one label of the state machine, or a whole call, may end. */
  predicate Moved(a: View, b: View, r: Option<SmStatus>) {
    && |b.turns| <= |a.turns| && (Enough(a.incoming, a.turns) ==> Enough(b.incoming, b.turns))
    && match r
       case None =>
         && b.rest == a.rest && !b.state.Clean?
         && (|b.incoming| < |a.incoming| || (b.incoming == a.incoming && b.start > a.start))
       case Some(Error) => false
       case Some(Empty) =>      // a turn has passed, and no complete command is held back
         && b.rest == a.rest && (b.turns == [] || |b.turns| < |a.turns|)
         && Incomplete(b) && (b.incoming == [] ==> b.rest == [])
       case Some(Closed) =>     // only between commands
         b.rest == a.rest == [] && b.incoming == [] && (b.turns == [] || |b.turns| < |a.turns|)
       case Some(status) =>
         && a.rest != [] && b.rest == a.rest[1..] && b.state.Clean?
         && (status == More <==> b.received != [])
  }

  predicate Holds(mem: seq<Byte>, v: View) {
    |v.received| <= |mem| && mem[..|v.received|] == v.received
  }

  lemma MemoryIsSeen(v: View, mem: seq<Byte>)
    requires Sync(v) && v.rest != [] && Holds(mem, v)
    ensures Seen(mem, |v.received|, Encode(v.rest[0]) + EncodeAll(v.rest[1..]))
    ensures |v.rest[0]| >= 1 && |Encode(v.rest[0])| <= BUFSIZE
    ensures |v.received| < |Encode(v.rest[0])| ==> Waiting(v)
  {
    hide Encode, Position;
    var s := EncodeAll(v.rest);
    assert s == Encode(v.rest[0]) + EncodeAll(v.rest[1..]);
    forall j | 0 <= j < |v.received|
      ensures mem[j] == s[j]
    {
      assert (v.received + v.incoming)[j] == v.received[j] == mem[..|v.received|][j];
    }
  }

  /** RESP_SM_CLEAN meets a '*'. */
  lemma CleanStep(v: View, mem: seq<Byte>)
    requires Sync(v) && v.state.Clean? && v.received != [] && Holds(mem, v)
    ensures mem[0] == STAR && Sync(v.(state := ArrayStart, start := 1))
  {
    hide Decimal;
    MemoryIsSeen(v, mem);
    assert mem[0] == Encode(v.rest[0])[0];
  }

  lemma NothingLeft(v: View)
    requires Sync(v) && v.received == [] && v.incoming == []
    ensures v.rest == []
  {
    if v.rest != [] { EncodingIsNotEmpty(v.rest); }
  }

  lemma NothingReceived(v: View)
    requires v.received == []
    ensures Incomplete(v)
  {
  }

  lemma EncodingIsNotEmpty(cmds: seq<Command>)
    requires cmds != []
    ensures EncodeAll(cmds) != []
  {
    assert |Encode(cmds[0])| > 0;
  }

  /** RESP_SM_ARY_START reads the argument count as soon as it is all there. */
  lemma HeaderStep(v: View, mem: seq<Byte>)
    requires Sync(v) && v.state.ArrayStart? && Holds(mem, v)
    ensures var end := |v.received|;
            if end - v.start > 2 && CR in mem[v.start..end - 2] then
              var (n, used) := Strtol(mem[v.start..]); var p := v.start + used;
              && p + 2 < end && mem[p] == CR && mem[p + 1] == LF && mem[p + 2] == DOLLAR
              && Sync(v.(state := StringPre, start := p + 2, bsLength := 0, argc := n, countdown := n))
            else end - v.start < MAX_CHARS_IN_SIZE && Waiting(v)
    ensures v.rest != []
  {
    MemoryIsSeen(v, mem);
    hide Encode, EncodeAll, Decimal, Strtol, InRegime;
    HeadInMemory(mem, |v.received|, v.rest[0], EncodeAll(v.rest[1..]));
  }

  lemma ArgIsSeen(v: View, mem: seq<Byte>)
    requires Sync(v) && AtArg(v) && Holds(mem, v)
    ensures Position(v) && v.start <= |v.received| <= BUFSIZE
    ensures ArgOk(mem, |v.received|, v.rest[0], v.argc - v.countdown)
    ensures |v.received| < |Encode(v.rest[0])| ==> Waiting(v)
    ensures |Encode(v.rest[0])| <= BUFSIZE
  {
    MemoryIsSeen(v, mem);
    hide ArgOk, Seen, Waiting, Encode, InRegime;
    ArgInMemory(mem, |v.received|, v.rest[0], v.argc - v.countdown, EncodeAll(v.rest[1..]));
  }

  /** Reading on within what has been received. */
  lemma ReadOn(v: View, w: View)
    requires Sync(v) && w.rest == v.rest && w.received == v.received && w.incoming == v.incoming
    requires Position(w) && w.start <= |w.received|
    ensures Sync(w)
  {
  }

  /** RESP_SM_BS_START_PRE */
  lemma PreStep(v: View, mem: seq<Byte>)
    requires Sync(v) && v.state.StringPre? && Holds(mem, v)
    ensures if v.start < |v.received| then mem[v.start] == DOLLAR
        && Sync(v.(state := StringStart, start := v.start + 1))
            else Waiting(v)
  {
    hide Encode, Decimal, Strtol, Place, BodyPlace, Readable, Waiting;
    assert AtArg(v);
    ArgIsSeen(v, mem);
    hide Sync;
    if v.start < |v.received| { ReadOn(v, v.(state := StringStart, start := v.start + 1)); }
  }

  /** RESP_SM_BS_START reads a length as soon as it is all there; the body always fits. */
  lemma LengthStep(v: View, mem: seq<Byte>)
    requires Sync(v) && v.state.StringStart? && Holds(mem, v)
    ensures var end := |v.received|;
            if end - v.start > 1 && CR in mem[v.start..end - 1] then
              var (n, used) := Strtol(mem[v.start..]); var p := v.start + used;
              && p + 2 <= end && mem[p] == CR && mem[p + 1] == LF && BUFSIZE - (p + 2) >= n + 2
              && Sync(v.(state := BodyFit, start := p + 2, bsLength := n))
            else end - v.start < MAX_CHARS_IN_SIZE && Waiting(v)
    ensures v.bsLength == 0 && v.rest != []
  {
    hide Encode, Decimal, Strtol, Place, BodyPlace, Waiting;
    assert AtArg(v);
    ArgIsSeen(v, mem);
    hide Sync;
    var end, n := |v.received|, |v.rest[0][v.argc - v.countdown]|;
    var b := v.start + |Decimal(n)| + 2;
    if b <= end { ReadOn(v, v.(state := BodyFit, start := b, bsLength := n)); }
  }

  /** RESP_SM_BS_BODY_FIT */
  lemma BodyStep(v: View, mem: seq<Byte>)
    requires Sync(v) && v.state.BodyFit? && Holds(mem, v)
    ensures v.bsLength >= 0 && AtArg(v)
    ensures var next := v.start + v.bsLength + 2;
            if next <= |v.received| then
              && mem[next - 2] == CR && mem[next - 1] == LF
              && v.start == BodyPlace(v.rest[0], v.argc - v.countdown)
                  && v.bsLength == |v.rest[0][v.argc - v.countdown]|
              && next == Place(v.rest[0], v.argc - v.countdown + 1)
            else Waiting(v)
  {
    hide Encode, Decimal, Strtol, Place, BodyPlace, Waiting, Readable;
    assert AtArg(v);
    ArgIsSeen(v, mem);
    hide Sync;
  }

  /** The command is complete: its arguments are where argv points, and the next one begins behind it. */
  lemma CommandStep(v: View, mem: seq<Byte>)
    requires Sync(v) && v.state.BodyFit? && Holds(mem, v) && v.countdown == 1
    requires v.start + v.bsLength + 2 <= |v.received|
    ensures forall k | 0 <= k < v.argc ::
              BodyPlace(v.rest[0], k) + |v.rest[0][k]| <= |v.received| &&
              mem[BodyPlace(v.rest[0], k)..BodyPlace(v.rest[0], k) + |v.rest[0][k]|] == v.rest[0][k]
    ensures Sync(v.(state := Clean, start := 0, countdown := 0, rest := v.rest[1..],
                    received := v.received[v.start + v.bsLength + 2..]))
  {
    hide Encode, EncodeAll, Decimal, Place, BodyPlace, Sync, Position, Waiting;
    BodyStep(v, mem);
    WhatFollows(v.rest[0], v.argc);
    assert EncodeArgs(v.rest[0][v.argc..]) == [];
    NextCommand(v, v.start + v.bsLength + 2);
    forall k | 0 <= k < v.argc
      ensures BodyPlace(v.rest[0], k) + |v.rest[0][k]| <= |v.received| &&
              mem[BodyPlace(v.rest[0], k)..BodyPlace(v.rest[0], k) + |v.rest[0][k]|] == v.rest[0][k]
    {
      CommandArg(v, mem, k);
    }
  }

  lemma NextCommand(v: View, n: nat)
    requires Sync(v) && v.rest != [] && n == |Encode(v.rest[0])| <= |v.received|
    ensures Sync(v.(state := Clean, start := 0, countdown := 0, rest := v.rest[1..], received := v.received[n..]))
  {
    hide Encode, Place, BodyPlace;
    assert v.received[n..] + v.incoming == (v.received + v.incoming)[n..] == EncodeAll(v.rest[1..]);
  }

  lemma CommandArg(v: View, mem: seq<Byte>, k: nat)
    requires Sync(v) && Holds(mem, v) && AtArg(v) && |Encode(v.rest[0])| <= |v.received| && k < v.argc
    ensures var cmd := v.rest[0];
            && BodyPlace(cmd, k) + |cmd[k]| <= |v.received|
            && mem[BodyPlace(cmd, k)..BodyPlace(cmd, k) + |cmd[k]|] == cmd[k]
  {
    hide Encode, Decimal, Place, BodyPlace, Waiting, Readable, Seen;
    MemoryIsSeen(v, mem);
    ArgInMemory(mem, |v.received|, v.rest[0], k, EncodeAll(v.rest[1..]));
  }

  /** An argv entry: a pointer into a buffer, and the length beside it. */
  datatype Slice = Slice(buf: array<Byte>, offset: nat, length: nat)

  /** The argument vector of a finished request lies in its single allocation and spells the command. */
  ghost predicate Spells(argv: seq<Slice>, allocations: seq<array<Byte>>, cmd: Command)
    reads allocations
  {
    && |allocations| == 1 && |argv| == |cmd|
    && (forall k | 0 <= k < |argv| ::
          && argv[k].buf == allocations[0] && argv[k].offset + argv[k].length <= argv[k].buf.Length
          && argv[k].buf[argv[k].offset..argv[k].offset + argv[k].length] == cmd[k])
  }

  class Parser {
    const sock: Socket
    var state: Phase
    var buf: array?<Byte>
    var start: nat
    var end: nat
    var length: nat
    var bsLength: int
    var countdown: int
    // the result under construction
    var argc: int
    var argv: seq<Slice>
    var allocations: seq<array<Byte>>
    ghost var rest: seq<Command>      // the commands not handed out yet

    ghost predicate Shape()
      reads this
    {
      if buf == null then state.Clean? && start == end == 0
      else buf.Length == BUFSIZE + 1 && length == BUFSIZE && start <= end <= length
    }

    ghost function Now(): View
      requires Shape()
      reads this, buf, sock
    {
      View(state, start, bsLength, argc, countdown, if buf == null then [] else buf[..end],
           sock.incoming, sock.turns, rest)
    }

    /** One allocation per command; the arguments read so far point where the encoding has them. */
    ghost predicate ArgvOk()
      reads this
    {
      && buf != null && allocations == [buf] && rest != [] && |argv| == argc - countdown <= |rest[0]|
      && (forall k | 0 <= k < |argv| :: argv[k] == Slice(buf, BodyPlace(rest[0], k), |rest[0][k]|))
    }

    ghost predicate Valid()
      reads this, buf, sock
    {
      && Shape() && Sync(Now())
      && (state.ArrayStart? ==> argv == [])
      && (state.StringPre? || state.StringStart? || state.BodyFit? ==> ArgvOk())
    }

    /** resp_sm_init. */
    constructor (sock: Socket, ghost cmds: seq<Command>)
      requires InRegime(cmds) && sock.incoming == EncodeAll(cmds)
      ensures Valid() && this.sock == sock && rest == cmds && state == Clean && buf == null
    {
      this.sock := sock;
      state, buf, start, end, length, bsLength, countdown := Clean, null, 0, 0, 0, 0, 0;
      argc, argv, allocations := 0, [], [];
      rest := cmds;
    }

    /** rp_fill_remaining with resp_sm_handle_bad_recv: whatever may be received is. The buffer is never full
        here. */
    method Fill() returns (r: Option<SmStatus>)
      requires Shape() && buf != null && end < length
      modifies this`end, sock, buf
      ensures Shape() && Now().received + sock.incoming == old(Now().received + sock.incoming)
      ensures if old(sock.turns) == [] then sock.turns == [] else sock.turns == old(sock.turns)[1..]
      ensures r == None <==> old(sock.turns != [] && sock.turns[0] > 0 && sock.incoming != [])
      ensures r == Some(Closed) <==> old(sock.turns != [] && sock.turns[0] > 0 && sock.incoming == [] && sock.closed)
      ensures r != None ==> r == Some(Empty) || r == Some(Closed)
      ensures if r == None
              then var n := Min(Min(old(sock.turns)[0], length - old(end)), |old(sock.incoming)|);
                   n > 0 && end == old(end) + n && sock.incoming == old(sock.incoming)[n..]
              else Now().received == old(Now().received) && sock.incoming == old(sock.incoming)
      ensures old(Enough(sock.incoming, sock.turns)) ==> Enough(sock.incoming, sock.turns)
    {
      var received := sock.Recv(buf, end, length);
      match received
      case Bytes(n) =>
        end := end + n;
        r := None;
      case Again =>
        assert buf[..end] == buf[..][..end] == old(buf[..])[..end] == old(buf[..end]);
        r := Some(Empty);
      case Ended =>
        assert buf[..end] == buf[..][..end] == old(buf[..])[..end] == old(buf[..end]);
        r := Some(Closed);
    }

    /** A fill while the current command is not in the buffer as a whole. */
    method FillMore() returns (r: Option<SmStatus>)
      requires Valid() && !state.Clean? && Waiting(Now())
      modifies this`end, sock, buf
      ensures Valid() && Moved(old(Now()), Now(), r)
      ensures r == None || r == Some(Empty)
    {
      hide Encode, EncodeAll, Place, BodyPlace, InRegime;
      r := Fill();
    }

    method Prepare()
      requires Shape() && state.Clean?
      modifies this
      ensures Shape() && buf != null && (buf == old(buf) || fresh(buf))
      ensures Now() == old(Now())
      ensures argv == old(argv) && allocations == old(allocations)
    {
      if buf == null {
        buf := new Byte[BUFSIZE + 1];
        buf[BUFSIZE] := 0;
        start, end, length := 0, 0, BUFSIZE;
      }
    }

    /** The first fill for a command. */
    method FirstFill() returns (r: Option<SmStatus>)
      requires Valid() && state.Clean? && buf != null && start == end
      modifies this`end, sock, buf
      ensures Valid() && (r == None || r == Some(Empty) || r == Some(Closed))
      ensures if r == None
              then && Now().received != []
                   && |sock.incoming| < |old(sock.incoming)| && |sock.turns| <= |old(sock.turns)|
                   && (old(Enough(sock.incoming, sock.turns)) ==> Enough(sock.incoming, sock.turns))
              else Moved(old(Now()), Now(), r)
    {
      hide Encode, EncodeAll, InRegime, Place, BodyPlace, Incomplete, Enough, Min;
      if sock.incoming == [] { NothingLeft(Now()); }
      r := Fill();
      if r != None { NothingReceived(Now()); }
    }

    /** RESP_SM_CLEAN: a result is set up, and a buffer unless there is one with leftovers. */
    method FromClean() returns (r: Option<SmStatus>)
      requires Valid() && state.Clean?
      modifies this, sock, buf
      ensures Valid() && Moved(old(Now()), Now(), r)
      ensures r == None || r == Some(Empty) || r == Some(Closed)
      ensures buf == old(buf) || fresh(buf)
    {
      hide Encode, EncodeAll, InRegime, Place, BodyPlace, Strtol, Incomplete, Enough;
      ghost var v := Now();
      argc, argv, allocations := 0, [], [];     // resp_cmd_init
      Prepare();
      assert Sync(Now()) by { ReadOn(v, Now()); }
      r := None;
      if start == end {
        r := FirstFill();
      }
      assert Sync(Now());
      if r == None {
        CleanStep(Now(), buf[..]);
        hide Sync;
        if buf[start] == STAR {
          state, start := ArrayStart, start + 1;
        } else {
          r := Some(Error);
        }
      }
    }

    /** RESP_SM_ARY_START, and RESP_SM_BS_INIT behind it */
    method FromArrayStart() returns (r: Option<SmStatus>)
      requires Valid() && state.ArrayStart?
      modifies this, sock, buf
      ensures Valid() && Moved(old(Now()), Now(), r)
      ensures buf == old(buf) && (r == None || r == Some(Empty))
    {
      hide Strtol, Sync, Waiting, Encode, EncodeAll, Place, BodyPlace, Position;
      ghost var v := Now();
      HeaderStep(v, buf[..]);
      assert end - start > 2 ==> buf[start..end - 2] == buf[..][start..end - 2];
      assert buf[start..] == buf[..][start..];
      if end - start > 2 && CR in buf[start..end - 2] {
        var number := Strtol(buf[start..]);
        var ptr := start + number.1;
        countdown := number.0;
        if buf[ptr] == CR && buf[ptr + 1] == LF {
          start := ptr + 2;
          if buf[start] == DOLLAR {
            argc, allocations := countdown, [buf];
            bsLength, state := 0, StringPre;
            r := None;
            assert Now() ==
                   v.(state := StringPre, start := ptr + 2, bsLength := 0, argc := number.0, countdown := number.0);
          } else {
            r := Some(Error);
          }
        } else {
          r := Some(Error);
        }
      } else if end - start >= MAX_CHARS_IN_SIZE {
        r := Some(Error);
      } else {
        r := FillMore();
      }
    }

    /** RESP_SM_BS_START_PRE */
    method FromStringPre() returns (r: Option<SmStatus>)
      requires Valid() && state.StringPre?
      modifies this, sock, buf
      ensures Valid() && Moved(old(Now()), Now(), r)
      ensures buf == old(buf) && (r == None || r == Some(Empty))
    {
      hide Sync;
      PreStep(Now(), buf[..]);
      if start < end {
        if buf[start] == DOLLAR {
          start, state := start + 1, StringStart;
          r := None;
        } else {
          r := Some(Error);
        }
      } else if end < length {
        r := FillMore();
      } else {
        assert false;     // a fresh buffer in the middle of a command
      }
    }

    /** RESP_SM_BS_START, and RESP_SM_BS_BODY behind it */
    method FromStringStart() returns (r: Option<SmStatus>)
      requires Valid() && state.StringStart?
      modifies this, sock, buf
      ensures Valid() && Moved(old(Now()), Now(), r)
      ensures buf == old(buf) && (r == None || r == Some(Empty))
    {
      hide Strtol, BodyPlace, Encode, Sync;
      ghost var v := Now();
      LengthStep(v, buf[..]);
      assert end - start > 1 ==> buf[start..end - 1] == buf[..][start..end - 1];
      assert buf[start..] == buf[..][start..];
      if end - start > 1 && CR in buf[start..end - 1] {
        var number := Strtol(buf[start..]);
        var ptr := start + number.1;
        bsLength := bsLength * (10 * number.1) + number.0;
        if buf[ptr] == CR && buf[ptr + 1] == LF {
          start := ptr + 2;
          if length - start >= bsLength + 2 {
            state := BodyFit;
            r := None;
            assert Now() == v.(state := BodyFit, start := ptr + 2, bsLength := number.0);
          } else {
            assert false;     // a buffer of its own for a body that does not fit
          }
        } else {
          r := Some(Error);
        }
      } else if end - start >= MAX_CHARS_IN_SIZE {
        r := Some(Error);
      } else if end != length {
        r := FillMore();
      } else {
        assert false;     // a length split over two buffers
      }
    }

    /** The last of the arguments read so far has just been read. */
    ghost predicate ArgRead()
      reads this, buf, sock, allocations
    {
      && Shape() && buf != null && allocations == [buf] && rest != [] && 0 < countdown
      && |argv| == argc - countdown + 1 <= |rest[0]|
      && (forall k | 0 <= k < |argv| :: argv[k] == Slice(buf, BodyPlace(rest[0], k), |rest[0][k]|))
      && if countdown > 1 then Sync(Now().(state := StringPre, bsLength := 0, countdown := countdown - 1))
         else Spells(argv, allocations, rest[0]) &&
              Sync(Now().(state := Clean, start := 0, countdown := 0, rest := rest[1..],
                      received := Now().received[start..]))
    }

    /** RESP_SM_BS_BODY_FINISH, and RESP_SM_BS_INIT behind it */
    method Finish() returns (r: Option<SmStatus>)
      requires ArgRead()
      modifies this
      ensures Valid() && sock.incoming == old(sock.incoming) && sock.turns == old(sock.turns)
      ensures if old(countdown) > 1 then r == None && state.StringPre? && rest == old(rest)
          && start == old(start) && buf == old(buf)
              else && r == Some(if Now().received != [] then More else Done) && state.Clean? && rest == old(rest)[1..]
                   && argv == old(argv) && allocations == old(allocations)
                   && (if r == Some(Done) then buf == null else buf != null && fresh(buf))
    {
      hide Sync, Spells, BodyPlace;
      ghost var v := Now();
      countdown := countdown - 1;
      if countdown > 0 {
        bsLength, state := 0, StringPre;
        r := None;
      } else {
        rest := rest[1..];
        state := Clean;
        if start == end {
          buf, start, end := null, 0, 0;
          r := Some(Done);
          assert Now().received == v.received[v.start..];
        } else {
          var oldBuf := buf;
          buf := new Byte[BUFSIZE + 1];
          buf[BUFSIZE] := 0;
          forall i | 0 <= i < end - start {
            buf[i] := oldBuf[start + i];
          }
          assert buf[..end - start] == oldBuf[..end][start..];
          start, end, length := 0, end - start, BUFSIZE;
          r := Some(More);
          assert Now().received == v.received[v.start..];
        }
      }
    }

    lemma SlicesSpell(argv: seq<Slice>, buf: array<Byte>, cmd: Command)
      requires |argv| == |cmd| && forall k | 0 <= k < |cmd| :: argv[k] == Slice(buf, BodyPlace(cmd, k), |cmd[k]|)
      requires forall k | 0 <= k < |cmd| ::
                 && BodyPlace(cmd, k) + |cmd[k]| <= buf.Length
                 && buf[..][BodyPlace(cmd, k)..BodyPlace(cmd, k) + |cmd[k]|] == cmd[k]
      ensures Spells(argv, [buf], cmd)
    {
      hide BodyPlace;
      forall k | 0 <= k < |cmd|
        ensures buf[BodyPlace(cmd, k)..BodyPlace(cmd, k) + |cmd[k]|] == cmd[k]
      {
        var b := BodyPlace(cmd, k);
        assert buf[..][b..b + |cmd[k]|] == buf[b..b + |cmd[k]|];
      }
    }

    /** The argument in the buffer becomes the next argv entry. */
    method TakeArg()
      requires Valid() && state.BodyFit? && 0 <= bsLength && start + bsLength + 2 <= end
      modifies this`argv, this`start
      ensures ArgRead() && start > old(start)
    {
      hide Encode, EncodeAll, Place, BodyPlace, Waiting, Spells, InRegime;
      ghost var v := Now();
      BodyStep(v, buf[..]);
      argv := argv + [Slice(buf, start, bsLength)];
      start := start + bsLength + 2;
      if countdown == 1 {
        CommandStep(v, buf[..]);
        SlicesSpell(argv, buf, rest[0]);
        hide Sync;
        assert Now().(state := Clean, start := 0, countdown := 0, rest := rest[1..],
                received := Now().received[start..])
            == v.(state := Clean, start := 0, countdown := 0, rest := v.rest[1..], received := v.received[start..]);
      } else {
        ReadOn(v, v.(state := StringPre, start := start, bsLength := 0, countdown := countdown - 1));
      }
    }

    /** RESP_SM_BS_BODY_FIT */
    method FromBodyFit() returns (r: Option<SmStatus>)
      requires Valid() && state.BodyFit?
      modifies this, sock, buf
      ensures Valid() && Moved(old(Now()), Now(), r)
      ensures if r == Some(More) || r == Some(Done)
              then && Spells(argv, allocations, old(rest)[0]) && allocations == [old(buf)]
                   && (if r == Some(Done) then buf == null else buf != null && fresh(buf))
              else buf == old(buf) && (r == None || r == Some(Empty))
    {
      hide Sync, Waiting, Spells;
      BodyStep(Now(), buf[..]);
      if end - start >= bsLength + 2 {
        if buf[start + bsLength] == CR && buf[start + bsLength + 1] == LF {
          TakeArg();
          r := Finish();
        } else {
          r := Some(Error);
        }
      } else {
        r := FillMore();
      }
    }

    /** resp_cmd_process_sm: from wherever the last call stopped, on to the end of the current command or
        of what has arrived. A finished command is spelled by argv, in its one buffer, which the parser
        does not keep; MORE says that bytes of the next one are in a fresh buffer, DONE that there is no
        buffer. */
    method Process() returns (status: SmStatus)
      requires Valid()
      modifies this, sock, buf
      ensures Valid() && Moved(old(Now()), Now(), Some(status))
      ensures if status == More || status == Done
              then && |allocations| == 1 && Spells(argv, allocations, old(rest)[0])
                   && (allocations[0] == old(buf) || fresh(allocations[0]))
                   && (if status == Done then buf == null else buf != null && fresh(buf) && buf != allocations[0])
              else buf == old(buf) || fresh(buf)
    {
      hide Sync, Spells;
      var r: Option<SmStatus> := None;
      if state.Clean? {
        r := FromClean();
      }
      while r == None
        invariant Valid()
        invariant r == None ==> rest == old(rest) && |sock.turns| <= |old(sock.turns)| && !state.Clean?
        invariant r != None ==> Moved(old(Now()), Now(), r)
        invariant old(Enough(sock.incoming, sock.turns)) ==> Enough(sock.incoming, sock.turns)
        invariant if r == Some(More) || r == Some(Done)
                  then && old(rest) != [] && |allocations| == 1 && Spells(argv, allocations, old(rest)[0])
                       && (allocations[0] == old(buf) || fresh(allocations[0]))
                       && (if r == Some(Done) then buf == null else buf != null && fresh(buf) && buf != allocations[0])
                  else buf == old(buf) || fresh(buf)
        decreases if r == None then 1 else 0, |sock.incoming|, BUFSIZE - start
      {
        match state
        case ArrayStart => r := FromArrayStart();
        case StringPre => r := FromStringPre();
        case StringStart => r := FromStringStart();
        case BodyFit => r := FromBodyFit();
      }
      status := r.value;
    }
  }

  datatype Request = Request(argv: seq<Slice>, allocations: seq<array<Byte>>)

  /** One call of the parser, and the request it may have finished. */
  method ReceiveOne(p: Parser, requests: seq<Request>, ghost cmds: seq<Command>)
    returns (status: SmStatus, all: seq<Request>)
    requires p.Valid() && |requests| <= |cmds| && p.rest == cmds[|requests|..]
    requires forall k | 0 <= k < |requests| :: |requests[k].allocations| == 1 && requests[k].allocations[0] != p.buf
    requires forall k | 0 <= k < |requests| :: Spells(requests[k].argv, requests[k].allocations, cmds[k])
    requires forall j, k | 0 <= j < k < |requests| :: requests[j].allocations[0] != requests[k].allocations[0]
    modifies p, p.sock, p.buf
    ensures p.Valid() && (p.buf == old(p.buf) || p.buf == null || fresh(p.buf))
    ensures Moved(old(p.Now()), p.Now(), Some(status)) && (status == Done ==> p.buf == null)
    ensures |requests| <= |all| <= |cmds| && p.rest == cmds[|all|..]
    ensures forall k | 0 <= k < |all| :: |all[k].allocations| == 1 && all[k].allocations[0] != p.buf
    ensures forall k | 0 <= k < |all| :: Spells(all[k].argv, all[k].allocations, cmds[k])
    ensures forall j, k | 0 <= j < k < |all| :: all[j].allocations[0] != all[k].allocations[0]
  {
    hide Sync, Spells, EncodeAll, Encode, Place, BodyPlace, InRegime, Position;
    label before:
    status := p.Process();
    forall k | 0 <= k < |requests|
      ensures Spells(requests[k].argv, requests[k].allocations, cmds[k])
    {
      assert old@before(Spells(requests[k].argv, requests[k].allocations, cmds[k]));
    }
    all := requests;
    if status == More || status == Done {
      hide Moved;
      assert Spells(p.argv, p.allocations, cmds[|requests|]);
      all := requests + [Request(p.argv, p.allocations)];
    }
  }

  /** A connection from one receive to the next until no more arrives (packet_reciever, called again and
      again): however the stream is cut up, the requests are the commands sent, in order and intact even
      after later ones have been read; none that has arrived as a whole is missing, and ERROR never
      occurs. */
  method ReceiveAll(p: Parser) returns (requests: seq<Request>)
    requires p.Valid()
    modifies p, p.sock, p.buf
    ensures p.Valid() && p.sock.turns == []
    ensures |requests| <= |old(p.rest)| && p.rest == old(p.rest)[|requests|..]
    ensures forall k | 0 <= k < |requests| :: Spells(requests[k].argv, requests[k].allocations, old(p.rest)[k])
    ensures forall j, k | 0 <= j < k < |requests| :: requests[j].allocations != requests[k].allocations
    ensures Incomplete(p.Now()) && (p.sock.incoming == [] ==> |requests| == |old(p.rest)|)
    ensures old(Enough(p.sock.incoming, p.sock.turns)) ==> p.sock.incoming == [] && |requests| == |old(p.rest)|
  {
    hide Sync, Spells, EncodeAll, Encode, Place, BodyPlace, InRegime, Position;
    ghost var cmds := p.rest;
    requests := [];
    var more := true;
    while more || p.sock.turns != []
      invariant p.Valid() && (p.buf == old(p.buf) || p.buf == null || fresh(p.buf))
      invariant |requests| <= |cmds| && p.rest == cmds[|requests|..]
      invariant forall k | 0 <= k < |requests| :: |requests[k].allocations| == 1 && requests[k].allocations[0] != p.buf
      invariant forall k | 0 <= k < |requests| :: Spells(requests[k].argv, requests[k].allocations, cmds[k])
      invariant forall j, k | 0 <= j < k < |requests| :: requests[j].allocations[0] != requests[k].allocations[0]
      invariant !more ==> Incomplete(p.Now()) && (p.sock.incoming == [] ==> p.rest == [])
      invariant old(Enough(p.sock.incoming, p.sock.turns)) ==> Enough(p.sock.incoming, p.sock.turns)
      decreases |p.rest|, |p.sock.turns|, if more then 1 else 0
    {
      var status;
      status, requests := ReceiveOne(p, requests, cmds);
      more := status == More;
      if status == Done {
        NothingReceived(p.Now());
        if p.sock.incoming == [] { NothingLeft(p.Now()); }
      }
    }
  }
}
