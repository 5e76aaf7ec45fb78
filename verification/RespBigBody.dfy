/** A body that does not fit into the buffer its command began (RESP_SM_BS_BODY's second branch and
    RESP_SM_BS_BODY_BIGBUF): it is read into a buffer of its own, from the socket alone. */
module RespBigBody {
  import opened Bytes
  import opened RespFormat
  import opened RespParser

  /** Receive until the buffer is full, from `used` on; called again after EMPTY. The body is its first
      `buf.Length - 2` bytes; the two bytes behind them are not looked at. */
  method FillBigBody(sock: Socket, buf: array<Byte>, used: nat) returns (filled: nat, r: Option<SmStatus>)
    requires used <= buf.Length
    modifies sock, buf
    ensures used <= filled <= buf.Length && filled - used <= |old(sock.incoming)|
    ensures sock.incoming == old(sock.incoming)[filled - used..]
    ensures buf[..filled] == old(buf[..used]) + old(sock.incoming)[..filled - used]
    ensures r == None <==> filled == buf.Length
    ensures r != None ==> r == Some(Empty) || (r == Some(Closed) && sock.incoming == [] && sock.closed)
    ensures old(Enough(sock.incoming, sock.turns)) ==> Enough(sock.incoming, sock.turns)
    ensures r != None ==> sock.turns == [] || |sock.turns| < |old(sock.turns)|
  {
    filled := used;
    while filled < buf.Length
      invariant used <= filled <= buf.Length && filled - used <= |old(sock.incoming)|
      invariant sock.incoming == old(sock.incoming)[filled - used..] && sock.closed == old(sock.closed)
      invariant buf[..filled] == old(buf[..used]) + old(sock.incoming)[..filled - used]
      invariant old(Enough(sock.incoming, sock.turns)) ==> Enough(sock.incoming, sock.turns)
      invariant |sock.turns| <= |old(sock.turns)|
      decreases |sock.turns|
    {
      var received := sock.Recv(buf, filled, buf.Length);
      match received
      case Bytes(n) => filled := filled + n;
      case Again => return filled, Some(Empty);
      case Ended => return filled, Some(Closed);
    }
    r := None;
  }

  /** What the branch makes of argument i when `received` bytes of the stream have been received: the argument,
      and where in the stream it goes on. */
  function BigBodyRead(stream: seq<Byte>, received: nat, length: nat): (seq<Byte>, seq<Byte>)
    requires received + length + 2 <= |stream|
  {
    var incoming := stream[received..];
    (incoming[..length], incoming[length + 2..])
  }

  /** The branch in one go, `received` bytes of the stream having been received before: when it is through,
      argv gets the first `length` bytes of the new buffer, and the parser goes on with what is still to come. */
  method BodyBigbuf(sock: Socket, length: nat, ghost stream: seq<Byte>, ghost received: nat)
    returns (buf: array<Byte>, filled: nat, r: Option<SmStatus>)
    requires received <= |stream| && sock.incoming == stream[received..]
    modifies sock
    ensures fresh(buf) && buf.Length == length + 2 && filled <= length + 2
    ensures received + filled <= |stream| && sock.incoming == stream[received + filled..]
    ensures buf[..filled] == stream[received..received + filled]
    ensures old(Enough(sock.incoming, sock.turns)) ==> Enough(sock.incoming, sock.turns)
    ensures r != None ==> sock.turns == [] || |sock.turns| < |old(sock.turns)|
    ensures r == None ==> received + length + 2 <= |stream|
    ensures r == None ==> (buf[..length], sock.incoming) == BigBodyRead(stream, received, length)
  {
    buf := new Byte[length + 2];
    filled, r := FillBigBody(sock, buf, 0);
    assert buf[..filled] == stream[received..][..filled];
    if r == None {
      assert buf[..length] == stream[received..][..length];
      assert sock.incoming == stream[received..][length + 2..];
    }
  }

  /** And so for argument i of a command: what argv gets is the argument, and what is still to come is what
      follows it, if and only if nothing of its body had been received. */
  method ReadLongArgument(sock: Socket, cmd: Command, i: nat, ghost received: nat, ghost tail: seq<Byte>)
    returns (arg: seq<Byte>, r: Option<SmStatus>)
    requires i < |cmd| && BodyPlace(cmd, i) <= received <= |Encode(cmd) + tail|
    requires sock.incoming == (Encode(cmd) + tail)[received..]
    modifies sock
    ensures r == None ==>
              ((arg == cmd[i] && sock.incoming == EncodeArgs(cmd[i + 1..]) + tail) <==> received == BodyPlace(cmd, i))
  {
    ghost var stream := Encode(cmd) + tail;
    var buf, filled;
    buf, filled, r := BodyBigbuf(sock, |cmd[i]|, stream, received);
    arg := buf[..|cmd[i]|];
    if r == None { BigBodyIsRightIffNothingReceived(cmd, i, received, tail); }
  }

  /** The branch reads argument i, and goes on behind it, if and only if no byte of the body had been received
      when it was taken: those in the old buffer are dropped. */
  lemma BigBodyIsRightIffNothingReceived(cmd: Command, i: nat, received: nat, tail: seq<Byte>)
    requires i < |cmd| && BodyPlace(cmd, i) <= received
    requires received + |cmd[i]| + 2 <= |Encode(cmd) + tail|
    ensures BigBodyRead(Encode(cmd) + tail, received, |cmd[i]|) == (cmd[i], EncodeArgs(cmd[i + 1..]) + tail)
            <==> received == BodyPlace(cmd, i)
  {
    hide Encode, EncodeArg, Decimal;
    var stream, b, n := Encode(cmd) + tail, BodyPlace(cmd, i), |cmd[i]|;
    ArgStands(cmd, i);
    WhatFollows(cmd, i + 1);
    PlaceOfNext(cmd, i);
    var next := Place(cmd, i + 1);
    assert next == b + n + 2;
    assert stream[next..] == Encode(cmd)[next..] + tail;
    if received == b {
      assert stream[b..][..n] == Encode(cmd)[b..b + n];
      assert stream[b..][n + 2..] == stream[next..];
    } else {
      assert |stream[received..][n + 2..]| < |stream[next..]|;
    }
  }

  /** So a first receive that fills the buffer puts the parser out of step with every command whose body i
      begins in the buffer and does not fit, provided enough follows for the branch to end. */
  lemma FullBufferPutsOutOfStep(cmd: Command, i: nat, tail: seq<Byte>)
    requires i < |cmd| && BodyPlace(cmd, i) < BUFSIZE < BodyPlace(cmd, i) + |cmd[i]| + 2
    requires BUFSIZE + |cmd[i]| + 2 <= |Encode(cmd) + tail|
    ensures BigBodyRead(Encode(cmd) + tail, BUFSIZE, |cmd[i]|) != (cmd[i], EncodeArgs(cmd[i + 1..]) + tail)
  {
    BigBodyIsRightIffNothingReceived(cmd, i, BUFSIZE, tail);
  }

  /** Such a command: one argument of 300 bytes, with another command of the same kind behind it. */
  lemma LongCommandExists()
    ensures var cmd := [seq(300, _ => ZERO)];
            && BodyPlace(cmd, 0) < BUFSIZE < BodyPlace(cmd, 0) + |cmd[0]| + 2
            && BUFSIZE + |cmd[0]| + 2 <= |Encode(cmd) + Encode(cmd)|
  {
    hide Encode, EncodeArg;
    var cmd: Command := [seq(300, _ => ZERO)];
    DecimalIsShort(1);
    DecimalIsShort(300);
    WhatFollows(cmd, 1);
    PlaceOfNext(cmd, 0);
    assert |Encode(cmd)| >= 302;
  }
}
