/** The wire format of commands: arrays of bulk strings, as in the section "Sending commands to a Redis
    server" of the Redis serialization protocol specification; and strtol. */
module RespFormat {
  import opened Bytes

  type Command = seq<seq<Byte>>

  const CR: Byte := 13
  const LF: Byte := 10
  const STAR: Byte := 42
  const DOLLAR: Byte := 36
  const PLUS: Byte := 43
  const MINUS: Byte := 45
  const ZERO: Byte := 48

  predicate IsDigit(c: Byte) { ZERO <= c < ZERO + 10 }

  predicate IsSpace(c: Byte) { c == 32 || 9 <= c <= 13 }

  function Decimal(n: nat): (s: seq<Byte>)
    ensures |s| > 0 && forall c | c in s :: IsDigit(c)
  {
    if n < 10 then [ZERO + n] else Decimal(n / 10) + [ZERO + n % 10]
  }

  const CRLF: seq<Byte> := [CR, LF]

  function EncodeArg(arg: seq<Byte>): seq<Byte> {
    [DOLLAR] + Decimal(|arg|) + CRLF + arg + CRLF
  }

  function EncodeArgs(args: seq<seq<Byte>>): seq<Byte> {
    if args == [] then [] else EncodeArg(args[0]) + EncodeArgs(args[1..])
  }

  function Encode(cmd: Command): seq<Byte> {
    [STAR] + Decimal(|cmd|) + CRLF + EncodeArgs(cmd)
  }

  function EncodeAll(cmds: seq<Command>): seq<Byte> {
    if cmds == [] then [] else Encode(cmds[0]) + EncodeAll(cmds[1..])
  }

  // ---------- strtol, base 10 ----------

  /** How many leading bytes satisfy the test: white space, or digits. */
  function Spaces(s: seq<Byte>): (n: nat)
    ensures n <= |s|
  {
    if s != [] && IsSpace(s[0]) then 1 + Spaces(s[1..]) else 0
  }

  function DigitRun(s: seq<Byte>): (n: nat)
    ensures n <= |s| && (forall i | 0 <= i < n :: IsDigit(s[i]))
    ensures n < |s| ==> !IsDigit(s[n])
  {
    if s != [] && IsDigit(s[0]) then 1 + DigitRun(s[1..]) else 0
  }

  function Number(digits: seq<Byte>): nat
    requires forall c | c in digits :: IsDigit(c)
  {
    if digits == [] then 0
    else
      var c := digits[|digits| - 1];
      assert c in digits && IsDigit(c);
      10 * Number(digits[..|digits| - 1]) + (c - ZERO)
  }

  /** The value read and the number of bytes used; none are used where there is no digit. */
  function Strtol(s: seq<Byte>): (r: (int, nat))
    ensures r.1 <= |s|
  {
    var i := Spaces(s);
    var j := if i < |s| && (s[i] == PLUS || s[i] == MINUS) then i + 1 else i;
    var k := DigitRun(s[j..]);
    var n: int := Number(s[j..][..k]);
    if k == 0 then (0, 0) else (if j > i && s[i] == MINUS then -n else n, j + k)
  }

  lemma {:induction false} NumberOfDecimal(n: nat)
    ensures Number(Decimal(n)) == n
  {
    if n < 10 {
      assert Decimal(n)[..0] == [];
    } else {
      var s := Decimal(n);
      assert s[..|s| - 1] == Decimal(n / 10);
      NumberOfDecimal(n / 10);
    }
  }

  lemma {:induction false} RunOfDigits(digits: seq<Byte>, tail: seq<Byte>)
    requires (forall c | c in digits :: IsDigit(c)) && (tail == [] || !IsDigit(tail[0]))
    ensures DigitRun(digits + tail) == |digits|
  {
    if digits == [] {
      assert digits + tail == tail;
    } else {
      assert (digits + tail)[1..] == digits[1..] + tail;
      RunOfDigits(digits[1..], tail);
    }
  }

  /** strtol undoes Decimal, and stops at the first byte behind it. */
  lemma StrtolReadsDecimal(n: nat, tail: seq<Byte>)
    requires tail == [] || !IsDigit(tail[0])
    ensures Strtol(Decimal(n) + tail) == (n, |Decimal(n)|)
  {
    var s := Decimal(n) + tail;
    assert s[0] == Decimal(n)[0];
    assert Decimal(n)[0] in Decimal(n);
    assert s[0..] == s;
    RunOfDigits(Decimal(n), tail);
    assert s[..|Decimal(n)|] == Decimal(n);
    NumberOfDecimal(n);
  }

  lemma {:induction false} SpacesSkipped(space: seq<Byte>, tail: seq<Byte>)
    requires (forall c | c in space :: c in {9, 10, 11, 12, 13, 32}) && tail != [] && tail[0] > 32
    ensures Spaces(space + tail) == |space|
  {
    if space == [] {
      assert space + tail == tail;
    } else {
      assert space[0] in space && (space + tail)[0] == space[0];
      assert (space + tail)[1..] == space[1..] + tail;
      assert forall c | c in space[1..] :: c in space;
      SpacesSkipped(space[1..], tail);
    }
  }

  /** It also skips white space and takes a minus sign, so that the parser accepts more than canonical numbers. */
  lemma StrtolSkipsSpaceAndSign(space: seq<Byte>, n: nat, tail: seq<Byte>)
    requires (forall c | c in space :: c in {9, 10, 11, 12, 13, 32}) && (tail == [] || !IsDigit(tail[0]))
    ensures Strtol(space + [45] + Decimal(n) + tail) == (0 - n as int, |space| + 1 + |Decimal(n)|)
  {
    hide Decimal, Spaces, DigitRun, Number;
    var d := Decimal(n);
    SpacesSkipped(space, [45] + d + tail);
    RunOfDigits(d, tail);
    NumberOfDecimal(n);
    var s, i := space + [45] + d + tail, |space|;
    assert s == space + ([45] + d + tail);
    assert s[i] == 45 && s[i + 1..] == d + tail;
    SignIsTaken(s, i, d, tail);
  }

  lemma SignIsTaken(s: seq<Byte>, i: nat, d: seq<Byte>, tail: seq<Byte>)
    requires forall c | c in d :: IsDigit(c)
    requires Spaces(s) == i < |s| && s[i] == 45 && s[i + 1..] == d + tail && DigitRun(d + tail) == |d| > 0
    ensures Strtol(s) == (0 - Number(d) as int, i + 1 + |d|)
  {
    hide Spaces, DigitRun, Number;
    assert s[i + 1..][..|d|] == d;
  }

  lemma DecimalIsShort(n: nat)
    requires n < 1000
    ensures |Decimal(n)| <= 3
  {
    if n >= 100 { assert |Decimal(n / 10 / 10)| == 1; }
  }

  function Pow10(n: nat): (p: nat)
    ensures p >= 1
  {
    if n == 0 then 1 else 10 * Pow10(n - 1)
  }

  lemma TenTimes(n: int, p: int)
    ensures n * (10 * p) == 10 * (n * p)
  {
  }

  lemma SameProduct(n: int, p: int, q: int)
    ensures n * p == n * q <==> n == 0 || p == q
  {
    assert n * p - n * q == n * (p - q);
  }

  lemma {:induction false} NumberOfJoined(a: seq<Byte>, b: seq<Byte>)
    requires forall c | c in a + b :: IsDigit(c)
    ensures forall c | c in a || c in b :: IsDigit(c)
    ensures Number(a + b) == Number(a) * Pow10(|b|) + Number(b)
  {
    forall c | c in a || c in b
      ensures IsDigit(c)
    {
      assert c in a + b;
    }
    if b == [] {
      assert a + b == a;
      assert Number(a) * Pow10(|b|) == Number(a) * 1;
    } else {
      var c, last := b[..|b| - 1], b[|b| - 1];
      assert a + b == (a + c) + [last];
      assert (a + b)[..|a + b| - 1] == a + c;
      NumberOfJoined(a, c);
      TenTimes(Number(a), Pow10(|c|));
      assert Number(b) == 10 * Number(c) + (last - ZERO);
    }
  }

  lemma {:induction false} TenFoldIsNotPower(d: nat)
    ensures Pow10(d) == 10 * d <==> d == 1
    ensures d >= 2 ==> Pow10(d) > 10 * d
  {
    if d >= 2 { TenFoldIsNotPower(d - 1); }
  }

  /** Joining a length whose digits are split over two buffers, as the parser does with a factor of ten
      times the digits that follow, is right exactly if the first part is zero or one digit follows. */
  lemma SplitLengthIsRightOnlyForOneDigit(a: seq<Byte>, b: seq<Byte>)
    requires forall c | c in a + b :: IsDigit(c)
    requires (forall c | c in a :: IsDigit(c)) && (forall c | c in b :: IsDigit(c))
    ensures Number(a + b) == Number(a) * (10 * |b|) + Number(b) <==> Number(a) == 0 || |b| == 1
  {
    NumberOfJoined(a, b);
    TenFoldIsNotPower(|b|);
    SameProduct(Number(a), Pow10(|b|), 10 * |b|);
  }

  // ---------- decoding ----------

  /** A number and its line end. */
  function DecodeNumber(s: seq<Byte>): Option<(nat, seq<Byte>)> {
    var (n, used) := Strtol(s);
    if n >= 0 && used + 2 <= |s| && s[used..used + 2] == CRLF then Some((n, s[used + 2..])) else None
  }

  function DecodeArg(s: seq<Byte>): (r: Option<(seq<Byte>, seq<Byte>)>) {
    if s == [] || s[0] != DOLLAR then None
    else match DecodeNumber(s[1..])
      case None => None
      case Some((n, body)) =>
        if n + 2 <= |body| && body[n..n + 2] == CRLF then Some((body[..n], body[n + 2..])) else None
  }

  function DecodeArgs(s: seq<Byte>, n: nat): Option<(seq<seq<Byte>>, seq<Byte>)> {
    if n == 0 then Some(([], s))
    else match DecodeArg(s)
      case None => None
      case Some((arg, rest)) =>
        match DecodeArgs(rest, n - 1)
        case None => None
        case Some((args, left)) => Some(([arg] + args, left))
  }

  /** The first command of a byte string, and what follows it. */
  function Decode(s: seq<Byte>): Option<(Command, seq<Byte>)> {
    if s == [] || s[0] != STAR then None
    else match DecodeNumber(s[1..])
      case None => None
      case Some((n, body)) => DecodeArgs(body, n)
  }

  lemma DecodeNumberUndoes(n: nat, rest: seq<Byte>)
    ensures DecodeNumber(Decimal(n) + CRLF + rest) == Some((n, rest))
  {
    var s := Decimal(n) + CRLF + rest;
    assert s == Decimal(n) + (CRLF + rest);
    StrtolReadsDecimal(n, CRLF + rest);
    var d := |Decimal(n)|;
    assert s[d..d + 2] == CRLF && s[d + 2..] == rest;
  }

  lemma DecodeArgUndoes(arg: seq<Byte>, rest: seq<Byte>)
    ensures DecodeArg(EncodeArg(arg) + rest) == Some((arg, rest))
  {
    var s := EncodeArg(arg) + rest;
    assert s[1..] == Decimal(|arg|) + CRLF + (arg + CRLF + rest);
    DecodeNumberUndoes(|arg|, arg + CRLF + rest);
    var body := arg + CRLF + rest;
    assert body[|arg|..|arg| + 2] == CRLF && body[..|arg|] == arg && body[|arg| + 2..] == rest;
  }

  lemma {:induction false} DecodeArgsUndoes(args: seq<seq<Byte>>, rest: seq<Byte>)
    ensures DecodeArgs(EncodeArgs(args) + rest, |args|) == Some((args, rest))
  {
    hide EncodeArg, DecodeArg;
    if args == [] {
      assert EncodeArgs(args) + rest == rest;
    } else {
      var s := EncodeArgs(args) + rest;
      assert s == EncodeArg(args[0]) + (EncodeArgs(args[1..]) + rest);
      DecodeArgUndoes(args[0], EncodeArgs(args[1..]) + rest);
      DecodeArgsUndoes(args[1..], rest);
      assert args == [args[0]] + args[1..];
    }
  }

  /** Round trip: whatever follows it, an encoded command is decoded to itself. */
  lemma DecodeUndoesEncode(cmd: Command, rest: seq<Byte>)
    ensures Decode(Encode(cmd) + rest) == Some((cmd, rest))
  {
    var s := Encode(cmd) + rest;
    assert s[1..] == Decimal(|cmd|) + CRLF + (EncodeArgs(cmd) + rest);
    DecodeNumberUndoes(|cmd|, EncodeArgs(cmd) + rest);
    DecodeArgsUndoes(cmd, rest);
  }

  /** So a byte stream is the encoding of one list of commands only. */
  lemma {:induction false} EncodeAllIsInjective(a: seq<Command>, b: seq<Command>)
    requires EncodeAll(a) == EncodeAll(b)
    ensures a == b
  {
    if a == [] || b == [] {
    } else {
      DecodeUndoesEncode(a[0], EncodeAll(a[1..]));
      DecodeUndoesEncode(b[0], EncodeAll(b[1..]));
      EncodeAllIsInjective(a[1..], b[1..]);
      assert a == [a[0]] + a[1..] && b == [b[0]] + b[1..];
    }
  }

  // ---------- places inside an encoded command ----------

  /** Where the i-th argument's '$' stands. */
  function Place(cmd: Command, i: nat): nat
    requires i <= |cmd|
    decreases i, 0
  {
    if i == 0 then 1 + |Decimal(|cmd|)| + 2 else BodyPlace(cmd, i - 1) + |cmd[i - 1]| + 2
  }

  /** Where its bytes begin. */
  function BodyPlace(cmd: Command, i: nat): nat
    requires i < |cmd|
    decreases i, 1
  {
    Place(cmd, i) + 1 + |Decimal(|cmd[i]|)| + 2
  }

  lemma {:induction false} WhatFollows(cmd: Command, i: nat)
    requires i <= |cmd|
    ensures Place(cmd, i) + |EncodeArgs(cmd[i..])| == |Encode(cmd)|
    ensures Encode(cmd)[Place(cmd, i)..] == EncodeArgs(cmd[i..])
  {
    if i == 0 {
      assert cmd[0..] == cmd;
    } else {
      WhatFollows(cmd, i - 1);
      assert cmd[i - 1..][1..] == cmd[i..];
      var s, p, q, arg := Encode(cmd), Place(cmd, i - 1), Place(cmd, i), cmd[i - 1];
      assert q == p + |EncodeArg(arg)| by { PlaceOfNext(cmd, i - 1); }
      assert EncodeArgs(cmd[i - 1..]) == EncodeArg(arg) + EncodeArgs(cmd[i..]);
      hide *;
      assert s[q..] == s[p..][q - p..];
    }
  }

  lemma PlaceOfNext(cmd: Command, i: nat)
    requires i < |cmd|
    ensures BodyPlace(cmd, i) == Place(cmd, i) + |Decimal(|cmd[i]|)| + 3
    ensures Place(cmd, i + 1) == BodyPlace(cmd, i) + |cmd[i]| + 2 == Place(cmd, i) + |EncodeArg(cmd[i])|
  {
  }

  /** The decimal digits of n and a line end stand at p. */
  predicate NumberAt(s: seq<Byte>, p: nat, n: nat) {
    var d := |Decimal(n)|;
    p + d + 2 <= |s| && s[p..p + d] == Decimal(n) && s[p + d] == CR && s[p + d + 1] == LF
  }

  /** The bulk string of arg stands at p. */
  predicate ArgAt(s: seq<Byte>, p: nat, arg: seq<Byte>) {
    var b := p + |Decimal(|arg|)| + 3;
    && b + |arg| + 2 <= |s| && s[p] == DOLLAR && NumberAt(s, p + 1, |arg|)
    && s[b..b + |arg|] == arg && s[b + |arg|] == CR && s[b + |arg| + 1] == LF
  }

  lemma ArgAtHead(arg: seq<Byte>, more: seq<Byte>)
    ensures ArgAt(EncodeArg(arg) + more, 0, arg)
  {
    var t, d := EncodeArg(arg) + more, Decimal(|arg|);
    hide Decimal;
    assert t == [DOLLAR] + d + [CR, LF] + arg + [CR, LF] + more;
    assert t[1..1 + |d|] == d;
    assert t[|d| + 3..|d| + 3 + |arg|] == arg;
  }

  lemma ArgAtShifts(s: seq<Byte>, p: nat, arg: seq<Byte>)
    requires p <= |s| && ArgAt(s[p..], 0, arg)
    ensures ArgAt(s, p, arg)
  {
    var d := Decimal(|arg|);
    hide Decimal;
    assert s[p + 1..p + 1 + |d|] == s[p..][1..1 + |d|];
    assert s[p + |d| + 3..p + |d| + 3 + |arg|] == s[p..][|d| + 3..|d| + 3 + |arg|];
  }

  /** Every argument stands at its place in the encoded command. */
  lemma ArgStands(cmd: Command, i: nat)
    requires i < |cmd|
    ensures Place(cmd, i + 1) <= |Encode(cmd)| && ArgAt(Encode(cmd), Place(cmd, i), cmd[i])
  {
    hide ArgAt, Encode, EncodeArg, Place, BodyPlace;
    WhatFollows(cmd, i);
    WhatFollows(cmd, i + 1);
    ArgAtHead(cmd[i], EncodeArgs(cmd[i..][1..]));
    ArgAtShifts(Encode(cmd), Place(cmd, i), cmd[i]);
  }

  lemma HeadStands(cmd: Command)
    ensures NumberAt(Encode(cmd), 1, |cmd|)
  {
    var d := Decimal(|cmd|);
    assert Encode(cmd) == [STAR] + d + [CR, LF] + EncodeArgs(cmd);
    hide *;
    assert ([STAR] + d + [CR, LF] + EncodeArgs(cmd))[1..1 + |d|] == d;
  }

  lemma {:induction false} ArgsAreLong(args: seq<seq<Byte>>)
    ensures |EncodeArgs(args)| >= 6 * |args|
  {
    if args != [] { ArgsAreLong(args[1..]); }
  }

  // ---------- the bytes that frame a command ----------

  /** The digits are those of ASCII, the most significant first. */
  lemma DigitsAreAscii(n: nat)
    ensures Decimal(n) == if n < 10 then [48 + n] else Decimal(n / 10) + [48 + n % 10]
  {
  }

  /** An argument's frame: `$`, its length, carriage return and line feed, the bytes, carriage return and line feed. */
  lemma ArgFrame(cmd: Command, i: nat)
    requires i < |cmd|
    ensures var s, p, b, n := Encode(cmd), Place(cmd, i), BodyPlace(cmd, i), |cmd[i]|;
            && p + 3 < b && b + n + 2 == Place(cmd, i + 1) <= |s|
            && s[p] == 36 && s[p + 1..b - 2] == Decimal(n) && s[b - 2..b] == [13, 10]
            && s[b..b + n] == cmd[i] && s[b + n..b + n + 2] == [13, 10]
  {
    ArgStands(cmd, i);
    PlaceOfNext(cmd, i);
    hide Encode, EncodeArg, Place, BodyPlace, Decimal;
  }

  /** A command's frame: `*`, the number of arguments, carriage return and line feed, the arguments, nothing else. */
  lemma CommandFrame(cmd: Command)
    ensures var s, p := Encode(cmd), Place(cmd, 0);
            && 3 < p <= |s| && s[0] == 42 && s[1..p - 2] == Decimal(|cmd|) && s[p - 2..p] == [13, 10]
            && Place(cmd, |cmd|) == |s|
  {
    assert Encode(cmd)[0] == STAR;
    HeadStands(cmd);
    WhatFollows(cmd, |cmd|);
    assert cmd[|cmd|..] == [];
    hide Encode, EncodeArg, BodyPlace, Decimal;
  }

  /** `*1 $4 PING`, byte by byte. */
  lemma PingInBytes()
    ensures Encode([[80, 73, 78, 71]]) == [42, 49, 13, 10, 36, 52, 13, 10, 80, 73, 78, 71, 13, 10]
  {
  }
}
