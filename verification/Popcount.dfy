/** redisPopcount (commands/redis/string.c): bits counted in parallel within 32-bit words, seven words at
    a time, against the count of single bits. */
module Popcount {
  import opened Bits

  /** A word of memory. Which byte is the lowest does not matter to the count. */
  function Word(b0: bv8, b1: bv8, b2: bv8, b3: bv8): bv32 {
    (b0 as bv32) | ((b1 as bv32) << 8) | ((b2 as bv32) << 16) | ((b3 as bv32) << 24)
  }

  function Load(s: seq<bv8>, i: nat): bv32
    requires i + 4 <= |s|
  {
    Word(s[i], s[i + 1], s[i + 2], s[i + 3])
  }

  /** Counts of bit pairs, then of nibbles (the two assignments to each aux). */
  function Pairs(w: bv32): bv32 { w - ((w >> 1) & 0x55555555) }

  function Nibbles(w: bv32): bv32 { (w & 0x33333333) + ((w >> 2) & 0x33333333) }

  /** Counts of bytes (the summands). */
  function ByteCounts(w: bv32): bv32 { (w + (w >> 4)) & 0x0F0F0F0F }

  function Swar(w: bv32): bv32 { ByteCounts(Nibbles(Pairs(w))) }

  // the same without arithmetic: the sums of neighbouring fields, bit by bit

  function PairBits(w: bv32): bv32 {
    var x, y := w & 0x55555555, (w >> 1) & 0x55555555;
    (x ^ y) | ((x & y) << 1)
  }

  function NibbleBits(w: bv32): bv32 {
    var x, y := w & 0x33333333, (w >> 2) & 0x33333333;
    var s, c := x ^ y, (x & y) << 1;
    (s ^ c) | ((s & c) << 1)
  }

  function ByteBits(w: bv32): bv32 {
    var x, y := w & 0x0F0F0F0F, (w >> 4) & 0x0F0F0F0F;
    var s, c := x ^ y, (x & y) << 1;
    var s', c' := s ^ c, (s & c) << 1;
    (s' ^ c') | ((s' & c') << 1)
  }

  // and in one byte

  function PairBits8(w: bv8): bv8 {
    var x, y := w & 0x55, (w >> 1) & 0x55;
    (x ^ y) | ((x & y) << 1)
  }

  function NibbleBits8(w: bv8): bv8 {
    var x, y := w & 0x33, (w >> 2) & 0x33;
    var s, c := x ^ y, (x & y) << 1;
    (s ^ c) | ((s & c) << 1)
  }

  function ByteBits8(w: bv8): bv8 {
    var x, y := w & 0x0F, (w >> 4) & 0x0F;
    var s, c := x ^ y, (x & y) << 1;
    var s', c' := s ^ c, (s & c) << 1;
    (s' ^ c') | ((s' & c') << 1)
  }

  function Lane(b: bv8): bv8 { ByteBits8(NibbleBits8(PairBits8(b))) }

  /** In none of the three stages does a sum or difference leave its field. */
  lemma PairsDoNotBorrow(w: bv32)
    ensures Pairs(w) == PairBits(w)
  {
  }

  lemma NibblesDoNotCarry(w: bv32)
    ensures Nibbles(w) == NibbleBits(w)
  {
  }

  lemma BytesDoNotCarry(w: bv32)
    requires w & 0x88888888 == 0
    ensures ByteCounts(w) == ByteBits(w)
  {
  }

  lemma NibblesLeaveRoom(w: bv32)
    ensures NibbleBits(PairBits(w)) & 0x88888888 == 0
  {
  }

  lemma PairsInLanes(a: bv8, b: bv8, c: bv8, d: bv8)
    ensures PairBits(Word(a, b, c, d)) == Word(PairBits8(a), PairBits8(b), PairBits8(c), PairBits8(d))
  {
  }

  lemma NibblesInLanes(a: bv8, b: bv8, c: bv8, d: bv8)
    ensures NibbleBits(Word(a, b, c, d)) == Word(NibbleBits8(a), NibbleBits8(b), NibbleBits8(c), NibbleBits8(d))
  {
  }

  lemma BytesInLanes(a: bv8, b: bv8, c: bv8, d: bv8)
    ensures ByteBits(Word(a, b, c, d)) == Word(ByteBits8(a), ByteBits8(b), ByteBits8(c), ByteBits8(d))
  {
  }

  /** No lane disturbs its neighbour. */
  lemma SwarInLanes(a: bv8, b: bv8, c: bv8, d: bv8)
    ensures Swar(Word(a, b, c, d)) == Word(Lane(a), Lane(b), Lane(c), Lane(d))
  {
    hide Word, Pairs, Nibbles, ByteCounts, PairBits, NibbleBits, ByteBits, PairBits8, NibbleBits8, ByteBits8;
    var w := Word(a, b, c, d);
    PairsDoNotBorrow(w);
    PairsInLanes(a, b, c, d);
    NibblesDoNotCarry(Pairs(w));
    NibblesInLanes(PairBits8(a), PairBits8(b), PairBits8(c), PairBits8(d));
    NibblesLeaveRoom(w);
    BytesDoNotCarry(Nibbles(Pairs(w)));
    BytesInLanes(NibbleBits8(PairBits8(a)), NibbleBits8(PairBits8(b)), NibbleBits8(PairBits8(c)),
            NibbleBits8(PairBits8(d)));
  }

  function One8(x: bv8): bv8 { if x != 0 then 1 else 0 }

  lemma LaneIsSum(b: bv8)
    ensures Lane(b) == One8(b & 0x80) + One8(b & 0x40) + One8(b & 0x20) + One8(b & 0x10)
                     + One8(b & 8) + One8(b & 4) + One8(b & 2) + One8(b & 1)
  {
  }

  /** A lane of the parallel count is the number of set bits of its byte. */
  lemma LaneCounts(b: bv8)
    ensures Lane(b) as int == Count(b) && Lane(b) <= 8
  {
    LaneIsSum(b);
    hide Lane;
    assert Count(b) == One(b & 0x80 != 0) + One(b & 0x40 != 0) + One(b & 0x20 != 0) + One(b & 0x10 != 0)
                     + One(b & 8 != 0) + One(b & 4 != 0) + One(b & 2 != 0) + One(b & 1 != 0);
  }

  /** The four counts as digits of a number. */
  lemma LanesAsDigits(p: bv8, q: bv8, r: bv8, t: bv8)
    requires p <= 8 && q <= 8 && r <= 8 && t <= 8
    ensures Value(Word(p, q, r, t)) == p as int + 0x100 * (q as int) + 0x1_0000 * (r as int) + 0x100_0000 * (t as int)
  {
  }

  const WORD: nat := 0x1_0000_0000

  function Value(w: bv32): nat { w as nat }

  /** The sum times 0x01010101, shifted right by 24, in 32 bits. */
  function Gathered(sum: nat): nat { sum % WORD * 0x0101_0101 % WORD / 0x100_0000 }

  /** The number of set bits of a word, spread over its four bytes. */
  predicate Spread(n: int, s: seq<bv8>, i: nat)
    requires i + 4 <= |s|
  {
    n == Count(s[i]) + 0x100 * Count(s[i + 1]) + 0x1_0000 * Count(s[i + 2]) + 0x100_0000 * Count(s[i + 3])
  }

  /** No lane disturbs its neighbour: a word is turned into the counts of its bytes. */
  lemma SwarSpreads(s: seq<bv8>, i: nat)
    requires i + 4 <= |s|
    ensures Spread(Value(Swar(Load(s, i))), s, i)
  {
    hide Word, Lane, Count, Swar, Value;
    SwarInLanes(s[i], s[i + 1], s[i + 2], s[i + 3]);
    LaneCounts(s[i]);
    LaneCounts(s[i + 1]);
    LaneCounts(s[i + 2]);
    LaneCounts(s[i + 3]);
    LanesAsDigits(Lane(s[i]), Lane(s[i + 1]), Lane(s[i + 2]), Lane(s[i + 3]));
  }

  lemma LowWord(x: int, high: int, low: nat)
    requires x == high * WORD + low && low < WORD
    ensures x % WORD == low
  {
  }

  lemma TopByte(x: nat, rest: nat, top: nat)
    requires x == rest + 0x100_0000 * top && rest < 0x100_0000
    ensures x / 0x100_0000 == top
  {
  }

  /** Four digits of at most 56 do not carry, and the multiplication gathers them, at most 224 together,
      in the top byte. */
  lemma Gather(a: nat, b: nat, c: nat, d: nat, sum: nat)
    requires a <= 56 && b <= 56 && c <= 56 && d <= 56
    requires sum == a + 0x100 * b + 0x1_0000 * c + 0x100_0000 * d
    ensures Gathered(sum) == a + b + c + d
  {
    var low := a + 0x100 * (a + b) + 0x1_0000 * (a + b + c) + 0x100_0000 * (a + b + c + d);
    var high := b + c + 0x100 * c + d + 0x100 * d + 0x1_0000 * d;
    assert sum * 0x0101_0101 == high * WORD + low;
    LowWord(sum * 0x0101_0101, high, low);
    TopByte(low, a + 0x100 * (a + b) + 0x1_0000 * (a + b + c), a + b + c + d);
  }

  lemma CountIsSmall(b: bv8)
    ensures Count(b) <= 8
  {
    hide BitOf;
  }

  /** The set bits of the first k bytes from i on that stand at place j of their words. */
  function Column(s: seq<bv8>, i: nat, j: nat, k: nat): (n: nat)
    requires j < 4 && i + 4 * k <= |s|
    ensures n <= 8 * k
  {
    if k == 0 then 0 else CountIsSmall(s[i + 4 * (k - 1) + j]); Column(s, i, j, k - 1) + Count(s[i + 4 * (k - 1) + j])
  }

  lemma FourMoreBytes(s: seq<bv8>, n: nat)
    requires n + 4 <= |s|
    ensures OnesBelow(s, 8 * n + 32) == OnesBelow(s, 8 * n) + Count(s[n]) + Count(s[n + 1]) + Count(s[n + 2]) +
          Count(s[n + 3])
  {
    hide Count, OnesBelow;
    OneMoreByte(s, n);
    OneMoreByte(s, n + 1);
    OneMoreByte(s, n + 2);
    OneMoreByte(s, n + 3);
  }

  lemma {:induction false} ColumnsAreOnes(s: seq<bv8>, i: nat, k: nat)
    requires i + 4 * k <= |s|
    ensures OnesBelow(s, 8 * (i + 4 * k)) ==
            OnesBelow(s, 8 * i) + Column(s, i, 0, k) + Column(s, i, 1, k) + Column(s, i, 2, k) + Column(s, i, 3, k)
  {
    hide Count, OnesBelow;
    if k > 0 {
      var n := i + 4 * (k - 1);
      ColumnsAreOnes(s, i, k - 1);
      FourMoreBytes(s, n);
      assert 8 * (i + 4 * k) == 8 * n + 32;
    }
  }

  /** n is the sum of the first k words from i on, each turned into the counts of its bytes. */
  predicate Sums(n: int, s: seq<bv8>, i: nat, k: nat)
    requires i + 4 * k <= |s|
  {
    n == Column(s, i, 0, k) + 0x100 * Column(s, i, 1, k) + 0x1_0000 * Column(s, i, 2, k) +
          0x100_0000 * Column(s, i, 3, k)
  }

  lemma AddWord(s: seq<bv8>, i: nat, k: nat, n: int, m: int)
    requires i + 4 * k + 4 <= |s| && Sums(n, s, i, k) && Spread(m, s, i + 4 * k)
    ensures Sums(n + m, s, i, k + 1)
  {
    hide Count;
  }

  /** One round of the 28-byte loop. */
  method CountBlock(s: seq<bv8>, i: nat) returns (n: nat)
    requires i + 28 <= |s|
    ensures OnesBelow(s, 8 * (i + 28)) == OnesBelow(s, 8 * i) + n
  {
    var aux1, aux2, aux3, aux4 := Load(s, i), Load(s, i + 4), Load(s, i + 8), Load(s, i + 12);
    var aux5, aux6, aux7 := Load(s, i + 16), Load(s, i + 20), Load(s, i + 24);
    hide Load, Pairs, Nibbles, ByteCounts, Spread, OnesBelow, Value, Gathered;
    SwarSpreads(s, i);
    SwarSpreads(s, i + 4);
    SwarSpreads(s, i + 8);
    SwarSpreads(s, i + 12);
    SwarSpreads(s, i + 16);
    SwarSpreads(s, i + 20);
    SwarSpreads(s, i + 24);
    aux1 := Pairs(aux1);
    aux1 := Nibbles(aux1);
    aux2 := Pairs(aux2);
    aux2 := Nibbles(aux2);
    aux3 := Pairs(aux3);
    aux3 := Nibbles(aux3);
    aux4 := Pairs(aux4);
    aux4 := Nibbles(aux4);
    aux5 := Pairs(aux5);
    aux5 := Nibbles(aux5);
    aux6 := Pairs(aux6);
    aux6 := Nibbles(aux6);
    aux7 := Pairs(aux7);
    aux7 := Nibbles(aux7);
    var n1, n2, n3, n4 := Value(ByteCounts(aux1)), Value(ByteCounts(aux2)), Value(ByteCounts(aux3)),
            Value(ByteCounts(aux4));
    var n5, n6, n7 := Value(ByteCounts(aux5)), Value(ByteCounts(aux6)), Value(ByteCounts(aux7));
    SumOfSeven(s, i, n1, n2, n3, n4, n5, n6, n7);
    n := Gathered(n1 + n2 + n3 + n4 + n5 + n6 + n7);
  }

  lemma SumOfSeven(s: seq<bv8>, i: nat, n1: int, n2: int, n3: int, n4: int, n5: int, n6: int, n7: int)
    requires i + 28 <= |s|
    requires Spread(n1, s, i) && Spread(n2, s, i + 4) && Spread(n3, s, i + 8) && Spread(n4, s, i + 12)
    requires Spread(n5, s, i + 16) && Spread(n6, s, i + 20) && Spread(n7, s, i + 24)
    ensures var sum := n1 + n2 + n3 + n4 + n5 + n6 + n7;
            sum >= 0 && OnesBelow(s, 8 * (i + 28)) == OnesBelow(s, 8 * i) + Gathered(sum)
  {
    hide Spread, Count, OnesBelow;
    assert Sums(0, s, i, 0);
    hide Sums;
    AddWord(s, i, 0, 0, n1);
    AddWord(s, i, 1, n1, n2);
    AddWord(s, i, 2, n1 + n2, n3);
    AddWord(s, i, 3, n1 + n2 + n3, n4);
    AddWord(s, i, 4, n1 + n2 + n3 + n4, n5);
    AddWord(s, i, 5, n1 + n2 + n3 + n4 + n5, n6);
    AddWord(s, i, 6, n1 + n2 + n3 + n4 + n5 + n6, n7);
    SumGathers(s, i, n1 + n2 + n3 + n4 + n5 + n6 + n7);
  }

  lemma SumGathers(s: seq<bv8>, i: nat, sum: int)
    requires i + 28 <= |s| && Sums(sum, s, i, 7)
    ensures sum >= 0 && OnesBelow(s, 8 * (i + 28)) == OnesBelow(s, 8 * i) + Gathered(sum)
  {
    hide Column, OnesBelow;
    ColumnsAreOnes(s, i, 7);
    Gather(Column(s, i, 0, 7), Column(s, i, 1, 7), Column(s, i, 2, 7), Column(s, i, 3, 7), sum);
  }

  /** redisPopcount: bytes up to a word boundary by the table, blocks of 28 bytes in parallel, the rest by
      the table; for every string and every address it starts at. */
  method RedisPopcount(s: seq<bv8>, address: nat) returns (bits: nat)
    ensures bits == Ones(s)
  {
    hide OnesBelow, Lookup, Count;
    bits := 0;
    var p: nat, count: nat := 0, |s|;
    assert OnesBelow(s, 0) == 0 by { NoBits(s); }
    while (address + p) % 4 != 0 && count != 0
      invariant p + count == |s| && bits == OnesBelow(s, 8 * p)
      decreases count
    {
      LookupCounts(s[p]);
      OneMoreByte(s, p);
      bits := bits + Lookup(s[p]);
      p, count := p + 1, count - 1;
    }
    while count >= 28
      invariant p + count == |s| && bits == OnesBelow(s, 8 * p)
      decreases count
    {
      var n := CountBlock(s, p);
      bits := bits + n;
      p, count := p + 28, count - 28;
    }
    while count != 0
      invariant p + count == |s| && bits == OnesBelow(s, 8 * p)
      decreases count
    {
      LookupCounts(s[p]);
      OneMoreByte(s, p);
      bits := bits + Lookup(s[p]);
      p, count := p + 1, count - 1;
    }
  }

  lemma NoBits(s: seq<bv8>)
    ensures OnesBelow(s, 0) == 0
  {
  }
}
