/** Bit reversal and the split order of lib/hashtable.c, on 32-bit unsigned numbers as naturals. */
module SplitOrder {
  import opened Arithmetic

  const WORD: nat := 32
  const TOP: nat := 0x8000_0000       // reversed index 1
  const LAST: nat := 0xFFFF_FFFF      // hash of the end node

  function Pow2(n: nat): (p: nat)
    ensures p >= 1
  {
    if n == 0 then 1 else 2 * Pow2(n - 1)
  }

  lemma {:induction false} Pow2Monotone(m: nat, n: nat)
    requires m <= n
    ensures Pow2(m) <= Pow2(n)
    ensures m < n ==> 2 * Pow2(m) <= Pow2(n)
  {
    if m < n {
      Pow2Monotone(m, n - 1);
    }
  }

  lemma Pow2Word()
    ensures Pow2(30) == 0x4000_0000 && Pow2(31) == TOP && Pow2(WORD) == LAST + 1
  {
    assert Pow2(4) == 16;
    assert Pow2(8) == 16 * Pow2(4);
    assert Pow2(12) == 16 * Pow2(8);
    assert Pow2(16) == 16 * Pow2(12);
    assert Pow2(20) == 16 * Pow2(16);
    assert Pow2(24) == 16 * Pow2(20);
    assert Pow2(28) == 16 * Pow2(24);
    assert Pow2(32) == 16 * Pow2(28);
  }

  /** The low k bits of x in the opposite order. */
  function Rev(x: nat, k: nat): (r: nat)
    ensures r < Pow2(k)
  {
    if k == 0 then 0 else (x % 2) * Pow2(k - 1) + Rev(x / 2, k - 1)
  }

  function Reverse(x: nat): (r: nat)
    ensures r <= LAST
  {
    Pow2Word();
    Rev(x, WORD)
  }

  /** The top bit of the reversed number is the bottom bit; what follows is the reversed rest. */
  lemma {:induction false} RevLow(x: nat, k: nat)
    requires k > 0 && x < Pow2(k)
    ensures Rev(x, k) == 2 * Rev(x % Pow2(k - 1), k - 1) + x / Pow2(k - 1)
  {
    if k > 1 {
      var h := Pow2(k - 2);
      RevLow(x / 2, k - 1);
      HalfOfRemainder(x, h);
      RevTwice(x, k, h);
    }
  }

  lemma RevTwice(x: nat, k: nat, h: nat)
    requires k > 1 && h == Pow2(k - 2)
    requires (x % (2 * h)) % 2 == x % 2
    ensures Rev(x, k) - Rev(x / 2, k - 1) == 2 * (Rev(x % (2 * h), k - 1) - Rev((x % (2 * h)) / 2, k - 2))
  {
    assert Pow2(k - 1) == 2 * h;
    if x % 2 == 0 {
      assert Rev(x, k) == 0 * (2 * h) + Rev(x / 2, k - 1);
    } else {
      assert Rev(x, k) == 1 * (2 * h) + Rev(x / 2, k - 1);
    }
  }

  lemma HalfOfRemainder(x: nat, h: nat)
    requires h > 0
    ensures (x % (2 * h)) / 2 == (x / 2) % h
    ensures (x % (2 * h)) % 2 == x % 2
    ensures (x / 2) / h == x / (2 * h)
  {
    var q, r := x / (2 * h), x % (2 * h);
    assert x == 2 * (q * h) + r;
    assert x / 2 == q * h + r / 2;
    assert r / 2 < h;
    DivideUnique(x / 2, h, q, r / 2);
  }

  lemma DivideUnique(x: nat, h: nat, q: nat, r: nat)
    requires h > 0 && x == q * h + r && r < h
    ensures x / h == q && x % h == r
  {
    var q', r' := x / h, x % h;
    assert x == q' * h + r';
    assert (q' - q) * h == q' * h - q * h;
    assert (q - q') * h == q * h - q' * h;
    MultipleBound(q' - q, h);
    MultipleBound(q - q', h);
  }

  lemma {:induction false} RevInvolutive(x: nat, k: nat)
    requires x < Pow2(k)
    ensures Rev(Rev(x, k), k) == x
  {
    if k > 0 {
      var p := Pow2(k - 1);
      var b, r := x % 2, Rev(x / 2, k - 1);
      RevInvolutive(x / 2, k - 1);
      assert Rev(x, k) == b * p + r;
      DivideUnique(Rev(x, k), p, b, r);
      RevLow(Rev(x, k), k);
    }
  }

  /** Reversal is its own inverse on 32-bit numbers. */
  lemma ReverseInvolutive(x: nat)
    requires x <= LAST
    ensures Reverse(Reverse(x)) == x
  {
    Pow2Word();
    RevInvolutive(x, WORD);
  }

  /** Keeping only the low bits of an index never raises its reversed value. */
  lemma {:induction false} RevOfLowBits(x: nat, b: nat, k: nat)
    requires b <= k
    ensures Rev(x % Pow2(b), k) <= Rev(x, k)
  {
    if b == 0 {
      RevZero(k);
    } else {
      HalfOfRemainder(x, Pow2(b - 1));
      RevOfLowBits(x / 2, b - 1, k - 1);
    }
  }

  lemma {:induction false} RevZero(k: nat)
    ensures Rev(0, k) == 0
  {
    if k > 0 {
      RevZero(k - 1);
    }
  }

  /** The sentinel of a bucket stands at or before every key that hashes into the bucket. */
  lemma SentinelBeforeKey(hash: nat, bitlen: nat)
    requires hash <= LAST && bitlen <= WORD
    ensures Reverse(Reverse(hash) % Pow2(bitlen)) <= hash
  {
    RevOfLowBits(Reverse(hash), bitlen, WORD);
    ReverseInvolutive(hash);
  }

  /** Clearing the top bit of an index strictly lowers its reversed value. */
  lemma ParentBeforeChild(index: nat, m: nat)
    requires index <= LAST && m < WORD && Pow2(m) <= index < 2 * Pow2(m)
    ensures Reverse(index - Pow2(m)) < Reverse(index)
  {
    DivideUnique(index, Pow2(m), 1, index - Pow2(m));
    RevOfLowBits(index, m, WORD);
    if Reverse(index - Pow2(m)) == Reverse(index) {
      ReverseInvolutive(index);
      ReverseInvolutive(index - Pow2(m));
      assert false;
    }
  }

  lemma ReverseSmall()
    ensures Reverse(0) == 0 && Reverse(1) == TOP
  {
    RevZero(WORD);
    RevZero(31);
    Pow2Word();
    assert Rev(1, WORD) == (1 % 2) * Pow2(31) + Rev(0, 31);
  }

  lemma TwoHalves(q: nat, h: nat)
    ensures q * h == (q / 2) * (2 * h) + (q % 2) * h
  {
    assert q == 2 * (q / 2) + q % 2;
    assert (2 * (q / 2) + q % 2) * h == (q / 2) * (2 * h) + (q % 2) * h;
  }

  lemma LowBitsOfDouble(b: nat, h: nat)
    requires h > 0
    ensures (b % (2 * h)) % h == b % h
    ensures (b % (2 * h)) / h == (b / h) % 2
    ensures b / (2 * h) == (b / h) / 2
  {
    var q, r := b / h, b % h;
    assert b == q * h + r;
    TwoHalves(q, h);
    if q % 2 == 0 {
      DivideUnique(b, 2 * h, q / 2, r);
      DivideUnique(r, h, 0, r);
    } else {
      DivideUnique(b, 2 * h, q / 2, h + r);
      DivideUnique(h + r, h, 1, r);
    }
  }

  /** Taking one more bit of b doubles the reversed number and appends the bit. */
  lemma RevNext(b: nat, i: nat)
    ensures Rev(b % Pow2(i + 1), i + 1) == 2 * Rev(b % Pow2(i), i) + (b / Pow2(i)) % 2
  {
    LowBitsOfDouble(b, Pow2(i));
    RevLow(b % Pow2(i + 1), i + 1);
  }

  /** One round of the loop below. */
  lemma ReverseRound(b: nat, i: nat, r: nat, rest: nat)
    requires i < WORD && rest == b / Pow2(i) && r == 2 * Rev(b % Pow2(i), i)
    ensures rest / 2 == b / Pow2(i + 1)
    ensures r + rest % 2 == Rev(b % Pow2(i + 1), i + 1)
    ensures i + 1 < WORD ==> 2 * (r + rest % 2) <= LAST
  {
    RevNext(b, i);
    LowBitsOfDouble(b, Pow2(i));
    if i + 1 < WORD {
      Pow2Monotone(i + 1, 31);
      Pow2Word();
    }
  }

  lemma ReverseStart(b: nat)
    ensures b / Pow2(0) == b && Rev(b % Pow2(0), 0) == 0
  {
  }

  /** The place of the top set bit. */
  function TopBit(x: nat): (log: nat)
    ensures x > 0 ==> Pow2(log) <= x < 2 * Pow2(log)
    ensures x == 0 ==> log == 0
  {
    if x < 2 then 0 else 1 + TopBit(x / 2)
  }

  lemma TopBitIs(x: nat, b: nat)
    requires Pow2(b) <= x < 2 * Pow2(b)
    ensures TopBit(x) == b
  {
    var c := TopBit(x);
    if b < c { Pow2Monotone(b, c); }
    if c < b { Pow2Monotone(c, b); }
  }

  /** ht_reverse_bits: shift the bits of b out at the bottom and into r. */
  method ReverseBits(b: nat) returns (r: nat)
    requires b <= LAST
    ensures r == Reverse(b)
  {
    ReverseStart(b);
    hide Rev, Pow2;
    r := 0;
    var rest := b;
    for i := 0 to WORD
      invariant rest == b / Pow2(i)
      invariant i < WORD ==> r == 2 * Rev(b % Pow2(i), i)
      invariant i == WORD ==> r == Rev(b % Pow2(WORD), WORD)
    {
      ReverseRound(b, i, r, rest);
      r := r + rest % 2;            // r | (b & 1): the low bit of r is clear
      if i + 1 != WORD {
        r := (2 * r) % (LAST + 1);  // r << 1
      }
      rest := rest / 2;
    }
    Pow2Word();
  }

  /** ht_find_msb: the top bit of idx and its position. */
  method FindMsb(idx: nat) returns (msb: nat, log: nat)
    requires idx <= LAST
    ensures idx == 0 ==> msb == 0 && log == 0
    ensures idx > 0 ==> msb == Pow2(log) && msb <= idx < 2 * msb && log < WORD
  {
    Pow2Word();
    var shift := 0;
    while idx / Pow2(shift) != 0     // idx & (~0 << shift)
      invariant shift <= WORD
      invariant shift > 0 ==> Pow2(shift - 1) <= idx
      decreases WORD - shift
    {
      QuotientZero(idx, Pow2(shift));
      shift := shift + 1;
    }
    QuotientZero(idx, Pow2(shift));
    log := if shift == 0 then 0 else shift - 1;
    msb := idx - idx % Pow2(log);
    if idx > 0 {
      DivideUnique(idx, Pow2(log), 1, idx - Pow2(log));
    }
  }

  lemma QuotientZero(x: nat, p: nat)
    requires p > 0
    ensures x / p == 0 <==> x < p
  {
    if x < p { DivideUnique(x, p, 0, x); }
  }
}
