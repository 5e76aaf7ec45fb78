/** redisBitpos (commands/redis/string.c): the first bit of a given value, found by skipping bytes up to a
    word boundary, then whole words, then scanning one big-endian word. */
module Bitpos {
  import opened Bits

  const ALL_ONES: bv64 := 0xFFFF_FFFF_FFFF_FFFF
  const TOP_BIT: bv64 := 0x8000_0000_0000_0000

  /** Eight bytes as a word, the first byte the most significant. */
  function BigEndian(a: bv8, b: bv8, c: bv8, d: bv8, e: bv8, f: bv8, g: bv8, h: bv8): bv64 {
    ((a as bv64) << 56) | ((b as bv64) << 48) | ((c as bv64) << 40) | ((d as bv64) << 32) |
    ((e as bv64) << 24) | ((f as bv64) << 16) | ((g as bv64) << 8) | (h as bv64)
  }

  /** A word of memory from byte i on, the first byte the least significant. */
  function Load(s: seq<bv8>, i: nat): bv64
    requires i + 8 <= |s|
  {
    BigEndian(s[i + 7], s[i + 6], s[i + 5], s[i + 4], s[i + 3], s[i + 2], s[i + 1], s[i])
  }

  /** Byte i of the string; zero behind its end. */
  function Padded(s: seq<bv8>, i: nat): bv8 { if i < |s| then s[i] else 0 }

  /** Bit i of the string padded with zeros on the right. */
  predicate PaddedBit(s: seq<bv8>, i: nat) { BitOf(Padded(s, i / 8), i % 8) }

  /** No bit from lo up to hi has the value. */
  ghost predicate NoneIn(s: seq<bv8>, value: bool, lo: nat, hi: nat) {
    forall i | lo <= i < hi :: PaddedBit(s, i) != value
  }

  lemma UniformByte(b: bv8, k: nat)
    requires k < 8
    ensures b == 0 ==> !BitOf(b, k)
    ensures b == 0xFF ==> BitOf(b, k)
  {
  }

  lemma ByteWithBit(b: bv8, value: bool) returns (k: nat)
    requires b != (if value then 0 else 0xFF)
    ensures k < 8 && BitOf(b, k) == value
  {
    k := if (b & 0x80 != 0) == value then 0 else if (b & 0x40 != 0) == value then 1
         else if (b & 0x20 != 0) == value then 2 else if (b & 0x10 != 0) == value then 3
         else if (b & 8 != 0) == value then 4 else if (b & 4 != 0) == value then 5
         else if (b & 2 != 0) == value then 6 else 7;
  }

  lemma UniformWord(a: bv8, b: bv8, c: bv8, d: bv8, e: bv8, f: bv8, g: bv8, h: bv8)
    ensures BigEndian(a, b, c, d, e, f, g, h) == 0 <==>
              a == 0 && b == 0 && c == 0 && d == 0 && e == 0 && f == 0 && g == 0 && h == 0
    ensures BigEndian(a, b, c, d, e, f, g, h) == ALL_ONES <==>
              a == 0xFF && b == 0xFF && c == 0xFF && d == 0xFF && e == 0xFF && f == 0xFF && g == 0xFF && h == 0xFF
  {
  }

  lemma ShiftIn(a: bv8, b: bv8, c: bv8, d: bv8, e: bv8, f: bv8, g: bv8, h: bv8, x: bv8)
    ensures (BigEndian(a, b, c, d, e, f, g, h) << 8) | (x as bv64) == BigEndian(b, c, d, e, f, g, h, x)
  {
  }

  /** A byte m at place q of a word of zeros. */
  function Place(q: nat, m: bv8): bv64
    requires q < 8
  {
    match q
    case 0 => (m as bv64) << 56
    case 1 => (m as bv64) << 48
    case 2 => (m as bv64) << 40
    case 3 => (m as bv64) << 32
    case 4 => (m as bv64) << 24
    case 5 => (m as bv64) << 16
    case 6 => (m as bv64) << 8
    case 7 => m as bv64
  }

  /** The single set bit, after the scan has shifted it k times. */
  function Probe(k: nat): bv64 {
    if k < 64 then Place(k / 8, MASKS[k % 8]) else 0
  }

  /** A word as a condition. */
  predicate Truth(x: bv64) { x != 0 }

  function Halved(x: bv64): bv64 { x >> 1 }

  lemma PlaceShifts(q: nat, m: bv8, n: bv8)
    requires q < 8
    ensures m & 1 == 0 && n == m >> 1 ==> Halved(Place(q, m)) == Place(q, n)
    ensures m == 1 ==> Halved(Place(q, m)) == if q < 7 then Place(q + 1, 0x80) else 0
    ensures m != 0 ==> Truth(Place(q, m))
  {
  }

  lemma MasksShift(r: nat)
    requires r < 8
    ensures MASKS[r] != 0 && MASKS[7] == 1 && MASKS[0] == 0x80
    ensures r < 7 ==> MASKS[r] & 1 == 0 && MASKS[r] >> 1 == MASKS[r + 1]
  {
  }

  lemma ProbeShifts(k: nat)
    requires k < 64
    ensures Halved(Probe(k)) == Probe(k + 1) && Truth(Probe(k))
  {
    hide Place, Halved, Truth;
    PlaceShifts(k / 8, MASKS[k % 8], if k % 8 < 7 then MASKS[k % 8 + 1] else 0);
    MasksShift(k % 8);
    if k % 8 < 7 {
      assert (k + 1) / 8 == k / 8 && (k + 1) % 8 == k % 8 + 1;
    } else {
      assert (k + 1) / 8 == k / 8 + 1 && (k + 1) % 8 == 0;
    }
  }

  function WordOf(b: seq<bv8>): bv64
    requires |b| == 8
  {
    BigEndian(b[0], b[1], b[2], b[3], b[4], b[5], b[6], b[7])
  }

  /** Whether two words share a set bit. */
  predicate Meets(x: bv64, y: bv64) { x & y != 0 }

  predicate MeetsByte(x: bv8, y: bv8) { x & y != 0 }

  function ByteShifted(x: bv64): bv64 { x >> 8 }

  lemma PlaceOfNext(q: nat, m: bv8)
    requires q < 7
    ensures Place(q + 1, m) == ByteShifted(Place(q, m))
  {
  }

  lemma FirstByteMeets(m: bv8, a: bv8, b: bv8, c: bv8, d: bv8, e: bv8, f: bv8, g: bv8, h: bv8)
    ensures Meets(Place(0, m), BigEndian(a, b, c, d, e, f, g, h)) <==> MeetsByte(a, m)
  {
  }

  lemma NextByteMeets(a: bv8, b: bv8, c: bv8, d: bv8, e: bv8, f: bv8, g: bv8, h: bv8, x: bv64)
    ensures Meets(ByteShifted(x), BigEndian(a, b, c, d, e, f, g, h)) <==> Meets(x, BigEndian(b, c, d, e, f, g, h, 0))
  {
  }

  lemma {:induction false} PlaceMeetsByte(q: nat, m: bv8, b: seq<bv8>)
    requires |b| == 8 && q < 8
    ensures Meets(Place(q, m), WordOf(b)) <==> MeetsByte(b[q], m)
    decreases q
  {
    hide Meets, MeetsByte, Place, BigEndian, ByteShifted;
    if q == 0 {
      FirstByteMeets(m, b[0], b[1], b[2], b[3], b[4], b[5], b[6], b[7]);
    } else {
      NextByteMeets(b[0], b[1], b[2], b[3], b[4], b[5], b[6], b[7], Place(q - 1, m));
      PlaceOfNext(q - 1, m);
      PlaceMeetsByte(q - 1, m, b[1..] + [0]);
    }
  }

  /** The probe shifted k times meets bit k of the eight bytes. */
  lemma ProbeTestsBit(b: seq<bv8>, k: nat)
    requires |b| == 8 && k < 64
    ensures Meets(Probe(k), WordOf(b)) <==> BitOf(b[k / 8], k % 8)
  {
    hide Meets, Place, WordOf;
    PlaceMeetsByte(k / 8, MASKS[k % 8], b);
  }

  /** The eight bytes from p - 8 + j up to p + j, with zeros before p and behind the end of the string. */
  function Window(s: seq<bv8>, p: nat, j: nat): (b: seq<bv8>)
    ensures |b| == 8
  {
    seq(8, i requires 0 <= i < 8 => if i + j < 8 then 0 else Padded(s, p + i + j - 8))
  }

  lemma WindowShifts(s: seq<bv8>, p: nat, j: nat)
    requires j < 8
    ensures (WordOf(Window(s, p, j)) << 8) | (Padded(s, p + j) as bv64) == WordOf(Window(s, p, j + 1))
  {
    hide BigEndian;
    var b, n := Window(s, p, j), Window(s, p, j + 1);
    ShiftIn(b[0], b[1], b[2], b[3], b[4], b[5], b[6], b[7], Padded(s, p + j));
    assert n[0] == b[1] && n[1] == b[2] && n[2] == b[3] && n[3] == b[4];
    assert n[4] == b[5] && n[5] == b[6] && n[6] == b[7] && n[7] == Padded(s, p + j);
  }

  /** The loading loop: up to eight bytes from p on, the first one the most significant, zeros behind the
      end. */
  method LoadBigEndian(s: seq<bv8>, p: nat) returns (word: bv64)
    requires p <= |s|
    ensures word == WordOf(Window(s, p, 8))
  {
    assert WordOf(Window(s, p, 0)) == 0;
    hide WordOf, Window;
    word := 0;
    var c, count := p, |s| - p;
    for j := 0 to 8
      invariant c + count == |s| && 0 <= count && c == (if p + j < |s| then p + j else |s|)
      invariant word == WordOf(Window(s, p, j))
    {
      WindowShifts(s, p, j);
      word := word << 8;
      if count != 0 {
        word := word | (s[c] as bv64);
        c, count := c + 1, count - 1;
      }
    }
  }

  lemma ProbeTestsString(s: seq<bv8>, p: nat, k: nat)
    requires k < 64
    ensures Meets(Probe(k), WordOf(Window(s, p, 8))) <==> PaddedBit(s, 8 * p + k)
  {
    hide Meets, Probe, WordOf, BitOf, Padded;
    var b := Window(s, p, 8);
    ProbeTestsBit(b, k);
    assert (8 * p + k) / 8 == p + k / 8 && (8 * p + k) % 8 == k % 8;
    assert b[k / 8] == Padded(s, p + k / 8);
  }

  /** All bits set, then all but the top one, then the top one alone. */
  method FirstProbe() returns (one: bv64)
    ensures one == Probe(0)
  {
    one := ALL_ONES;
    one := one >> 1;
    one := !one;
  }

  lemma NoProbeLeft()
    ensures !Truth(Probe(64))
  {
  }

  /** The loop condition and the test of the scan, after k rounds. */
  predicate Scanning(s: seq<bv8>, p: nat, k: nat, one: bv64, word: bv64) {
    && one == Probe(k) && (Truth(one) <==> k < 64)
    && (k < 64 ==> (Meets(one, word) <==> PaddedBit(s, 8 * p + k)))
  }

  lemma ScanStarts(s: seq<bv8>, p: nat, one: bv64, word: bv64)
    requires one == Probe(0) && word == WordOf(Window(s, p, 8))
    ensures Scanning(s, p, 0, one, word)
  {
    hide Meets, WordOf, Window, PaddedBit, Halved, Truth, Probe;
    ProbeShifts(0);
    ProbeTestsString(s, p, 0);
  }

  lemma ScanContinues(s: seq<bv8>, p: nat, k: nat, one: bv64, word: bv64)
    requires k < 64 && Scanning(s, p, k, one, word) && word == WordOf(Window(s, p, 8))
    ensures Scanning(s, p, k + 1, Halved(one), word)
  {
    hide Meets, WordOf, Window, PaddedBit, Halved, Truth, Probe;
    ProbeShifts(k);
    NoProbeLeft();
    if k < 63 {
      ProbeShifts(k + 1);
      ProbeTestsString(s, p, k + 1);
    }
  }

  /** The test of the scan as the program makes it, for any value of `bit`. */
  function Tested(one: bv64, word: bv64): int { One(Meets(one, word)) }

  predicate Matches(s: seq<bv8>, i: nat, bit: int) { One(PaddedBit(s, i)) == bit }

  ghost predicate NoMatch(s: seq<bv8>, bit: int, lo: nat, hi: nat) {
    forall i | lo <= i < hi :: !Matches(s, i, bit)
  }

  lemma ScanTests(s: seq<bv8>, p: nat, k: nat, one: bv64, word: bv64, bit: int)
    requires Scanning(s, p, k, one, word) && NoMatch(s, bit, 8 * p, 8 * p + k)
    ensures Truth(one) <==> k < 64
    ensures k < 64 ==> (Tested(one, word) == bit <==> Matches(s, 8 * p + k, bit))
    ensures k < 64 && Tested(one, word) != bit ==> NoMatch(s, bit, 8 * p, 8 * p + k + 1)
  {
    hide Meets, PaddedBit, Truth, Probe;
  }

  /** One round: the test, and the shift of the probe. */
  method ScanRound(s: seq<bv8>, p: nat, k: nat, one: bv64, word: bv64, bit: int) returns (hit: bool, next: bv64)
    requires word == WordOf(Window(s, p, 8)) && Scanning(s, p, k, one, word) && k < 64
    requires NoMatch(s, bit, 8 * p, 8 * p + k)
    ensures hit <==> Matches(s, 8 * p + k, bit)
    ensures !hit ==> && Scanning(s, p, k + 1, next, word) && (Truth(next) <==> k + 1 < 64)
                     && NoMatch(s, bit, 8 * p, 8 * p + k + 1)
  {
    hide *;
    ScanTests(s, p, k, one, word, bit);
    ScanContinues(s, p, k, one, word);
    hit := Tested(one, word) == bit;
    next := Halved(one);
    if !hit { ScanTests(s, p, k + 1, next, word, bit); }
  }

  /** The scan: the first bit of the word that equals `bit`, if there is one. */
  method Scan(s: seq<bv8>, p: nat, word: bv64, bit: int) returns (found: bool, k: nat)
    requires word == WordOf(Window(s, p, 8))
    ensures found ==> k < 64 && Matches(s, 8 * p + k, bit)
    ensures NoMatch(s, bit, 8 * p, 8 * p + (if found then k else 64))
  {
    assert NoMatch(s, bit, 8 * p, 8 * p);
    var one := FirstProbe();
    hide *;
    ScanStarts(s, p, one, word);
    k, found := 0, false;
    ScanTests(s, p, k, one, word, bit);
    while Truth(one)
      invariant k <= 64 && Scanning(s, p, k, one, word) && (Truth(one) <==> k < 64)
      invariant NoMatch(s, bit, 8 * p, 8 * p + k)
      decreases 64 - k
    {
      var hit, next := ScanRound(s, p, k, one, word, bit);
      if hit {
        found := true;
        break;
      }
      k, one := k + 1, next;
    }
  }

  lemma NoMatchIsNone(s: seq<bv8>, bit: int, lo: nat, hi: nat)
    requires bit == 0 || bit == 1
    ensures NoMatch(s, bit, lo, hi) ==> NoneIn(s, bit == 1, lo, hi)
    ensures forall i: nat :: Matches(s, i, bit) <==> PaddedBit(s, i) == (bit == 1)
  {
    hide PaddedBit;
    if NoMatch(s, bit, lo, hi) {
      forall i | lo <= i < hi
        ensures PaddedBit(s, i) != (bit == 1)
      {
        assert !Matches(s, i, bit);
      }
    }
  }

  lemma SkipByte(s: seq<bv8>, p: nat, value: bool)
    requires p < |s| && s[p] == (if value then 0 else 0xFF) && NoneIn(s, value, 0, 8 * p)
    ensures NoneIn(s, value, 0, 8 * (p + 1))
  {
    hide BitOf;
    forall i: nat | 8 * p <= i < 8 * (p + 1)
      ensures PaddedBit(s, i) != value
    {
      UniformByte(s[p], i % 8);
    }
  }

  lemma SkipWord(s: seq<bv8>, p: nat, value: bool)
    requires p + 8 <= |s| && Load(s, p) == (if value then 0 else ALL_ONES) && NoneIn(s, value, 0, 8 * p)
    ensures NoneIn(s, value, 0, 8 * (p + 8))
  {
    UniformWord(s[p + 7], s[p + 6], s[p + 5], s[p + 4], s[p + 3], s[p + 2], s[p + 1], s[p]);
    hide BigEndian, NoneIn;
    SkipByte(s, p, value);
    SkipByte(s, p + 1, value);
    SkipByte(s, p + 2, value);
    SkipByte(s, p + 3, value);
    SkipByte(s, p + 4, value);
    SkipByte(s, p + 5, value);
    SkipByte(s, p + 6, value);
    SkipByte(s, p + 7, value);
  }

  /** Where the skipping stops: at a byte or a word with the value somewhere, or less than a word before
      the end. */
  predicate StopsAt(s: seq<bv8>, p: nat, value: bool) {
    && p <= |s|
    && (|s| - p < 8 || Load(s, p) != (if value then 0 else ALL_ONES) || s[p] != (if value then 0 else 0xFF))
  }

  method SkipBytes(s: seq<bv8>, address: nat, bit: int) returns (found: bool, p: nat)
    ensures p <= |s| && NoneIn(s, bit != 0, 0, 8 * p)
    ensures found ==> p < |s| && s[p] != (if bit != 0 then 0 else 0xFF)
  {
    var skipval: bv8 := if bit != 0 then 0 else 0xFF;
    p, found := 0, false;
    var count := |s|;
    while (address + p) % 8 != 0 && count != 0
      invariant p + count == |s| && count >= 0 && NoneIn(s, bit != 0, 0, 8 * p)
      decreases count
    {
      if s[p] != skipval {
        found := true;
        break;
      }
      SkipByte(s, p, bit != 0);
      p, count := p + 1, count - 1;
    }
  }

  method SkipWords(s: seq<bv8>, start: nat, bit: int) returns (p: nat)
    requires start <= |s| && NoneIn(s, bit != 0, 0, 8 * start)
    ensures p <= |s| && NoneIn(s, bit != 0, 0, 8 * p) && StopsAt(s, p, bit != 0)
  {
    hide NoneIn, Load;
    var skipval := if bit != 0 then 0 else ALL_ONES;
    p := start;
    var count := |s| - p;
    while count >= 8
      invariant p + count == |s| && count >= 0 && NoneIn(s, bit != 0, 0, 8 * p)
      decreases count
    {
      if Load(s, p) != skipval {
        break;
      }
      SkipWord(s, p, bit != 0);
      p, count := p + 8, count - 8;
    }
  }

  lemma ZeroWindow(s: seq<bv8>, p: nat)
    ensures WordOf(Window(s, p, 8)) == 0 <==> forall i | p <= i < p + 8 :: Padded(s, i) == 0
  {
    hide BigEndian;
    var b := Window(s, p, 8);
    UniformWord(b[0], b[1], b[2], b[3], b[4], b[5], b[6], b[7]);
    assert forall i | p <= i < p + 8 :: Padded(s, i) == b[i - p];
    assert forall j | 0 <= j < 8 :: b[j] == Padded(s, p + j);
  }

  /** Where the skipping stops, some byte of the window differs from the skipped ones. */
  lemma StopHasByte(s: seq<bv8>, p: nat, value: bool) returns (i: nat)
    requires StopsAt(s, p, value) && (value ==> WordOf(Window(s, p, 8)) != 0)
    ensures p <= i < p + 8 && Padded(s, i) != (if value then 0 else 0xFF)
  {
    hide WordOf, Window;
    if value {
      ZeroWindow(s, p);
      i :| p <= i < p + 8 && Padded(s, i) != 0;
    } else if |s| - p < 8 {
      i := |s|;
    } else if s[p] != 0xFF {
      i := p;
    } else {
      UniformWord(s[p + 7], s[p + 6], s[p + 5], s[p + 4], s[p + 3], s[p + 2], s[p + 1], s[p]);
      hide BigEndian;
      i :| p <= i < p + 8 && s[i] != 0xFF;
    }
  }

  /** So the scan cannot miss. */
  lemma StopHasBit(s: seq<bv8>, p: nat, value: bool)
    requires StopsAt(s, p, value) && (value ==> WordOf(Window(s, p, 8)) != 0)
    ensures !NoneIn(s, value, 8 * p, 8 * p + 64)
  {
    var i := StopHasByte(s, p, value);
    hide StopsAt, WordOf, Window, BitOf, Padded;
    var k := ByteWithBit(Padded(s, i), value);
    assert (8 * i + k) / 8 == i && (8 * i + k) % 8 == k;
    assert PaddedBit(s, 8 * i + k) == value;
  }

  /** No set bit from p on, when all that is left fits into a word of zeros. */
  lemma NothingLeft(s: seq<bv8>, p: nat)
    requires StopsAt(s, p, true) && NoneIn(s, true, 0, 8 * p) && WordOf(Window(s, p, 8)) == 0
    ensures NoneIn(s, true, 0, 8 * |s|)
  {
    ZeroWindow(s, p);
    hide WordOf, Window, BitOf, BigEndian;
    if |s| - p >= 8 {
      assert forall j | p <= j < p + 8 :: s[j] == Padded(s, j);
      UniformWord(s[p + 7], s[p + 6], s[p + 5], s[p + 4], s[p + 3], s[p + 2], s[p + 1], s[p]);
      assert false;
    }
    forall i: nat | 8 * p <= i < 8 * |s|
      ensures !PaddedBit(s, i)
    {
      UniformByte(Padded(s, i / 8), i % 8);
    }
  }

  ghost predicate Has(s: seq<bv8>, value: bool) {
    exists i: nat :: i < 8 * |s| && BitAt(s, i) == value
  }

  /** The least position of a bit with the value. */
  ghost predicate FirstAt(s: seq<bv8>, value: bool, pos: int) {
    && 0 <= pos < 8 * |s| && BitAt(s, pos) == value
    && forall i: nat | i < pos :: BitAt(s, i) != value
  }

  lemma PaddedBitInside(s: seq<bv8>, i: nat)
    ensures i < 8 * |s| ==> PaddedBit(s, i) == BitAt(s, i)
    ensures i >= 8 * |s| ==> !PaddedBit(s, i)
  {
    UniformByte(0, i % 8);
  }

  lemma NoneInside(s: seq<bv8>, value: bool)
    requires NoneIn(s, value, 0, 8 * |s|)
    ensures !Has(s, value)
  {
    hide PaddedBit, BitAt;
    forall i: nat | i < 8 * |s|
      ensures BitAt(s, i) != value
    {
      PaddedBitInside(s, i);
      assert PaddedBit(s, i) != value;
    }
  }

  /** The least position in the padded string is the answer. */
  lemma FirstOfPadded(s: seq<bv8>, value: bool, pos: nat)
    requires NoneIn(s, value, 0, pos) && PaddedBit(s, pos) == value
    ensures if Has(s, value) then FirstAt(s, value, pos) else !value && pos == 8 * |s|
  {
    hide PaddedBit, BitAt;
    forall i: nat
      ensures i < 8 * |s| ==> PaddedBit(s, i) == BitAt(s, i)
      ensures i >= 8 * |s| ==> !PaddedBit(s, i)
    {
      PaddedBitInside(s, i);
    }
    var n: nat := 8 * |s|;
    assert n < pos ==> PaddedBit(s, n) != value;
    if pos < n {
      assert BitAt(s, pos) == value;
    } else {
      NoneInside(s, value);
    }
  }

  /** redisBitpos, for every string and every address it starts at: the least position of the bit; when
      there is none, -1 for a set bit and the length in bits for a clear one. A bit that is neither 0 nor 1
      is what it takes to reach the end of the function. */
  method RedisBitpos(s: seq<bv8>, address: nat, bit: int) returns (pos: int)
    ensures bit == 0 || bit == 1 ==>
              if Has(s, bit == 1) then FirstAt(s, bit == 1, pos) else pos == if bit == 1 then -1 else 8 * |s|
    ensures bit != 0 && bit != 1 ==> pos == 0
  {
    hide NoneIn, NoMatch, StopsAt, WordOf, Window, PaddedBit, Has, FirstAt;
    var found, p := SkipBytes(s, address, bit);
    if found {
      assert StopsAt(s, p, bit != 0) by { StopsAtByte(s, p, bit != 0); }
    } else {
      p := SkipWords(s, p, bit);
    }
    var word := LoadBigEndian(s, p);
    if bit == 1 && word == 0 {
      NothingLeft(s, p);
      NoneInside(s, true);
      return -1;
    }
    var hit, k := Scan(s, p, word, bit);
    if bit == 0 || bit == 1 {
      StopHasBit(s, p, bit == 1);
      NoMatchIsNone(s, bit, 8 * p, 8 * p + (if hit then k else 64));
    }
    if hit {
      assert bit == 0 || bit == 1;
      JoinNone(s, bit == 1, 8 * p, 8 * p + k);
      FirstOfPadded(s, bit == 1, 8 * p + k);
      return 8 * p + k;
    }
    return 0;
  }

  lemma StopsAtByte(s: seq<bv8>, p: nat, value: bool)
    requires p < |s| && s[p] != (if value then 0 else 0xFF)
    ensures StopsAt(s, p, value)
  {
  }

  lemma JoinNone(s: seq<bv8>, value: bool, a: nat, b: nat)
    requires NoneIn(s, value, 0, a) && NoneIn(s, value, a, b)
    ensures NoneIn(s, value, 0, b)
  {
    hide PaddedBit;
  }
}
