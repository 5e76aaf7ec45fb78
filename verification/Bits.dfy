/** Bits of a byte string, first byte first and most significant bit first, one at a time. */
module Bits {

  const MASKS: seq<bv8> := [0x80, 0x40, 0x20, 0x10, 8, 4, 2, 1]

  predicate BitOf(b: bv8, k: nat)
    requires k < 8
  {
    b & MASKS[k] != 0
  }

  predicate BitAt(s: seq<bv8>, i: nat)
    requires i < 8 * |s|
  {
    BitOf(s[i / 8], i % 8)
  }

  function One(bit: bool): nat { if bit then 1 else 0 }

  /** How many of the first n bits are set. */
  function OnesBelow(s: seq<bv8>, n: nat): nat
    requires n <= 8 * |s|
  {
    if n == 0 then 0 else OnesBelow(s, n - 1) + One(BitAt(s, n - 1))
  }

  function Ones(s: seq<bv8>): nat { OnesBelow(s, 8 * |s|) }

  function Count(b: bv8): nat {
    One(BitOf(b, 0)) + One(BitOf(b, 1)) + One(BitOf(b, 2)) + One(BitOf(b, 3)) +
    One(BitOf(b, 4)) + One(BitOf(b, 5)) + One(BitOf(b, 6)) + One(BitOf(b, 7))
  }

  lemma {:induction false} PartOfByte(s: seq<bv8>, k: nat, n: nat)
    requires k < |s| && n <= 8
    ensures OnesBelow(s, 8 * k + n) == OnesBelow(s, 8 * k) +
              (if n > 0 then One(BitOf(s[k], 0)) else 0) + (if n > 1 then One(BitOf(s[k], 1)) else 0) +
              (if n > 2 then One(BitOf(s[k], 2)) else 0) + (if n > 3 then One(BitOf(s[k], 3)) else 0) +
              (if n > 4 then One(BitOf(s[k], 4)) else 0) + (if n > 5 then One(BitOf(s[k], 5)) else 0) +
              (if n > 6 then One(BitOf(s[k], 6)) else 0) + (if n > 7 then One(BitOf(s[k], 7)) else 0)
  {
    hide BitOf;
    if n > 0 {
      PartOfByte(s, k, n - 1);
      assert (8 * k + n - 1) / 8 == k && (8 * k + n - 1) % 8 == n - 1;
    }
  }

  /** Bytes may be counted one after the other. */
  lemma OneMoreByte(s: seq<bv8>, k: nat)
    requires k < |s|
    ensures OnesBelow(s, 8 * (k + 1)) == OnesBelow(s, 8 * k) + Count(s[k])
  {
    hide BitOf, OnesBelow;
    PartOfByte(s, k, 8);
    assert 8 * (k + 1) == 8 * k + 8;
  }

  // ---------- the table of bit counts ----------

  /** bitsinbyte, in rows of sixteen */
  const BITS_IN_BYTE: seq<seq<nat>> := [
    [0, 1, 1, 2, 1, 2, 2, 3, 1, 2, 2, 3, 2, 3, 3, 4],
    [1, 2, 2, 3, 2, 3, 3, 4, 2, 3, 3, 4, 3, 4, 4, 5],
    [1, 2, 2, 3, 2, 3, 3, 4, 2, 3, 3, 4, 3, 4, 4, 5],
    [2, 3, 3, 4, 3, 4, 4, 5, 3, 4, 4, 5, 4, 5, 5, 6],
    [1, 2, 2, 3, 2, 3, 3, 4, 2, 3, 3, 4, 3, 4, 4, 5],
    [2, 3, 3, 4, 3, 4, 4, 5, 3, 4, 4, 5, 4, 5, 5, 6],
    [2, 3, 3, 4, 3, 4, 4, 5, 3, 4, 4, 5, 4, 5, 5, 6],
    [3, 4, 4, 5, 4, 5, 5, 6, 4, 5, 5, 6, 5, 6, 6, 7],
    [1, 2, 2, 3, 2, 3, 3, 4, 2, 3, 3, 4, 3, 4, 4, 5],
    [2, 3, 3, 4, 3, 4, 4, 5, 3, 4, 4, 5, 4, 5, 5, 6],
    [2, 3, 3, 4, 3, 4, 4, 5, 3, 4, 4, 5, 4, 5, 5, 6],
    [3, 4, 4, 5, 4, 5, 5, 6, 4, 5, 5, 6, 5, 6, 6, 7],
    [2, 3, 3, 4, 3, 4, 4, 5, 3, 4, 4, 5, 4, 5, 5, 6],
    [3, 4, 4, 5, 4, 5, 5, 6, 4, 5, 5, 6, 5, 6, 6, 7],
    [3, 4, 4, 5, 4, 5, 5, 6, 4, 5, 5, 6, 5, 6, 6, 7],
    [4, 5, 5, 6, 5, 6, 6, 7, 5, 6, 6, 7, 6, 7, 7, 8]
  ]

  function Lookup(b: bv8): nat
  {
    NibblesAreSmall(b);
    RowsAreFull();
    BITS_IN_BYTE[(b >> 4) as int][(b & 0x0F) as int]
  }

  lemma NibblesAreSmall(b: bv8)
    ensures (b >> 4) as int < 16 && (b & 0x0F) as int < 16
  {
  }

  lemma RowsAreFull()
    ensures |BITS_IN_BYTE| == 16 && forall h | 0 <= h < 16 :: |BITS_IN_BYTE[h]| == 16
  {
  }

  /** A row of the table is the first row raised by the count of the row's own number. */
  lemma RowIsRaised(h: nat, l: nat)
    requires h < 16 && l < 16
    ensures |BITS_IN_BYTE| == 16 && |BITS_IN_BYTE[h]| == 16 && |BITS_IN_BYTE[0]| == 16
    ensures BITS_IN_BYTE[h][l] == BITS_IN_BYTE[0][h] + BITS_IN_BYTE[0][l]
  {
    RowsAreFull();
    assert BITS_IN_BYTE[0] == [0, 1, 1, 2, 1, 2, 2, 3, 1, 2, 2, 3, 2, 3, 3, 4];
    if h < 8 {
      if h < 4 {
        if h == 0 {} else if h == 1 {} else if h == 2 {} else {}
      } else {
        if h == 4 {} else if h == 5 {} else if h == 6 {} else {}
      }
    } else {
      if h < 12 {
        if h == 8 {} else if h == 9 {} else if h == 10 {} else {}
      } else {
        if h == 12 {} else if h == 13 {} else if h == 14 {} else {}
      }
    }
  }

  lemma FirstRow(x: bv8)
    requires x < 16
    ensures |BITS_IN_BYTE| == 16 && |BITS_IN_BYTE[0]| == 16 && (x as int) < 16
    ensures BITS_IN_BYTE[0][x as int] == One(x & 8 != 0) + One(x & 4 != 0) + One(x & 2 != 0) + One(x & 1 != 0)
  {
    RowsAreFull();
    assert BITS_IN_BYTE[0] == [0, 1, 1, 2, 1, 2, 2, 3, 1, 2, 2, 3, 2, 3, 3, 4];
    if x < 8 {
      if x < 4 {
        if x == 0 {} else if x == 1 {} else if x == 2 {} else {}
      } else {
        if x == 4 {} else if x == 5 {} else if x == 6 {} else {}
      }
    } else {
      if x < 12 {
        if x == 8 {} else if x == 9 {} else if x == 10 {} else {}
      } else {
        if x == 12 {} else if x == 13 {} else if x == 14 {} else {}
      }
    }
  }

  lemma NibblesOfByte(b: bv8)
    ensures (b >> 4) < 16 && (b & 0x0F) < 16
    ensures Count(b) == One((b >> 4) & 8 != 0) + One((b >> 4) & 4 != 0)
                      + One((b >> 4) & 2 != 0) + One((b >> 4) & 1 != 0)
                      + One((b & 0x0F) & 8 != 0) + One((b & 0x0F) & 4 != 0)
                      + One((b & 0x0F) & 2 != 0) + One((b & 0x0F) & 1 != 0)
  {
  }

  /** The table is right for all 256 bytes. */
  lemma LookupCounts(b: bv8)
    ensures Lookup(b) == Count(b)
  {
    hide Count, One;
    NibblesOfByte(b);
    NibblesAreSmall(b);
    RowsAreFull();
    FirstRow(b >> 4);
    FirstRow(b & 0x0F);
    RowIsRaised((b >> 4) as int, (b & 0x0F) as int);
  }
}
