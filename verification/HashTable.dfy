/** lib/hashtable.c run by one thread: a split-ordered list behind a segmented bucket directory that
    refines a map from byte strings to values. */
module HashTables {
  import opened Arithmetic
  import opened Bytes
  import opened SplitOrder

  type Key = seq<Byte>

  datatype Status = Good | DuplicateKey | NotFound | BadArgs

  function HashOf(key: Key): (h: nat)
    ensures h <= LAST
  {
    if key == [] then 5381 else (33 * HashOf(key[..|key| - 1]) + key[|key| - 1]) % (LAST + 1)
  }

  lemma ModAdd(a: nat, x: int, m: nat)
    requires m > 0
    ensures (a % m + x) % m == (a + x) % m
  {
    var q := a / m;
    assert a + x == q * m + (a % m + x);
    var t := a % m + x;
    assert a + x == (q + t / m) * m + t % m by { assert (q + t / m) * m == q * m + (t / m) * m; }
    var d := (a + x) / m - (q + t / m);
    assert d * m == (a + x) / m * m - (q + t / m) * m;
    MultipleBound(d, m);
    MultipleBound(-d, m);
    assert (-d) * m == -(d * m);
  }

  /** ht_hash: hash * 33 + c by shift and add, in 32 bits. */
  method Hash(key: Key) returns (hash: nat)
    ensures hash == HashOf(key)
  {
    hash := 5381;
    for i := 0 to |key|
      invariant hash == HashOf(key[..i])
    {
      assert key[..i + 1][..i] == key[..i];
      ModAdd(32 * hash, hash + key[i], LAST + 1);
      hash := ((32 * hash) % (LAST + 1) + (hash + key[i])) % (LAST + 1);
    }
    assert key[..|key|] == key;
  }

  /** A list node. Sentinels and the end node have no key; key and hash are set before the node is
      linked and never change. */
  class Node {
    const key: Option<Key>
    const hash: nat
    var next: Node?
    var value: int

    constructor (key: Option<Key>, hash: nat, next: Node?, value: int)
      ensures this.key == key && this.hash == hash && this.next == next && this.value == value
    {
      this.key, this.hash, this.next, this.value := key, hash, next, value;
    }
  }

  // ---------- the list as a sequence: what its order means, without the heap ----------

  /** How two nodes of the list stand: sorted by hash, sentinels before the keys of equal hash, no
      key twice. */
  predicate Before(a: Node, b: Node) {
    && a != b && a.hash <= b.hash
    && (a.hash == b.hash && a.key.Some? ==> b.key.Some?)
    && (a.key.Some? ==> a.key != b.key)
  }

  predicate KeyHashed(n: Node) {
    n.key.Some? ==> n.hash == HashOf(n.key.value) && 0 < n.hash < LAST
  }

  /** The list from the sentinel of index 0 to the end node. */
  predicate Ordered(ns: seq<Node>) {
    && |ns| >= 2 && ns[0].hash == 0 && ns[0].key.None? && ns[|ns| - 1].hash == LAST && ns[|ns| - 1].key.None?
    && (forall i, j | 0 <= i < j < |ns| :: Before(ns[i], ns[j]))
    && (forall i | 0 <= i < |ns| :: KeyHashed(ns[i]))
  }

  function Insert<T>(ns: seq<T>, i: nat, n: T): seq<T>
    requires i <= |ns|
  {
    ns[..i] + [n] + ns[i..]
  }

  function Remove<T>(ns: seq<T>, i: nat): seq<T>
    requires i < |ns|
  {
    ns[..i] + ns[i + 1..]
  }

  lemma InsertKeepsOrder(ns: seq<Node>, i: nat, n: Node)
    requires Ordered(ns) && 0 < i < |ns|
    requires forall j | 0 <= j < i :: Before(ns[j], n)
    requires forall j | i <= j < |ns| :: Before(n, ns[j])
    requires KeyHashed(n)
    ensures Ordered(Insert(ns, i, n))
  {
  }

  /** A new key goes between the last node with a hash not above its own and the next. */
  lemma KeyFits(ns: seq<Node>, i: nat, n: Node)
    requires Ordered(ns) && 0 < i < |ns| && n !in ns && n.key.Some?
    requires ns[i - 1].hash <= n.hash < ns[i].hash
    requires forall j | 0 <= j < |ns| :: ns[j].key != n.key
    ensures forall j | 0 <= j < i :: Before(ns[j], n)
    ensures forall j | i <= j < |ns| :: Before(n, ns[j])
  {
    forall j | 0 <= j < i ensures Before(ns[j], n) {
      assert j < i - 1 ==> Before(ns[j], ns[i - 1]);
    }
    forall j | i <= j < |ns| ensures Before(n, ns[j]) {
      assert i < j ==> Before(ns[i], ns[j]);
    }
  }

  /** A new sentinel goes before every node with a hash not below its own. */
  lemma SentinelFits(ns: seq<Node>, i: nat, n: Node)
    requires Ordered(ns) && 0 < i < |ns| && n !in ns && n.key.None?
    requires ns[i - 1].hash < n.hash <= ns[i].hash
    ensures forall j | 0 <= j < i :: Before(ns[j], n)
    ensures forall j | i <= j < |ns| :: Before(n, ns[j])
  {
    forall j | 0 <= j < i ensures Before(ns[j], n) {
      assert j < i - 1 ==> Before(ns[j], ns[i - 1]);
    }
    forall j | i <= j < |ns| ensures Before(n, ns[j]) {
      assert i < j ==> Before(ns[i], ns[j]);
    }
  }

  lemma RemoveKeepsOrder(ns: seq<Node>, i: nat)
    requires Ordered(ns) && 0 < i < |ns| - 1
    ensures Ordered(Remove(ns, i))
  {
  }

  // ---------- the heap: links, directory, values ----------

  const DIRECTORY: nat := 64      // CHAR_BIT * sizeof(struct ht_node*)
  const MAX_BITLEN: nat := 30

  type Segment = array<Node?>
  type Directory = array<array?<Node?>>

  function SegmentSize(b: nat): (n: nat)
    ensures n >= 1
  {
    if b == 0 then 2 else Pow2(b)
  }

  /** The load bound: at most one key more than 2^bitlen, and no doubling before it was due. */
  predicate LoadOk(count: nat, bitlen: nat) {
    count <= Pow2(bitlen) + 1 && (bitlen > 1 ==> Pow2(bitlen - 1) < count)
  }

  /** The index whose sentinel the slot (b, o) holds. */
  function IndexOf(b: nat, o: nat): nat { if b == 0 then o else Pow2(b) + o }

  ghost predicate Links(ns: seq<Node>)
    reads (set n | n in ns)`next
  {
    && (forall i | 0 <= i < |ns| - 1 :: ns[i].next == ns[i + 1])
    && (|ns| > 0 ==> ns[|ns| - 1].next == null)
  }

  ghost predicate Maps(ns: seq<Node>, m: map<Key, int>)
    reads (set n | n in ns)`value
  {
    && (forall i | 0 <= i < |ns| && ns[i].key.Some? :: ns[i].key.value in m && m[ns[i].key.value] == ns[i].value)
    && (forall k | k in m :: exists i :: 0 <= i < |ns| && ns[i].key == Some(k))
  }

  /** Segments 0 to bitlen - 1 exist and have their sizes. */
  ghost predicate Segments(dir: Directory, bitlen: nat)
    reads dir
  {
    && dir.Length == DIRECTORY && 1 <= bitlen <= MAX_BITLEN
    && (forall b | 0 <= b < bitlen :: dir[b] != null && dir[b].Length == SegmentSize(b))
    && (forall b | bitlen <= b < DIRECTORY :: dir[b] == null)
    && (forall b, c | 0 <= b < c < bitlen :: dir[b] != dir[c])
  }

  ghost function SegmentSet(dir: Directory, bitlen: nat): set<object>
    requires Segments(dir, bitlen)
    reads dir
  {
    set b | 0 <= b < bitlen :: dir[b]
  }

  /** A filled slot holds the sentinel of its index, which is in the list. */
  predicate SentinelOf(n: Node?, index: nat, ns: set<Node>) {
    n != null ==> n in ns && n.key.None? && n.hash == Reverse(index)
  }

  ghost predicate Slots(dir: Directory, bitlen: nat, ns: set<Node>)
    requires Segments(dir, bitlen)
    reads dir, SegmentSet(dir, bitlen)
  {
    && (forall b, o | 0 <= b < bitlen && 0 <= o < SegmentSize(b) :: SentinelOf(dir[b][o], IndexOf(b, o), ns))
    && dir[0][0] != null && dir[0][1] != null
  }

  function NodeSet(ns: seq<Node>): set<Node> { set n | n in ns }

  lemma LinksAfterInsert(ns: seq<Node>, i: nat, node: Node)
    requires 0 < i < |ns| && ns[i - 1].next == node && node.next == ns[i]
    requires forall j | 0 <= j < |ns| - 1 && j != i - 1 :: ns[j].next == ns[j + 1]
    requires ns[|ns| - 1].next == null
    ensures Links(Insert(ns, i, node))
  {
    var ms := Insert(ns, i, node);
    forall j | 0 <= j < |ms| - 1
      ensures ms[j].next == ms[j + 1]
    {
      if j < i - 1 {
        assert ms[j] == ns[j] && ms[j + 1] == ns[j + 1];
      } else if j > i {
        assert ms[j] == ns[j - 1] && ms[j + 1] == ns[j];
        assert ns[j - 1].next == ns[j];
      }
    }
  }

  lemma LinksAfterRemove(ns: seq<Node>, i: nat)
    requires 0 < i < |ns| - 1 && ns[i - 1].next == ns[i + 1]
    requires forall j | 0 <= j < |ns| - 1 && j != i - 1 :: ns[j].next == ns[j + 1]
    requires ns[|ns| - 1].next == null
    ensures Links(Remove(ns, i))
  {
    var ms := Remove(ns, i);
    forall j | 0 <= j < |ms| - 1
      ensures ms[j].next == ms[j + 1]
    {
      if j < i - 1 {
        assert ms[j] == ns[j] && ms[j + 1] == ns[j + 1];
      } else if j >= i {
        assert ms[j] == ns[j + 1] && ms[j + 1] == ns[j + 2];
        assert ns[j + 1].next == ns[j + 2];
      }
    }
  }

  lemma NodesAfterInsert(ns: seq<Node>, i: nat, node: Node)
    requires i <= |ns|
    ensures NodeSet(Insert(ns, i, node)) == NodeSet(ns) + {node}
  {
    var ms := Insert(ns, i, node);
    assert ms[i] == node;
    forall n | n in ns
      ensures n in ms
    {
      var j :| 0 <= j < |ns| && ns[j] == n;
      assert ms[if j < i then j else j + 1] == n;
    }
  }

  lemma MapsAfterInsert(ns: seq<Node>, m: map<Key, int>, i: nat, node: Node)
    requires Maps(ns, m) && i <= |ns| && (node.key.Some? ==> node.key.value !in m)
    ensures Maps(Insert(ns, i, node), if node.key.Some? then m[node.key.value := node.value] else m)
  {
    var ms := Insert(ns, i, node);
    var m' := if node.key.Some? then m[node.key.value := node.value] else m;
    forall j | 0 <= j < |ms| && ms[j].key.Some?
      ensures ms[j].key.value in m' && m'[ms[j].key.value] == ms[j].value
    {
      assert j < i ==> ms[j] == ns[j];
      assert j > i ==> ms[j] == ns[j - 1];
    }
    forall k | k in m'
      ensures exists j :: 0 <= j < |ms| && ms[j].key == Some(k)
    {
      if k in m {
        var j :| 0 <= j < |ns| && ns[j].key == Some(k);
        assert ms[if j < i then j else j + 1] == ns[j];
      } else {
        assert ms[i] == node;
      }
    }
  }

  lemma MapsAfterRemove(ns: seq<Node>, m: map<Key, int>, i: nat)
    requires Ordered(ns) && Maps(ns, m) && i < |ns| && ns[i].key.Some?
    ensures Maps(Remove(ns, i), m - {ns[i].key.value})
  {
    hide HashOf;
    var ms := Remove(ns, i);
    forall j | 0 <= j < |ms| && ms[j].key.Some?
      ensures ms[j].key.value in m - {ns[i].key.value} && m[ms[j].key.value] == ms[j].value
    {
      var k := if j < i then j else j + 1;
      assert ms[j] == ns[k];
      assert k < i ==> Before(ns[k], ns[i]);
      assert i < k ==> Before(ns[i], ns[k]);
    }
    forall k | k in m - {ns[i].key.value}
      ensures exists j :: 0 <= j < |ms| && ms[j].key == Some(k)
    {
      var j :| 0 <= j < |ns| && ns[j].key == Some(k);
      assert ms[if j < i then j else j - 1] == ns[j];
    }
  }

  lemma SlotsGrow(dir: Directory, bitlen: nat, ns: set<Node>, ms: set<Node>)
    requires Segments(dir, bitlen) && Slots(dir, bitlen, ns) && ns <= ms
    ensures Slots(dir, bitlen, ms)
  {
  }

  lemma SlotsShrink(dir: Directory, bitlen: nat, ns: set<Node>, ms: set<Node>)
    requires Segments(dir, bitlen) && Slots(dir, bitlen, ns)
    requires forall n | n in ns && n.key.None? :: n in ms
    ensures Slots(dir, bitlen, ms)
  {
  }

  lemma IndicesAreWords(bitlen: nat)
    requires bitlen <= MAX_BITLEN
    ensures Pow2(bitlen) <= TOP
  {
    Pow2Monotone(bitlen, MAX_BITLEN);
    Pow2Word();
  }

  /** Clearing the top bit of an index names the slot of that index, in a segment that exists. */
  lemma ParentSegment(bitlen: nat, x: nat, msb: nat, log: nat)
    requires 1 <= bitlen <= MAX_BITLEN && x < Pow2(bitlen)
    requires x == 0 ==> msb == 0 && log == 0
    requires x > 0 ==> msb == Pow2(log) && msb <= x < 2 * msb && log < WORD
    ensures log < bitlen && x - msb < SegmentSize(log)
    ensures log >= 1 ==> IndexOf(log, x - msb) == x
    ensures x < 2 ==> log == 0 && x - msb == 0
    ensures Reverse(x - msb) <= Reverse(x) && Reverse(IndexOf(log, x - msb)) <= Reverse(x)
  {
    hide Rev;
    ReverseSmall();
    IndicesAreWords(bitlen);
    if log >= bitlen {
      Pow2Monotone(bitlen, log);
    }
    if x > 0 {
      ParentBeforeChild(x, log);
    }
    if log >= 1 {
      Pow2Monotone(1, log);
    }
  }

  /** The list of ht_init: the sentinels of indices 0 and 1 and the end node. */
  method NewList() returns (first: Node, second: Node, end: Node)
    ensures fresh(first) && fresh(second) && fresh(end)
    ensures first.key == second.key == None && first.hash == 0 && second.hash == TOP
    ensures var ns := [first, second, end];
            Ordered(ns) && Links(ns) && Maps(ns, map[]) && NodeSet(ns) == {first, second, end}
  {
    hide HashOf;
    end := new Node(None, LAST, null, 0);
    second := new Node(None, TOP, end, 0);
    first := new Node(None, 0, second, 0);
  }

  /** Segment 0 with the two initial sentinels, in a directory without further segments. */
  method NewDirectory(first: Node, second: Node) returns (dir: Directory, segment: Segment)
    requires first.key == second.key == None && first.hash == 0 && second.hash == TOP
    ensures fresh(dir) && fresh(segment)
    ensures Segments(dir, 1) && SegmentSet(dir, 1) == {segment} && Slots(dir, 1, {first, second})
  {
    segment := new Node?[2](_ => first);
    segment[1] := second;
    dir := new array?<Node?>[DIRECTORY](_ => null);
    dir[0] := segment;
    ReverseSmall();
  }

  // ---------- the table ----------

  class Table {
    const buckets: Directory
    var elementCount: nat
    var bitlen: nat
    var bitlenInternal: nat
    ghost var nodes: seq<Node>          // the list from buckets[0][0] to the end node
    ghost var contents: map<Key, int>   // the map the table stands for
    ghost var Repr: set<object>

    ghost predicate Valid()
      reads this, Repr
      ensures Valid() ==> this in Repr
    {
      && this in Repr && buckets in Repr && NodeSet(nodes) <= Repr
      && bitlenInternal == bitlen && LoadOk(elementCount, bitlen)
      && Segments(buckets, bitlen) && SegmentSet(buckets, bitlen) <= Repr
      && Ordered(nodes) && Links(nodes) && Maps(nodes, contents)
      && Slots(buckets, bitlen, NodeSet(nodes))
    }

    /** Valid, except that the directory may already point at a node that is about to be linked. */
    ghost predicate ValidWith(node: Node)
      reads this, Repr
      ensures ValidWith(node) ==> this in Repr
    {
      && this in Repr && buckets in Repr && NodeSet(nodes) <= Repr && node !in Repr
      && bitlenInternal == bitlen && LoadOk(elementCount, bitlen)
      && Segments(buckets, bitlen) && SegmentSet(buckets, bitlen) <= Repr
      && Ordered(nodes) && Links(nodes) && Maps(nodes, contents)
      && Slots(buckets, bitlen, NodeSet(nodes) + {node})
    }

    /** ht_init. */
    constructor ()
      ensures Valid() && fresh(Repr)
      ensures contents == map[] && elementCount == 0 && bitlen == 1
    {
      hide Reverse, HashOf;
      var first, second, end := NewList();
      var directory, segment := NewDirectory(first, second);
      buckets := directory;
      elementCount, bitlen, bitlenInternal := 0, 1, 1;
      nodes := [first, second, end];
      contents := map[];
      Repr := {this, directory, segment, first, second, end};
      new;
      hide Ordered, Links, Maps, Slots, NodeSet, Reverse, HashOf;
      SlotsGrow(buckets, bitlen, {first, second}, NodeSet(nodes));
    }

    /** The slot in which ht_get_sentinel looks for index x: indices 0 and 1 share the first one. */
    ghost function OwnSlot(x: nat): Node?
      requires Segments(buckets, bitlen) && x < Pow2(bitlen)
      reads this`bitlen, buckets, SegmentSet(buckets, bitlen)
    {
      if x < 2 then buckets[0][0]
      else
        var b := TopBit(x);
        if b >= bitlen then null else buckets[b][x - Pow2(b)]
    }

    /** The sentinel of x or, as long as x has none, of the nearest index that x becomes as it loses its top bits. */
    ghost function Serving(x: nat): Node?
      requires Segments(buckets, bitlen) && x < Pow2(bitlen)
      reads this`bitlen, buckets, SegmentSet(buckets, bitlen)
    {
      if x < 2 || OwnSlot(x) != null then OwnSlot(x) else Serving(x - Pow2(TopBit(x)))
    }

    /** The same for the parent search, which does not share slots: index 1 has its own. */
    ghost function Ancestor(x: nat): Node?
      requires Segments(buckets, bitlen) && x < Pow2(bitlen)
      reads this`bitlen, buckets, SegmentSet(buckets, bitlen)
    {
      if x < 2 then buckets[0][x]
      else if OwnSlot(x) != null then OwnSlot(x)
      else Ancestor(x - Pow2(TopBit(x)))
    }

    /** Every slot that there was holds what it held, but perhaps that of index x. */
    twostate predicate SlotsKept(x: nat)
      requires old(Segments(buckets, bitlen)) && Segments(buckets, bitlen) && old(bitlen) <= bitlen
      reads this`bitlen, buckets, SegmentSet(buckets, bitlen)
    {
      forall b, o | 0 <= b < old(bitlen) && 0 <= o < SegmentSize(b) && (x < 2 || IndexOf(b, o) != x) ::
        buckets[b][o] == old(buckets[b][o])
    }

    lemma OwnSlotIs(x: nat, b: nat, o: nat)
      requires Segments(buckets, bitlen) && x < Pow2(bitlen) && b < bitlen && o < SegmentSize(b)
      requires o < Pow2(bitlen) && if x < 2 then b == o == 0 else b >= 1 && x == IndexOf(b, o)
      ensures OwnSlot(x) == buckets[b][o]
      ensures Serving(x) == if x < 2 || buckets[b][o] != null then buckets[b][o] else Serving(o)
      ensures x >= 2 ==> Ancestor(x) == if buckets[b][o] != null then buckets[b][o] else Ancestor(o)
    {
      if x >= 2 { TopBitIs(x, b); }
    }

    lemma LowAncestor(x: nat)
      requires Segments(buckets, bitlen) && x < 2 && x < Pow2(bitlen)
      ensures Ancestor(x) == buckets[0][x]
    {
    }

    /** The common walk of ht_store, ht_find and ht_del: from a sentinel past all smaller hashes, then
        through the nodes of equal hash. */
    method Locate(key: Key, hash: nat, start: Node) returns (p: Node, n: Node, found: bool, ghost i: nat)
      requires Valid() && hash == HashOf(key) < LAST
      requires start in nodes && start.key.None? && start.hash <= hash
      ensures i + 1 < |nodes| && p == nodes[i] && n == nodes[i + 1] && p.hash <= hash <= n.hash
      ensures found <==> key in contents
      ensures found ==> n.key == Some(key) && n.value == contents[key]
      ensures !found ==> hash < n.hash
    {
      hide HashOf, Reverse, Pow2, Segments, Slots;
      p := start;
      i :| 0 <= i < |nodes| && nodes[i] == start;
      assert i + 1 < |nodes| && nodes[i].next == nodes[i + 1];
      forall j | 0 <= j <= i
        ensures nodes[j].key != Some(key)
      {
        assert j < i ==> Before(nodes[j], nodes[i]);
        assert KeyHashed(nodes[j]);
      }
      n := p.next;
      while hash > n.hash
        invariant i + 1 < |nodes| && p == nodes[i] && n == nodes[i + 1] && p.hash <= hash
        invariant forall j | 0 <= j <= i :: nodes[j].key != Some(key)
        decreases |nodes| - i
      {
        assert KeyHashed(n);
        p := n;
        i := i + 1;
        assert i + 1 < |nodes| && nodes[i].next == nodes[i + 1];
        n := n.next;
      }
      while n.hash == hash
        invariant i + 1 < |nodes| && p == nodes[i] && n == nodes[i + 1] && p.hash <= hash <= n.hash
        invariant forall j | 0 <= j <= i :: nodes[j].key != Some(key)
        decreases |nodes| - i
      {
        if n.key == Some(key) {
          return p, n, true, i;
        }
        p := n;
        i := i + 1;
        assert i + 1 < |nodes| && nodes[i].next == nodes[i + 1];
        n := n.next;
      }
      found := false;
      forall j | i < j < |nodes|
        ensures nodes[j].key != Some(key)
      {
        assert i + 1 < j ==> Before(n, nodes[j]);
        assert KeyHashed(nodes[j]);
      }
    }

    /** The bucket of an index: its top bit gives the segment, the rest the offset. */
    method Bucket(hash: nat) returns (idx: nat, b: nat, offset: nat)
      requires 1 <= bitlen <= MAX_BITLEN && hash <= LAST
      ensures idx == Reverse(hash) % Pow2(bitlen) && Reverse(idx) <= hash
      ensures b < bitlen && offset < SegmentSize(b) && offset < Pow2(bitlen)
      ensures if idx < 2 then b == 0 && offset == 0
              else b >= 1 && idx == IndexOf(b, offset) && Reverse(offset) < Reverse(idx)
    {
      SentinelBeforeKey(hash, bitlen);
      IndicesAreWords(bitlen);
      var reversed := ReverseBits(hash);
      idx := reversed % Pow2(bitlen);
      var msb;
      msb, b := FindMsb(idx);
      offset := idx - msb;
      if b >= bitlen {
        Pow2Monotone(bitlen, b);
      }
      if b >= 1 {
        Pow2Monotone(1, b);
        ParentBeforeChild(idx, b);
      }
    }

    /** What a directory slot holds. */
    lemma Slot(b: nat, o: nat)
      requires Valid() && b < bitlen && o < SegmentSize(b)
      ensures buckets[b] != null && o < buckets[b].Length
      ensures b == 0 ==> buckets[b][o] != null
      ensures SentinelOf(buckets[b][o], IndexOf(b, o), NodeSet(nodes))
    {
      hide HashOf, Reverse, Pow2, Ordered, Links, Maps;
    }

    /** ht_get_sentinel without create: the bucket's own sentinel, or that of the nearest ancestor
        index that has one. */
    method FindSentinel(hash: nat) returns (sentinel: Node)
      requires Valid() && hash <= LAST
      ensures sentinel in nodes && sentinel.key.None? && sentinel.hash <= hash
      ensures sentinel == Serving(Reverse(hash) % Pow2(bitlen))
    {
      hide Reverse, HashOf, Ordered, Maps, Links, OwnSlot, Serving, Ancestor;
      var idx, b, offset := Bucket(hash);
      OwnSlotIs(idx, b, offset);
      Slot(b, offset);
      ReverseSmall();
      IndicesAreWords(bitlen);
      var prev := buckets[b][offset];
      while prev == null
        invariant offset < Pow2(bitlen) && (prev == null ==> Reverse(offset) <= hash)
        invariant prev != null ==> prev in nodes && prev.key.None? && prev.hash <= hash
        invariant Serving(idx) == if prev != null then prev else Serving(offset)
        decreases if prev == null then offset + 1 else 0
      {
        var msb, parent := FindMsb(offset);
        ParentSegment(bitlen, offset, msb, parent);
        OwnSlotIs(offset, parent, offset - msb);
        Slot(parent, offset - msb);
        offset := offset - msb;
        prev := buckets[parent][offset];
      }
      return prev;
    }

    /** ht_find. A hash of LAST would run off the end node, so callers keep clear of it. */
    method Find(key: Key) returns (status: Status, slot: Node?)
      requires Valid() && HashOf(key) != LAST
      ensures status == if key in contents then Good else NotFound
      ensures status == Good ==> slot != null && slot in nodes && slot.key == Some(key) && slot.value == contents[key]
    {
      hide Reverse, HashOf, Ordered, Maps, Links, Segments, Slots;
      var hash := Hash(key);
      var sentinel := FindSentinel(hash);
      var p, n, found, i := Locate(key, hash, sentinel);
      if found {
        return Good, n;
      }
      return NotFound, null;
    }

    /** The walk of a new sentinel from its parent to the first node whose hash is not below its own. */
    method SplicePoint(parent: Node, hash: nat) returns (prev: Node, next: Node, ghost i: nat)
      requires Ordered(nodes) && Links(nodes) && parent in nodes && parent.hash < hash <= LAST
      ensures 0 < i < |nodes| && prev == nodes[i - 1] && next == nodes[i] && prev.hash < hash <= next.hash
    {
      prev := parent;
      ghost var k :| 0 <= k < |nodes| && nodes[k] == parent;
      i := k + 1;
      assert i < |nodes| && nodes[i - 1].next == nodes[i];
      next := prev.next;
      while next.hash < hash
        invariant 0 < i < |nodes| && prev == nodes[i - 1] && next == nodes[i] && prev.hash < hash
        decreases |nodes| - i
      {
        prev := next;
        i := i + 1;
        assert i < |nodes| && nodes[i - 1].next == nodes[i];
        next := prev.next;
      }
    }

    /** The parent search of ht_get_sentinel: the sentinel of the nearest ancestor index. */
    method NearestAncestor(idx: nat, x: nat) returns (parent: Node)
      requires Valid() && x < Pow2(bitlen) && Reverse(x) < Reverse(idx)
      ensures parent in nodes && parent.key.None? && parent.hash < Reverse(idx) && parent == Ancestor(x)
    {
      hide Reverse, HashOf, Ordered, Maps, Links, OwnSlot, Serving, Ancestor;
      var offset: nat, log: nat := x, 0;
      var prev: Node? := null;
      IndicesAreWords(bitlen);
      while prev == null
        invariant offset < Pow2(bitlen) && Reverse(offset) < Reverse(idx)
        invariant prev != null ==> prev in nodes && prev.key.None? && prev.hash < Reverse(idx)
        invariant Ancestor(x) == if prev != null then prev else Ancestor(offset)
        decreases if prev == null then offset + 1 else 0
      {
        if offset < 2 {
          log := 0;
          LowAncestor(offset);
        } else {
          var msb;
          msb, log := FindMsb(offset);
          ParentSegment(bitlen, offset, msb, log);
          OwnSlotIs(offset, log, offset - msb);
          offset := offset - msb;
        }
        Slot(log, offset);
        prev := buckets[log][offset];
      }
      return prev;
    }

    /** `node->next = next` and the successful compare-and-swap on prev.next: node becomes the i-th. */
    method Relink(prev: Node, node: Node, next: Node, ghost i: nat)
      requires Links(nodes) && Maps(nodes, contents) && node !in nodes
      requires 0 < i < |nodes| && prev == nodes[i - 1] && next == nodes[i]
      requires forall j | 0 <= j < |nodes| && j != i - 1 :: nodes[j] != prev
      requires node.key.Some? ==> node.key.value !in contents
      modifies prev`next, node`next, this`nodes, this`contents, this`Repr
      ensures nodes == Insert(old(nodes), i, node) && Repr == old(Repr) + {node}
      ensures Links(nodes) && Maps(nodes, contents) && NodeSet(nodes) == NodeSet(old(nodes)) + {node}
      ensures contents == if node.key.Some? then old(contents)[node.key.value := node.value] else old(contents)
    {
      hide HashOf, Reverse, Maps, NodeSet;
      ghost var ms, m := Insert(nodes, i, node), contents;
      if node.key.Some? {
        m := m[node.key.value := node.value];
      }
      assert Maps(ms, m) by { MapsAfterInsert(nodes, contents, i, node); }
      node.next := next;
      prev.next := node;
      assert Links(ms) by { LinksAfterInsert(nodes, i, node); }
      assert NodeSet(ms) == NodeSet(nodes) + {node} by { NodesAfterInsert(nodes, i, node); }
      nodes, contents, Repr := ms, m, Repr + {node};
    }

    /** Linking a node that fits keeps the table valid. */
    method Link(prev: Node, node: Node, next: Node, ghost i: nat)
      requires ValidWith(node)
      requires 0 < i < |nodes| && prev == nodes[i - 1] && next == nodes[i]
      requires Ordered(Insert(nodes, i, node)) && (node.key.Some? ==> node.key.value !in contents)
      modifies prev`next, node`next, this`nodes, this`contents, this`Repr
      ensures Valid() && nodes == Insert(old(nodes), i, node) && Repr == old(Repr) + {node}
      ensures contents == if node.key.Some? then old(contents)[node.key.value := node.value] else old(contents)
    {
      hide Reverse, Pow2, HashOf, Maps, Links, Slots;
      Relink(prev, node, next, i);
    }

    /** ht_get_sentinel with create: an empty slot gets a new sentinel, spliced into the list between
        the smaller hashes and the rest; the map does not change. */
    method EnsureSentinel(hash: nat) returns (sentinel: Node, ghost i: nat)
      requires Valid() && hash < LAST
      modifies Repr
      ensures Valid()
      ensures contents == old(contents) && elementCount == old(elementCount) && bitlen == old(bitlen)
      ensures sentinel in nodes && sentinel.key.None? && sentinel.hash <= hash
      ensures var idx := Reverse(hash) % Pow2(bitlen);
              && sentinel == OwnSlot(idx) && (idx >= 2 ==> sentinel.hash == Reverse(idx)) && SlotsKept(idx)
              && (old(OwnSlot(idx)) != null ==> sentinel == old(OwnSlot(idx)) && nodes == old(nodes))
      ensures (nodes == old(nodes) && Repr == old(Repr)) ||
              (&& fresh(sentinel) && Repr == old(Repr) + {sentinel}
               && 0 < i < |old(nodes)| && nodes == Insert(old(nodes), i, sentinel)
               && sentinel.hash == Reverse(Reverse(hash) % Pow2(bitlen))
               && old(nodes)[i - 1].hash < sentinel.hash <= old(nodes)[i].hash)
    {
      hide Reverse, Pow2, HashOf, Ordered, Maps, Links, Slots, OwnSlot, Serving, Ancestor;
      i := 0;
      var idx, b, offset := Bucket(hash);
      OwnSlotIs(idx, b, offset);
      Slot(b, offset);
      if buckets[b][offset] != null {
        ReverseSmall();
        return buckets[b][offset], i;
      }
      var parent := NearestAncestor(idx, offset);
      IndicesAreWords(bitlen);
      sentinel, i := Splice(parent, idx, b, offset);
      OwnSlotIs(idx, b, offset);
    }

    /** The insertion of a new sentinel: its slot is filled first, then it is linked. */
    method Splice(parent: Node, idx: nat, b: nat, offset: nat) returns (sentinel: Node, ghost i: nat)
      requires Valid() && b < bitlen && offset < SegmentSize(b) && 2 <= idx == IndexOf(b, offset) <= LAST
      requires parent in nodes && parent.hash < Reverse(idx) && buckets[b][offset] == null
      modifies Repr
      ensures Valid() && fresh(sentinel) && Repr == old(Repr) + {sentinel}
      ensures contents == old(contents) && elementCount == old(elementCount) && bitlen == old(bitlen)
      ensures sentinel.key.None? && sentinel.hash == Reverse(idx)
      ensures buckets[b][offset] == sentinel && SlotsKept(idx)
      ensures 0 < i < |old(nodes)| && nodes == Insert(old(nodes), i, sentinel)
      ensures old(nodes)[i - 1].hash < sentinel.hash <= old(nodes)[i].hash
    {
      hide Reverse, Pow2, HashOf, Maps, Links, Slots;
      var reversed := ReverseBits(idx);
      sentinel := new Node(None, reversed, parent, 0);
      FillSlot(b, offset, sentinel);
      var prev, next;
      prev, next, i := SplicePoint(parent, reversed);
      SentinelFits(nodes, i, sentinel);
      InsertKeepsOrder(nodes, i, sentinel);
      Link(prev, sentinel, next, i);
    }

    /** The compare-and-swap on an empty slot. */
    method FillSlot(b: nat, offset: nat, node: Node)
      requires Valid() && b < bitlen && offset < SegmentSize(b) && node !in Repr
      requires node.key.None? && node.hash == Reverse(IndexOf(b, offset))
      modifies buckets[b]
      ensures ValidWith(node) && buckets[b][offset] == node
      ensures forall o | 0 <= o < SegmentSize(b) && o != offset :: buckets[b][o] == old(buckets[b][o])
    {
      hide Reverse, HashOf, Ordered, Maps, Links;
      var segment := buckets[b];
      segment[offset] := node;
      assert Slots(buckets, bitlen, NodeSet(nodes) + {node});
    }

    /** ht_resize: one more segment, all slots empty. No node moves. */
    method Resize()
      requires Valid() && bitlen < MAX_BITLEN && elementCount > Pow2(bitlen)
      modifies this, buckets
      ensures Valid() && fresh(Repr - old(Repr))
      ensures bitlen == old(bitlen) + 1 && elementCount <= Pow2(bitlen)
      ensures nodes == old(nodes) && contents == old(contents) && elementCount == old(elementCount)
      ensures SlotsKept(0) && forall o | 0 <= o < SegmentSize(old(bitlen)) :: buckets[old(bitlen)][o] == null
    {
      hide Reverse, HashOf, Ordered, Maps, Links;
      var newBitlen := bitlenInternal + 1;
      var segment := new Node?[Pow2(newBitlen - 1)](_ => null);
      bitlenInternal := newBitlen;
      buckets[newBitlen - 1] := segment;
      bitlen := newBitlen;
      Repr := Repr + {segment};
    }

    /** The head of ht_store: grow if it is due, then make sure that the bucket has its sentinel. */
    method Reserve(hash: nat) returns (sentinel: Node)
      requires Valid() && hash < LAST && (bitlen < MAX_BITLEN || elementCount <= Pow2(bitlen))
      modifies Repr
      ensures Valid() && fresh(Repr - old(Repr)) && elementCount <= Pow2(bitlen)
      ensures bitlen == old(bitlen) + (if old(elementCount > Pow2(bitlen)) then 1 else 0)
      ensures contents == old(contents) && elementCount == old(elementCount)
      ensures sentinel in nodes && sentinel.key.None? && sentinel.hash <= hash
      ensures var idx := Reverse(hash) % Pow2(bitlen);
              && sentinel == OwnSlot(idx) && (idx >= 2 ==> sentinel.hash == Reverse(idx)) && SlotsKept(idx)
    {
      hide Reverse, HashOf, Ordered, Maps, Links, Slots, OwnSlot, Serving, Ancestor;
      if elementCount > Pow2(bitlen) {
        Resize();
      }
      ghost var i;
      sentinel, i := EnsureSentinel(hash);
    }

    /** ht_store. Callers keep clear of the hashes of the two end sentinels; a duplicate leaves the old
        value and hands out its slot. Whether or not the key is new, its bucket has a sentinel of its own afterwards. */
    method Store(key: Key, value: int) returns (status: Status, slot: Node?)
      requires Valid() && (bitlen < MAX_BITLEN || elementCount <= Pow2(bitlen))
      requires HashOf(key) != 0 && HashOf(key) != LAST
      modifies Repr
      ensures Valid() && fresh(Repr - old(Repr))
      ensures status == if key == [] then BadArgs else if key in old(contents) then DuplicateKey else Good
      ensures contents == if status == Good then old(contents)[key := value] else old(contents)
      ensures elementCount == old(elementCount) + (if status == Good then 1 else 0)
      ensures status != BadArgs ==> slot != null && slot in nodes && slot.key == Some(key)
      ensures status != BadArgs ==> slot.value == contents[key]
      ensures bitlen == old(bitlen) + (if status != BadArgs && old(elementCount > Pow2(bitlen)) then 1 else 0)
      ensures var idx := Reverse(HashOf(key)) % Pow2(bitlen);
              && SlotsKept(idx)
              && (status != BadArgs ==> OwnSlot(idx) != null && (idx >= 2 ==> OwnSlot(idx).hash == Reverse(idx)))
    {
      hide Reverse, HashOf, Ordered, Maps, Links, Slots, Serving;
      if key == [] {
        return BadArgs, null;
      }
      var hash := Hash(key);
      var sentinel := Reserve(hash);
      var p, n, found, i := Locate(key, hash, sentinel);
      if found {
        return DuplicateKey, n;
      }
      slot := Add(key, hash, value, p, n, i);
      status := Good;
    }

    /** The tail of ht_store: the new node goes between p and n. */
    method Add(key: Key, hash: nat, value: int, p: Node, n: Node, ghost i: nat) returns (node: Node)
      requires Valid() && elementCount <= Pow2(bitlen) && key !in contents && hash == HashOf(key) > 0
      requires i + 1 < |nodes| && p == nodes[i] && n == nodes[i + 1] && p.hash <= hash < n.hash
      modifies Repr
      ensures Valid() && fresh(node) && Repr == old(Repr) + {node}
      ensures contents == old(contents)[key := value] && node.key == Some(key) && node.value == value
      ensures nodes == Insert(old(nodes), i + 1, node)
      ensures elementCount == old(elementCount) + 1 && bitlen == old(bitlen) && SlotsKept(0)
    {
      hide Reverse, HashOf, Ordered, Maps, Links, Slots;
      node := new Node(Some(key), hash, n, value);
      KeyGoesHere(node, i + 1);
      SlotsGrow(buckets, bitlen, NodeSet(nodes), NodeSet(nodes) + {node});
      Link(p, node, n, i + 1);
      elementCount := elementCount + 1;
    }

    lemma KeyGoesHere(node: Node, i: nat)
      requires Valid() && node.key.Some? && node.key.value !in contents && node !in Repr
      requires 0 < i < |nodes| && nodes[i - 1].hash <= node.hash < nodes[i].hash
      requires node.hash == HashOf(node.key.value) > 0
      ensures Ordered(Insert(nodes, i, node))
    {
      hide Segments, Slots, Links, HashOf;
      forall j | 0 <= j < |nodes|
        ensures nodes[j].key != node.key && nodes[j] != node
      {
        assert nodes[j].key.Some? ==> nodes[j].key.value in contents;
        assert nodes[j] in NodeSet(nodes);
      }
      KeyFits(nodes, i, node);
      InsertKeepsOrder(nodes, i, node);
    }

    /** ht_del: the node leaves the list and its value is handed out; element_count stays. */
    method Delete(key: Key) returns (status: Status, value: int, removed: Node?)
      requires Valid() && HashOf(key) != LAST
      modifies Repr
      ensures Valid() && Repr == old(Repr)
      ensures status == if key in old(contents) then Good else NotFound
      ensures contents == old(contents) - {key}
      ensures status == Good ==> value == old(contents)[key] && removed in old(nodes) && removed !in nodes
      ensures elementCount == old(elementCount) && bitlen == old(bitlen) && SlotsKept(0)
    {
      hide Reverse, HashOf, Ordered, Maps, Links, Slots;
      var hash := Hash(key);
      var sentinel := FindSentinel(hash);
      var p, n, found, i := Locate(key, hash, sentinel);
      if !found {
        return NotFound, 0, null;
      }
      value := n.value;
      Unlink(p, n, i + 1);
      return Good, value, n;
    }

    /** The successful compare-and-swap of ht_del. */
    method Unlink(p: Node, n: Node, ghost i: nat)
      requires Valid() && 0 < i < |nodes| && p == nodes[i - 1] && n == nodes[i] && n.key.Some?
      modifies p`next, this`nodes, this`contents
      ensures Valid() && nodes == Remove(old(nodes), i) && n !in nodes
      ensures contents == old(contents) - {n.key.value}
    {
      hide Reverse, HashOf, Ordered, Maps, Links, Slots;
      ghost var ms, m := Remove(nodes, i), contents - {n.key.value};
      KeyIsInside(nodes, i);
      MapsAfterRemove(nodes, contents, i);
      RemoveKeepsOrder(nodes, i);
      SentinelsStay(nodes, i);
      SlotsShrink(buckets, bitlen, NodeSet(nodes), NodeSet(ms));
      Unchain(p, n, i);
      nodes, contents := ms, m;
    }

    method Unchain(p: Node, n: Node, ghost i: nat)
      requires Ordered(nodes) && Links(nodes) && 0 < i < |nodes| - 1 && p == nodes[i - 1] && n == nodes[i]
      modifies p`next
      ensures Links(Remove(nodes, i))
    {
      hide HashOf;
      p.next := n.next;
      LinksAfterRemove(nodes, i);
    }
  }

  lemma KeyIsInside(ns: seq<Node>, i: nat)
    requires Ordered(ns) && i < |ns| && ns[i].key.Some?
    ensures 0 < i < |ns| - 1 && ns[i] !in Remove(ns, i)
  {
    hide HashOf;
    forall j | 0 <= j < |Remove(ns, i)|
      ensures Remove(ns, i)[j] != ns[i]
    {
      assert j < i ==> Before(ns[j], ns[i]);
      assert j >= i ==> Before(ns[i], ns[j + 1]);
    }
  }

  lemma SentinelsStay(ns: seq<Node>, i: nat)
    requires i < |ns| && ns[i].key.Some?
    ensures forall x | x in NodeSet(ns) && x.key.None? :: x in NodeSet(Remove(ns, i))
  {
    forall x | x in NodeSet(ns) && x.key.None?
      ensures x in Remove(ns, i)
    {
      var j :| 0 <= j < |ns| && ns[j] == x;
      assert Remove(ns, i)[if j < i then j else j - 1] == x;
    }
  }
}
