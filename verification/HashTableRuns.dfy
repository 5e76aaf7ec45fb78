/** Whole runs of the table against a plain map. */
module HashTableRuns {
  import opened Bytes
  import opened SplitOrder
  import opened HashTables

  datatype Op = DoStore(key: Key, v: int) | DoFind(key: Key) | DoDelete(key: Key)

  /** What the caller sees: the status and, on Good or DuplicateKey, the value behind the slot. */
  datatype Answer = Answer(status: Status, value: Option<int>)

  /** The plain map. */
  function After(m: map<Key, int>, op: Op): map<Key, int> {
    match op
    case DoStore(k, v) => if k == [] || k in m then m else m[k := v]
    case DoFind(k) => m
    case DoDelete(k) => m - {k}
  }

  function Reply(m: map<Key, int>, op: Op): Answer {
    match op
    case DoStore(k, v) =>
      if k == [] then Answer(BadArgs, None)
      else if k in m then Answer(DuplicateKey, Some(m[k]))
      else Answer(Good, Some(v))
    case DoFind(k) => if k in m then Answer(Good, Some(m[k])) else Answer(NotFound, None)
    case DoDelete(k) => if k in m then Answer(Good, Some(m[k])) else Answer(NotFound, None)
  }

  function MapAfter(ops: seq<Op>): map<Key, int> {
    if ops == [] then map[] else After(MapAfter(ops[..|ops| - 1]), ops[|ops| - 1])
  }

  function Replies(ops: seq<Op>): seq<Answer> {
    if ops == [] then []
    else Replies(ops[..|ops| - 1]) + [Reply(MapAfter(ops[..|ops| - 1]), ops[|ops| - 1])]
  }

  /** What a caller must keep clear of: ht_store asserts that the hash is not 0, and every operation
      runs off the end node on a key with its hash. */
  predicate OpOk(op: Op) { HashOf(op.key) != LAST && (op.DoStore? ==> HashOf(op.key) != 0) }

  /** Both exclusions are about keys that exist. */
  lemma ExcludedKeysExist()
    ensures HashOf([3, 9, 4, 19, 26, 22, 7]) == LAST && HashOf([3, 9, 4, 19, 26, 22, 8]) == 0
  {
    hide HashOf;
    SixthHash();
    HashSnoc([3, 9, 4, 19, 26, 22], 7, [3, 9, 4, 19, 26, 22, 7]);
    HashSnoc([3, 9, 4, 19, 26, 22], 8, [3, 9, 4, 19, 26, 22, 8]);
  }

  lemma SixthHash()
    ensures HashOf([3, 9, 4, 19, 26, 22]) == 260301048
  {
    hide HashOf;
    ThirdHash();
    HashSnoc([3, 9, 4], 19, [3, 9, 4, 19]);
    HashSnoc([3, 9, 4, 19], 26, [3, 9, 4, 19, 26]);
    HashSnoc([3, 9, 4, 19, 26], 22, [3, 9, 4, 19, 26, 22]);
  }

  lemma ThirdHash()
    ensures HashOf([3, 9, 4]) == 193380565
  {
    hide HashOf;
    HashOfNothing();
    HashSnoc([], 3, [3]);
    HashSnoc([3], 9, [3, 9]);
    HashSnoc([3, 9], 4, [3, 9, 4]);
  }

  lemma HashOfNothing()
    ensures HashOf([]) == 5381
  {
  }

  lemma HashSnoc(key: Key, c: Byte, longer: Key)
    requires longer == key + [c]
    ensures HashOf(longer) == (33 * HashOf(key) + c) % (LAST + 1)
  {
    assert longer[..|key|] == key;
  }

  method Perform(table: Table, op: Op) returns (answer: Answer)
    requires table.Valid() && table.bitlen < MAX_BITLEN && OpOk(op)
    modifies table.Repr
    ensures table.Valid() && fresh(table.Repr - old(table.Repr))
    ensures table.contents == After(old(table.contents), op) && answer == Reply(old(table.contents), op)
    ensures table.elementCount <= old(table.elementCount) + 1
  {
    hide HashOf, Pow2;
    var status, slot, value, removed;
    match op {
      case DoStore(k, v) =>
        status, slot := table.Store(k, v);
        if status == BadArgs {
          answer := Answer(status, None);
        } else {
          answer := Answer(status, Some(slot.value));
        }
      case DoFind(k) =>
        status, slot := table.Find(k);
        if status == Good {
          answer := Answer(status, Some(slot.value));
        } else {
          answer := Answer(status, None);
        }
      case DoDelete(k) =>
        status, value, removed := table.Delete(k);
        answer := Answer(status, if status == Good then Some(value) else None);
    }
  }

  /** Map refinement: any run of stores, finds and deletes on a fresh table, with the doublings that
      the stores bring, answers as the plain map does. 2^29 operations keep bitlen below 30. */
  method Replay(ops: seq<Op>) returns (answers: seq<Answer>)
    requires forall op | op in ops :: OpOk(op)
    requires |ops| <= 0x2000_0000
    ensures answers == Replies(ops)
  {
    hide HashOf, Pow2, LoadOk, Reply;
    var table := new Table();
    answers := [];
    for i := 0 to |ops|
      invariant table.Valid() && fresh(table.Repr)
      invariant table.contents == MapAfter(ops[..i]) && answers == Replies(ops[..i])
      invariant table.elementCount <= i
    {
      assert LoadOk(table.elementCount, table.bitlen);
      FewKeysFewLevels(table.elementCount, table.bitlen);
      assert ops[..i + 1][..i] == ops[..i];
      var answer := Perform(table, ops[i]);
      answers := answers + [answer];
    }
    assert ops[..|ops|] == ops;
  }

  lemma FewKeysFewLevels(count: nat, bitlen: nat)
    requires LoadOk(count, bitlen) && count < 0x2000_0000
    ensures bitlen < MAX_BITLEN
  {
    Pow2Word();
    assert Pow2(30) == 2 * Pow2(29);
    if bitlen >= MAX_BITLEN {
      Pow2Monotone(29, bitlen - 1);
    }
  }
}
