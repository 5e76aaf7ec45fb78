/** Concurrent growth of the bucket directory (ht_resize) beside lookups of sentinels (ht_get_sentinel):
    any number of threads, one load, store or compare-and-swap per step. */
module ConcurrentResize {
  import opened SplitOrder
  import opened HashTables

  /** What a load of a directory slot yields; Garbage stands for memory never written, for a missing
      segment and for an offset past the end of one. */
  datatype Slot = Garbage | Null | Sentinel(index: nat)

  datatype Pc =
    // ht_resize
    | ReadInternal
    | Claim(level: nat, segment: seq<Slot>)     // compare-and-swap on bitlen_internal
    | Clear(level: nat, segment: seq<Slot>)     // memset
    | Publish(level: nat, segment: seq<Slot>)   // buckets[level - 1] = new_buckets
    | Raise(level: nat)                        // compare-and-swap on bitlen, repeated until it succeeds
    | Finished(level: nat)
    // ht_get_sentinel; `bits` is the bitlen that was loaded
    | ReadBitlen(hash: nat, create: bool)
    | Home(hash: nat, create: bool, bits: nat, idx: nat, again: bool)   // the bucket's own slot, read twice
    | Climb(hash: nat, create: bool, bits: nat, idx: nat, x: nat)
    | Install(hash: nat, bits: nat, idx: nat)
    | Found(hash: nat, create: bool, bits: nat, slot: Slot)   // `create` and `bits` are history

  /** `claims` is a history variable: claims[i] is the thread that claimed level i + 2. */
  datatype State = State(
    bitlen: nat, internal: nat, dir: seq<seq<Slot>>, threads: seq<Pc>, claims: seq<nat>, fault: bool)

  datatype Step = StartResize | StartLookup(hash: nat, create: bool) | Act(t: nat)

  function Init(): State {
    State(1, 1, [[Sentinel(0), Sentinel(1)]] + seq(DIRECTORY - 1, _ => []), [], [], false)
  }

  /** An empty entry of the directory is a NULL pointer. */
  function Load(s: State, b: nat, o: nat): Slot {
    if b < |s.dir| && o < |s.dir[b]| then s.dir[b][o] else Garbage
  }

  /** Segment and offset of an index (ht_find_msb). */
  function SegmentOf(x: nat): nat { TopBit(x) }

  function OffsetOf(x: nat): (o: nat)
    ensures o <= x && (x > 0 ==> o < x)
  {
    if x == 0 then 0 else x - Pow2(TopBit(x))
  }

  function Goto(s: State, t: nat, pc: Pc): State
    requires t < |s.threads|
  {
    s.(threads := s.threads[t := pc])
  }

  function Look(s: State, t: nat, slot: Slot, found: Pc, missing: Pc): State
    requires t < |s.threads|
  {
    match slot
    case Garbage => s.(fault := true)
    case Null => Goto(s, t, missing)
    case Sentinel(_) => Goto(s, t, found)
  }

  function ThreadStep(s: State, t: nat): State
    requires t < |s.threads|
  {
    match s.threads[t]
    case ReadInternal =>
      if s.internal < MAX_BITLEN
      then Goto(s, t, Claim(s.internal + 1, seq(Pow2(s.internal), _ => Garbage)))
      else s
    case Claim(level, segment) =>
      if s.internal == level - 1
      then Goto(s.(internal := level, claims := s.claims + [t]), t, Clear(level, segment))
      else Goto(s, t, ReadInternal)
    case Clear(level, segment) => Goto(s, t, Publish(level, seq(|segment|, _ => Null)))
    case Publish(level, segment) =>
      if 1 <= level <= |s.dir|
      then Goto(s.(dir := s.dir[level - 1 := segment]), t, Raise(level))
      else s.(fault := true)
    case Raise(level) =>
      if s.bitlen == level - 1 then Goto(s.(bitlen := level), t, Finished(level)) else s
    case Finished(_) => s
    case ReadBitlen(hash, create) => Goto(s, t, Home(hash, create, s.bitlen, Reverse(hash) % Pow2(s.bitlen), false))
    case Home(hash, create, bits, idx, again) =>
      var slot := Load(s, SegmentOf(idx), OffsetOf(idx));
      Look(s, t, slot, Found(hash, create, bits, slot),
           if again then Climb(hash, create, bits, idx, OffsetOf(idx)) else Home(hash, create, bits, idx, true))
    case Climb(hash, create, bits, idx, x) =>
      var b := if create && x < 2 then 0 else SegmentOf(x);
      var o := if create && x < 2 then x else OffsetOf(x);
      var slot := Load(s, b, o);
      Look(s, t, slot, if create then Install(hash, bits, idx) else Found(hash, create, bits, slot),
           Climb(hash, create, bits, idx, o))
    case Install(hash, bits, idx) =>
      var b, o := SegmentOf(idx), OffsetOf(idx);
      var slot := Load(s, b, o);
      (match slot
      case Garbage => s.(fault := true)
      case Null =>
        Goto(s.(dir := s.dir[b := s.dir[b][o := Sentinel(idx)]]), t, Found(hash, true, bits, Sentinel(idx)))
      case Sentinel(_) => Goto(s, t, Found(hash, true, bits, slot)))
    case Found(_, _, _, _) => s
  }

  function Apply(s: State, step: Step): State {
    match step
    case StartResize => s.(threads := s.threads + [ReadInternal])
    case StartLookup(hash, create) =>
      if hash <= LAST then s.(threads := s.threads + [ReadBitlen(hash, create)]) else s
    case Act(t) => if t < |s.threads| then ThreadStep(s, t) else s
  }

  function Run(steps: seq<Step>): State {
    if steps == [] then Init() else Apply(Run(steps[..|steps| - 1]), steps[|steps| - 1])
  }

  // ---------- the invariant ----------

  /** The level a thread has claimed. */
  predicate HasLevel(pc: Pc, level: nat) {
    match pc
    case Clear(l, _) => l == level
    case Publish(l, _) => l == level
    case Raise(l) => l == level
    case Finished(l) => l == level
    case _ => false
  }

  predicate Owns(s: State, t: nat, level: nat) {
    2 <= level <= s.internal == |s.claims| + 1 && s.claims[level - 2] == t
  }

  predicate Published(s: State, b: nat) {
    b == 0 ||
    (1 <= b < s.internal == |s.claims| + 1 && s.claims[b - 1] < |s.threads|
     && (s.threads[s.claims[b - 1]].Raise? || s.threads[s.claims[b - 1]].Finished?))
  }

  /** A published segment has its size, and each slot is empty or holds its own sentinel. */
  predicate SegmentOk(segment: seq<Slot>, b: nat) {
    && |segment| == SegmentSize(b)
    && (forall o | 0 <= o < |segment| :: segment[o] == Sentinel(IndexOf(b, o)) || (segment[o] == Null && b > 0))
  }

  predicate DirOk(s: State) {
    && |s.dir| == DIRECTORY
    && (forall b | 0 <= b < DIRECTORY :: if Published(s, b) then SegmentOk(s.dir[b], b) else s.dir[b] == [])
  }

  predicate ClaimsOk(s: State) {
    && 1 <= s.bitlen <= s.internal <= MAX_BITLEN && |s.claims| == s.internal - 1
    && (forall i | 0 <= i < |s.claims| ::
          && s.claims[i] < |s.threads| && HasLevel(s.threads[s.claims[i]], i + 2)
          && (s.threads[s.claims[i]].Finished? <==> i + 2 <= s.bitlen))
  }

  predicate HomeOk(s: State, hash: nat, bits: nat, idx: nat) {
    hash <= LAST && 1 <= bits <= s.bitlen && idx == Reverse(hash) % Pow2(bits)
  }

  /** What the slot of an index holds. */
  function SlotAt(s: State, x: nat): Slot { Load(s, SegmentOf(x), OffsetOf(x)) }

  /** The answer of a lookup; of one that creates it is in the bucket's own slot. */
  predicate FoundOk(s: State, hash: nat, create: bool, bits: nat, slot: Slot) {
    && slot.Sentinel? && Reverse(slot.index) <= hash <= LAST && 1 <= bits <= s.bitlen
    && (create ==> SlotAt(s, Reverse(hash) % Pow2(bits)) == slot)
  }

  predicate ThreadOk(s: State, t: nat)
    requires t < |s.threads|
  {
    match s.threads[t]
    case ReadInternal => true
    case Claim(level, segment) => 2 <= level <= MAX_BITLEN && |segment| == Pow2(level - 1)
    case Clear(level, segment) => Owns(s, t, level) && |segment| == Pow2(level - 1)
    case Publish(level, segment) =>
      Owns(s, t, level) && |segment| == Pow2(level - 1) && forall o | 0 <= o < |segment| :: segment[o] == Null
    case Raise(level) => Owns(s, t, level)
    case Finished(level) => Owns(s, t, level)
    case ReadBitlen(hash, _) => hash <= LAST
    case Home(hash, _, bits, idx, _) => HomeOk(s, hash, bits, idx)
    case Climb(hash, _, bits, idx, x) => HomeOk(s, hash, bits, idx) && x < Pow2(bits) && Reverse(x) <= hash
    case Install(hash, bits, idx) => HomeOk(s, hash, bits, idx)
    case Found(hash, create, bits, slot) => FoundOk(s, hash, create, bits, slot)
  }

  predicate Inv(s: State) {
    && ClaimsOk(s) && DirOk(s) && !s.fault
    && (forall t | 0 <= t < |s.threads| :: ThreadOk(s, t))
  }

  // ---------- its preservation ----------

  /** A step takes no sentinel out of its slot. */
  ghost predicate SlotsKept(s: State, r: State) {
    s.bitlen <= r.bitlen && forall b: nat, o: nat | Load(s, b, o).Sentinel? :: Load(r, b, o) == Load(s, b, o)
  }

  lemma FoundStaysOk(s: State, r: State, u: nat)
    requires SlotsKept(s, r) && u < |s.threads| && u < |r.threads| && r.threads[u] == s.threads[u] && ThreadOk(s, u)
    ensures r.threads[u].Found? ==> ThreadOk(r, u)
  {
    hide Reverse, Pow2, Load;
  }

  lemma PublishKeepsSlots(s: State, t: nat)
    requires Inv(s) && t < |s.threads| && s.threads[t].Publish?
    ensures SlotsKept(s, ThreadStep(s, t))
  {
    hide Reverse, Pow2, SegmentOk;
    assert ThreadOk(s, t) && !Published(s, s.threads[t].level - 1);
  }

  lemma StepKeepsSlots(s: State, step: Step)
    requires Inv(s)
    ensures SlotsKept(s, Apply(s, step))
  {
    hide Reverse, Pow2, SegmentOk, DirOk, ClaimsOk;
    if step.Act? && step.t < |s.threads| {
      assert ThreadOk(s, step.t);
      if s.threads[step.t].Publish? { PublishKeepsSlots(s, step.t); }
    }
  }

  /** A thread that stays outside the four stages of a claimed level leaves claims and directory alone. */
  lemma MoveKeepsInv(s: State, t: nat, pc: Pc)
    requires Inv(s) && t < |s.threads| && ThreadOk(Goto(s, t, pc), t)
    requires forall level: nat :: !HasLevel(s.threads[t], level)
    ensures Inv(Goto(s, t, pc))
  {
    hide Reverse, SegmentOk;
    var s' := Goto(s, t, pc);
    assert forall i | 0 <= i < |s.claims| :: s.claims[i] != t;
    assert forall b | 0 <= b < DIRECTORY :: Published(s', b) == Published(s, b);
    forall u | 0 <= u < |s'.threads|
      ensures ThreadOk(s', u)
    {
      if u != t {
        assert ThreadOk(s, u);
        FoundStaysOk(s, s', u);
      }
    }
  }

  lemma ClaimKeepsInv(s: State, t: nat)
    requires Inv(s) && t < |s.threads| && s.threads[t].Claim? && s.internal == s.threads[t].level - 1
    ensures Inv(ThreadStep(s, t))
  {
    hide Reverse, SegmentOk;
    var s' := ThreadStep(s, t);
    assert ThreadOk(s, t);
    assert forall i | 0 <= i < |s.claims| :: s.claims[i] != t && s'.claims[i] == s.claims[i];
    forall b | 0 <= b < DIRECTORY
      ensures Published(s', b) == Published(s, b)
    {
    }
    StepKeepsSlots(s, Act(t));
    forall u | 0 <= u < |s'.threads|
      ensures ThreadOk(s', u)
    {
      if u != t {
        assert ThreadOk(s, u);
        FoundStaysOk(s, s', u);
      }
    }
  }

  lemma ClearedSegmentIsOk(segment: seq<Slot>, b: nat)
    requires b > 0 && |segment| == Pow2(b) && forall o | 0 <= o < |segment| :: segment[o] == Null
    ensures SegmentOk(segment, b)
  {
  }

  /** Clearing, publishing and raising concern the thread's own level only. */
  lemma StageKeepsInv(s: State, t: nat)
    requires Inv(s) && t < |s.threads| && (s.threads[t].Clear? || s.threads[t].Publish? || s.threads[t].Raise?)
    ensures Inv(ThreadStep(s, t))
  {
    hide Reverse, SegmentOk, Pow2;
    var s', level := ThreadStep(s, t), s.threads[t].level;
    assert ThreadOk(s, t);
    if s.threads[t].Publish? { ClearedSegmentIsOk(s.threads[t].segment, level - 1); }
    assert forall i | 0 <= i < |s.claims| && i != level - 2 :: s.claims[i] != t;
    forall b | 0 <= b < DIRECTORY
      ensures if Published(s', b) then SegmentOk(s'.dir[b], b) else s'.dir[b] == []
    {
      assert b != level - 1 ==> Published(s', b) == Published(s, b);
    }
    StepKeepsSlots(s, Act(t));
    forall u | 0 <= u < |s'.threads|
      ensures ThreadOk(s', u)
    {
      if u != t {
        assert ThreadOk(s, u);
        FoundStaysOk(s, s', u);
      }
    }
  }

  /** Where a lookup reads: a segment below the bitlen it loaded. */
  lemma PlaceExists(s: State, bits: nat, x: nat)
    requires ClaimsOk(s) && DirOk(s) && 1 <= bits <= s.bitlen && x < Pow2(bits)
    ensures var b, o := SegmentOf(x), OffsetOf(x); var slot := Load(s, b, o);
            && b < bits && b < DIRECTORY && b < |s.dir| && o < |s.dir[b]| && o < Pow2(bits)
            && !slot.Garbage? && (b == 0 ==> !slot.Null?)
            && (b > 0 ==> IndexOf(b, o) == x)
            && (slot.Sentinel? ==> slot == Sentinel(IndexOf(b, o)) && Reverse(slot.index) <= Reverse(x))
            && Reverse(o) <= Reverse(x)
  {
    hide Reverse;
    var b, o := SegmentOf(x), OffsetOf(x);
    if b >= bits { Pow2Monotone(bits, b); }
    ParentSegment(bits, x, if x == 0 then 0 else Pow2(b), b);
    assert b > 0 ==> s.claims[b - 1] < |s.threads|;
    assert Published(s, b);
  }

  lemma LowSlots(s: State, x: nat)
    requires ClaimsOk(s) && DirOk(s) && x < 2
    ensures Load(s, 0, x) == Sentinel(x)
  {
    hide Reverse;
    assert Published(s, 0);
  }

  lemma HomePlace(s: State, hash: nat, bits: nat, idx: nat)
    requires ClaimsOk(s) && HomeOk(s, hash, bits, idx)
    ensures idx < Pow2(bits) && Reverse(idx) <= hash
  {
    SentinelBeforeKey(hash, bits);
  }

  lemma LookupKeepsInv(s: State, t: nat)
    requires Inv(s) && t < |s.threads| && (s.threads[t].ReadBitlen? || s.threads[t].Home? || s.threads[t].Climb?)
    ensures Inv(ThreadStep(s, t))
  {
    hide Reverse, DirOk, Pow2;
    assert ThreadOk(s, t);
    match s.threads[t]
    case ReadBitlen(hash, create) =>
      MoveKeepsInv(s, t, ThreadStep(s, t).threads[t]);
    case Home(hash, create, bits, idx, _) =>
      HomePlace(s, hash, bits, idx);
      PlaceExists(s, bits, idx);
      MoveKeepsInv(s, t, ThreadStep(s, t).threads[t]);
    case Climb(hash, create, bits, idx, x) =>
      if create && x < 2 {
        LowSlots(s, x);
      } else {
        PlaceExists(s, bits, x);
      }
      MoveKeepsInv(s, t, ThreadStep(s, t).threads[t]);
  }

  lemma InstallKeepsInv(s: State, t: nat)
    requires Inv(s) && t < |s.threads| && s.threads[t].Install?
    ensures Inv(ThreadStep(s, t))
  {
    hide Reverse, Pow2;
    assert ThreadOk(s, t);
    var hash, bits, idx := s.threads[t].hash, s.threads[t].bits, s.threads[t].idx;
    var b, o := SegmentOf(idx), OffsetOf(idx);
    HomePlace(s, hash, bits, idx);
    PlaceExists(s, bits, idx);
    var r := if Load(s, b, o).Null? then s.(dir := s.dir[b := s.dir[b][o := Sentinel(idx)]]) else s;
    assert Inv(r) by {
      forall u | 0 <= u < |r.threads|
        ensures ThreadOk(r, u)
      {
        assert ThreadOk(s, u);
        FoundStaysOk(s, r, u);
      }
      assert forall i | 0 <= i < DIRECTORY :: Published(r, i) == Published(s, i);
    }
    MoveKeepsInv(r, t, ThreadStep(s, t).threads[t]);
  }

  lemma StepKeepsInv(s: State, step: Step)
    requires Inv(s)
    ensures Inv(Apply(s, step))
  {
    hide Reverse, Pow2, ClaimsOk, DirOk, HomeOk;
    var s' := Apply(s, step);
    match step
    case Act(t) =>
      if t < |s.threads| {
        match s.threads[t]
        case ReadInternal =>
          if s.internal < MAX_BITLEN {
            StartIsOk(s, t);
            MoveKeepsInv(s, t, s'.threads[t]);
          }
        case Claim(level, segment) =>
          if s.internal == level - 1 { ClaimKeepsInv(s, t); } else { MoveKeepsInv(s, t, ReadInternal); }
        case Clear(_, _) => StageKeepsInv(s, t);
        case Publish(_, _) => StageKeepsInv(s, t);
        case Raise(_) => StageKeepsInv(s, t);
        case Finished(_) =>
        case Install(_, _, _) => InstallKeepsInv(s, t);
        case Found(_, _, _, _) =>
        case _ => LookupKeepsInv(s, t);
      }
    case _ => StartKeepsInv(s, step);
  }

  lemma StartIsOk(s: State, t: nat)
    requires Inv(s) && t < |s.threads| && s.threads[t].ReadInternal? && s.internal < MAX_BITLEN
    ensures ThreadOk(ThreadStep(s, t), t)
  {
  }

  lemma StartKeepsInv(s: State, step: Step)
    requires Inv(s) && !step.Act?
    ensures Inv(Apply(s, step))
  {
    hide Reverse, SegmentOk;
    var s' := Apply(s, step);
    forall u | 0 <= u < |s'.threads|
      ensures ThreadOk(s', u)
    {
      if u < |s.threads| {
        assert ThreadOk(s, u);
        FoundStaysOk(s, s', u);
      }
    }
    assert forall b | 0 <= b < DIRECTORY :: Published(s', b) == Published(s, b);
  }

  lemma {:induction false} Invariant(steps: seq<Step>)
    ensures Inv(Run(steps))
  {
    if steps == [] {
      InitOk();
    } else {
      Invariant(steps[..|steps| - 1]);
      StepKeepsInv(Run(steps[..|steps| - 1]), steps[|steps| - 1]);
    }
  }

  lemma InitOk()
    ensures Inv(Init())
  {
    hide Reverse;
    var s := Init();
    forall b | 0 <= b < DIRECTORY
      ensures if Published(s, b) then SegmentOk(s.dir[b], b) else s.dir[b] == []
    {
    }
  }

  // ---------- what growing threads and readers may rely on ----------

  /** No thread ever reads a missing segment, past the end of one, or memory nobody cleared. Every level
      up to bitlen has a published segment of its size, and bitlen never runs ahead of bitlen_internal. */
  lemma NoReaderMissesASegment(steps: seq<Step>)
    ensures var s := Run(steps);
            && !s.fault && 1 <= s.bitlen <= s.internal && |s.dir| == DIRECTORY
            && forall b: nat, o: nat | b < s.bitlen && o < SegmentSize(b) ::
                 b < DIRECTORY && o < |s.dir[b]| == SegmentSize(b)
                     && (s.dir[b][o] == Null || s.dir[b][o] == Sentinel(IndexOf(b, o)))
  {
    hide Reverse, Pow2;
    Invariant(steps);
    var s := Run(steps);
    forall b: nat, o: nat | b < s.bitlen && o < SegmentSize(b)
      ensures b < DIRECTORY && o < |s.dir[b]| == SegmentSize(b)
          && (s.dir[b][o] == Null || s.dir[b][o] == Sentinel(IndexOf(b, o)))
    {
      assert b > 0 ==> HasLevel(s.threads[s.claims[b - 1]], b + 1);
      assert Published(s, b);
    }
  }

  /** A level is claimed by exactly one thread, and the levels claimed are 2 up to bitlen_internal. */
  lemma OneClaimPerLevel(steps: seq<Step>, level: nat)
    ensures var s := Run(steps);
            && (forall t: nat, u: nat | t < |s.threads| && u < |s.threads| && HasLevel(s.threads[t], level)
                && HasLevel(s.threads[u], level) :: t == u)
            && ((exists t: nat :: t < |s.threads| && HasLevel(s.threads[t], level)) <==> 2 <= level <= s.internal)
  {
    hide Reverse, Pow2, DirOk;
    Invariant(steps);
    var s := Run(steps);
    forall t: nat | t < |s.threads| && HasLevel(s.threads[t], level)
      ensures Owns(s, t, level)
    {
      assert ThreadOk(s, t);
    }
    if 2 <= level <= s.internal {
      assert HasLevel(s.threads[s.claims[level - 2]], level);
    }
  }

  /** Every lookup that ends, however it overlaps with growth, ends at a sentinel whose hash is not
      above the one looked up; one that creates leaves it in the bucket's own slot. */
  lemma LookupsEndAtSentinels(steps: seq<Step>, t: nat)
    requires var s := Run(steps); t < |s.threads| && s.threads[t].Found?
    ensures var s := Run(steps); var pc := s.threads[t];
            && pc.slot.Sentinel? && Reverse(pc.slot.index) <= pc.hash
            && (pc.create ==> SlotAt(s, Reverse(pc.hash) % Pow2(pc.bits)) == pc.slot)
  {
    hide Reverse, Pow2, DirOk, ClaimsOk;
    Invariant(steps);
    assert ThreadOk(Run(steps), t);
  }

  function StagesLeft(pc: Pc): nat {
    match pc
    case Clear(_, _) => 3
    case Publish(_, _) => 2
    case Raise(_) => 1
    case _ => 0
  }

  lemma NextLevelIsOwned(s: State)
    requires Inv(s) && s.bitlen < s.internal
    ensures 1 <= s.bitlen && |s.claims| == s.internal - 1
    ensures var t := s.claims[s.bitlen - 1];
            t < |s.threads| && HasLevel(s.threads[t], s.bitlen + 1) && 1 <= StagesLeft(s.threads[t]) <= 3
  {
    hide Reverse, Pow2, DirOk;
    assert HasLevel(s.threads[s.claims[s.bitlen - 1]], s.bitlen + 1);
    assert ThreadOk(s, s.claims[s.bitlen - 1]);
  }

  lemma OthersStay(s: State, step: Step, t: nat)
    requires t < |s.threads| && step != Act(t)
    ensures t < |Apply(s, step).threads| && Apply(s, step).threads[t] == s.threads[t]
  {
    hide Reverse, Pow2, TopBit;
    match step
    case Act(u) => if u < |s.threads| { OnlyMoves(s, u, t); }
    case _ =>
  }

  lemma OnlyMoves(s: State, u: nat, t: nat)
    requires t < |s.threads| && u < |s.threads| && u != t
    ensures t < |ThreadStep(s, u).threads| && ThreadStep(s, u).threads[t] == s.threads[t]
  {
    hide Reverse, Pow2, TopBit, Load;
  }

  lemma OwnStage(s: State, t: nat)
    requires Inv(s) && s.bitlen < s.internal && |s.claims| == s.internal - 1 && s.claims[s.bitlen - 1] == t
    requires t < |s.threads|
    ensures var r := ThreadStep(s, t);
            && r.internal == s.internal && r.claims == s.claims && t < |r.threads|
            && r.bitlen == s.bitlen + (if StagesLeft(s.threads[t]) == 1 then 1 else 0)
            && StagesLeft(r.threads[t]) == StagesLeft(s.threads[t]) - 1
  {
    assert |s.dir| == DIRECTORY;
    NextLevelIsOwned(s);
    assert ThreadOk(s, t);
    hide Reverse, Pow2, DirOk, ClaimsOk, TopBit, Load;
  }

  lemma RaisesItsOwn(s: State, u: nat)
    requires Inv(s) && s.bitlen < s.internal && |s.claims| == s.internal - 1 && u < |s.threads|
    requires s.claims[s.bitlen - 1] != u
    ensures s.threads[u].Raise? ==> s.bitlen != s.threads[u].level - 1
  {
    hide Reverse, Pow2, DirOk;
    assert ThreadOk(s, u);
  }

  lemma LookLeaves(s: State, t: nat, slot: Slot, found: Pc, missing: Pc)
    requires t < |s.threads|
    ensures var r := Look(s, t, slot, found, missing);
            r.bitlen == s.bitlen && r.internal == s.internal && r.claims == s.claims
  {
  }

  lemma OthersStage(s: State, u: nat)
    requires Inv(s) && s.bitlen < s.internal && |s.claims| == s.internal - 1 && u < |s.threads|
    requires s.claims[s.bitlen - 1] != u
    ensures var r := ThreadStep(s, u);
            r.bitlen == s.bitlen && r.internal >= s.internal && s.claims <= r.claims
  {
    RaisesItsOwn(s, u);
    hide Reverse, Pow2, Inv, TopBit, Load, Look;
    match s.threads[u]
    case Home(hash, create, bits, idx, again) =>
      var slot := Load(s, SegmentOf(idx), OffsetOf(idx));
      LookLeaves(s, u, slot, Found(hash, create, bits, slot),
                 if again then Climb(hash, create, bits, idx, OffsetOf(idx)) else Home(hash, create, bits, idx, true));
    case Climb(hash, create, bits, idx, x) =>
      var b := if create && x < 2 then 0 else SegmentOf(x);
      var o := if create && x < 2 then x else OffsetOf(x);
      var slot := Load(s, b, o);
      LookLeaves(s, u, slot, if create then Install(hash, bits, idx) else Found(hash, create, bits, slot),
                 Climb(hash, create, bits, idx, o));
    case _ =>
  }

  /** A step of the owner of the next level completes a stage, and the last stage raises bitlen; a step
      of anyone else changes neither. */
  lemma StageDone(s: State, step: Step)
    requires Inv(s) && s.bitlen < s.internal && |s.claims| == s.internal - 1
    requires s.claims[s.bitlen - 1] < |s.threads|
    ensures var t, s' := s.claims[s.bitlen - 1], Apply(s, step); var left := StagesLeft(s.threads[t]);
            if step == Act(t) && left == 1 then s'.bitlen == s.bitlen + 1
            else && s'.bitlen == s.bitlen && s'.internal >= s.internal
                 && |s'.claims| >= |s.claims| && s'.claims[s.bitlen - 1] == t
                 && t < |s'.threads| && StagesLeft(s'.threads[t]) == left - (if step == Act(t) then 1 else 0)
  {
    NextLevelIsOwned(s);
    var t := s.claims[s.bitlen - 1];
    if step == Act(t) {
      OwnStage(s, t);
    } else {
      OthersStay(s, step, t);
      if step.Act? && step.t < |s.threads| { OthersStage(s, step.t); }
    }
    hide Inv, ThreadStep, StagesLeft;
  }

  function Turns(steps: seq<Step>, t: nat): nat {
    if steps == [] then 0 else Turns(steps[..|steps| - 1], t) + (if steps[|steps| - 1] == Act(t) then 1 else 0)
  }

  lemma BitlenGrows(s: State, step: Step)
    requires Inv(s)
    ensures s.bitlen <= Apply(s, step).bitlen
  {
    hide Reverse, Pow2, DirOk, ClaimsOk;
  }

  /** No thread spins for ever: while bitlen lags behind bitlen_internal, the thread that claimed the
      next level raises bitlen in its own next three steps at most, whatever the others do meanwhile. */
  lemma {:induction false} NextLevelArrives(steps: seq<Step>, more: seq<Step>)
    requires Run(steps).bitlen < Run(steps).internal
    ensures var s, s' := Run(steps), Run(steps + more);
            && 1 <= s.bitlen && |s.claims| == s.internal - 1 && s.claims[s.bitlen - 1] < |s.threads|
            && (Turns(more, s.claims[s.bitlen - 1]) >= 3 ==> s'.bitlen > s.bitlen)
            && (s'.bitlen > s.bitlen || (s'.bitlen == s.bitlen < s'.internal && |s'.claims| == s'.internal - 1
                && var t := s.claims[s.bitlen - 1];
                   t == s'.claims[s.bitlen - 1] && t < |s'.threads|
                   && StagesLeft(s'.threads[t]) + Turns(more, t) == StagesLeft(s.threads[t]) <= 3))
  {
    hide Reverse, Pow2, DirOk, ClaimsOk, ThreadOk, ThreadStep, Run;
    var s := Run(steps);
    Invariant(steps);
    NextLevelIsOwned(s);
    if more == [] {
      assert steps + more == steps;
    } else {
      var n := |more| - 1;
      var r := Run(steps + more[..n]);
      NextLevelArrives(steps, more[..n]);
      RunExtends(steps, more);
      Invariant(steps + more[..n]);
      BitlenGrows(r, more[n]);
      Invariant(steps + more);
      if r.bitlen == s.bitlen {
        StageDone(r, more[n]);
        if Run(steps + more).bitlen == s.bitlen { NextLevelIsOwned(Run(steps + more)); }
      }
    }
  }

  lemma RunExtends(steps: seq<Step>, more: seq<Step>)
    requires |more| > 0
    ensures Run(steps + more) == Apply(Run(steps + more[..|more| - 1]), more[|more| - 1])
  {
    hide Apply;
    assert (steps + more)[..|steps + more| - 1] == steps + more[..|more| - 1];
  }

  /** Growth moves nothing: a sentinel, once in its slot, is found there ever after. */
  lemma {:induction false} SentinelsStay(steps: seq<Step>, more: seq<Step>, b: nat, o: nat)
    requires Load(Run(steps), b, o).Sentinel?
    ensures Load(Run(steps + more), b, o) == Load(Run(steps), b, o)
  {
    hide Run, Apply, Inv;
    if more == [] {
      assert steps + more == steps;
    } else {
      var n := |more| - 1;
      SentinelsStay(steps, more[..n], b, o);
      RunExtends(steps, more);
      Invariant(steps + more[..n]);
      StepKeepsSlots(Run(steps + more[..n]), more[n]);
    }
  }

  // ---------- growth happens ----------

  /** Two steps in a row claim the next level. */
  lemma TwoStepsClaim(steps: seq<Step>, t: nat)
    requires var s := Run(steps); s.internal < MAX_BITLEN && t < |s.threads| && s.threads[t] == ReadInternal
    ensures var s, r := Run(steps), Run(steps + [Act(t), Act(t)]);
            && r.internal == s.internal + 1 && r.bitlen == s.bitlen && t < |r.threads|
            && HasLevel(r.threads[t], s.internal + 1) && r.claims == s.claims + [t]
  {
    RunTwo(steps, Act(t), Act(t));
    hide Reverse, Pow2, Run;
    var s := Run(steps);
    var s1 := Goto(s, t, Claim(s.internal + 1, seq(Pow2(s.internal), _ => Garbage)));
    assert Apply(s, Act(t)) == s1;
  }

  /** A resize that has no level yet, whether it is about to begin or has found that another thread was faster, claims
      the next level within three steps in which nobody disturbs it. */
  lemma ResizeClaims(steps: seq<Step>, t: nat) returns (more: seq<Step>)
    requires var s := Run(steps);
             s.internal < MAX_BITLEN && t < |s.threads| && (s.threads[t].ReadInternal? || s.threads[t].Claim?)
    ensures |more| <= 3 && forall step | step in more :: step == Act(t)
    ensures var s, r := Run(steps), Run(steps + more);
            && r.internal == s.internal + 1 && r.bitlen == s.bitlen && t < |r.threads|
            && HasLevel(r.threads[t], s.internal + 1) && r.claims == s.claims + [t]
  {
    var s := Run(steps);
    RunOne(steps, Act(t));
    hide Reverse, Pow2, Run;
    if s.threads[t].ReadInternal? {
      more := [Act(t), Act(t)];
      TwoStepsClaim(steps, t);
    } else if s.threads[t].level == s.internal + 1 {
      more := [Act(t)];
    } else {
      TwoStepsClaim(steps + [Act(t)], t);
      more := [Act(t), Act(t), Act(t)];
      assert steps + more == steps + [Act(t)] + [Act(t), Act(t)];
    }
  }

  lemma RunTwo(steps: seq<Step>, a: Step, b: Step)
    ensures Run(steps + [a, b]) == Apply(Apply(Run(steps), a), b)
  {
    hide Apply;
    assert (steps + [a, b])[..|steps| + 1] == steps + [a] && (steps + [a])[..|steps|] == steps;
  }

  /** The steps of the owner of the next level, three at most, that raise bitlen. */
  lemma {:induction false} OwnerRaises(steps: seq<Step>, n: nat) returns (more: seq<Step>)
    requires var s := Run(steps); 1 <= s.bitlen < s.internal && |s.claims| == s.internal - 1
    requires var s := Run(steps); var t := s.claims[s.bitlen - 1]; t < |s.threads| && StagesLeft(s.threads[t]) == n
    ensures |more| == n && Run(steps + more).bitlen == Run(steps).bitlen + 1
    ensures Run(steps + more).claims == Run(steps).claims && Run(steps + more).internal == Run(steps).internal
    decreases n
  {
    hide Reverse, Pow2, DirOk, ClaimsOk, ThreadOk, ThreadStep, Run;
    var s := Run(steps);
    Invariant(steps);
    NextLevelIsOwned(s);
    var step := Act(s.claims[s.bitlen - 1]);
    StageDone(s, step);
    StageClaimsNothing(s, step.t);
    RunOne(steps, step);
    if n == 1 {
      more := [step];
    } else {
      var rest := OwnerRaises(steps + [step], n - 1);
      more := [step] + rest;
      assert steps + more == steps + [step] + rest;
    }
  }

  lemma RunOne(steps: seq<Step>, a: Step)
    ensures Run(steps + [a]) == Apply(Run(steps), a)
  {
    hide Apply;
    assert (steps + [a])[..|steps|] == steps;
  }

  lemma StageClaimsNothing(s: State, t: nat)
    requires Inv(s) && t < |s.threads| && StagesLeft(s.threads[t]) > 0
    ensures var r := Apply(s, Act(t)); r.claims == s.claims && r.internal == s.internal
  {
    hide Reverse, Pow2, DirOk, ClaimsOk;
  }

  /** Who has claimed a level can always come to its end: steps of the owners of this level and the ones below, three
      each at most, bring bitlen there. */
  lemma {:induction false} ClaimedLevelArrives(steps: seq<Step>, t: nat, level: nat) returns (more: seq<Step>)
    requires var s := Run(steps); t < |s.threads| && HasLevel(s.threads[t], level)
    ensures var s, r := Run(steps), Run(steps + more);
            && t < |r.threads| && r.threads[t] == Finished(level) && r.bitlen >= level
            && (level >= s.bitlen ==> |more| <= 3 * (level - s.bitlen))
    decreases level - Run(steps).bitlen
  {
    hide Reverse, Pow2, DirOk, ThreadStep, Run;
    var s := Run(steps);
    Invariant(steps);
    OwnersLevel(s, t, level);
    if level <= s.bitlen {
      more := [];
      assert steps + more == steps;
    } else {
      NextLevelIsOwned(s);
      var first := OwnerRaises(steps, StagesLeft(s.threads[s.claims[s.bitlen - 1]]));
      Invariant(steps + first);
      assert HasLevel(Run(steps + first).threads[t], level);
      var rest := ClaimedLevelArrives(steps + first, t, level);
      more := first + rest;
      assert steps + more == steps + first + rest;
    }
  }

  lemma OwnersLevel(s: State, t: nat, level: nat)
    requires Inv(s) && t < |s.threads| && HasLevel(s.threads[t], level)
    ensures 2 <= level <= s.internal == |s.claims| + 1 && s.claims[level - 2] == t
    ensures s.threads[t] == Finished(level) <==> level <= s.bitlen
  {
    hide Reverse, Pow2, DirOk;
    assert ThreadOk(s, t);
  }

  /** A resize that runs alone, with no other under way: bitlen goes up by one, and the new segment has its size and
      no sentinel in it. */
  lemma LoneResizeGrows(steps: seq<Step>)
    requires Run(steps).bitlen == Run(steps).internal < MAX_BITLEN
    ensures var s := Run(steps); var turn := Act(|s.threads|);
            var r := Run(steps + [StartResize, turn] + [turn, turn] + [turn, turn]);
            && r.bitlen == r.internal == s.bitlen + 1 && s.bitlen < |s.dir|
            && r.threads == s.threads + [Finished(s.bitlen + 1)]
            && r.dir == s.dir[s.bitlen := seq(SegmentSize(s.bitlen), _ => Null)]
  {
    Invariant(steps);
    hide Reverse, Pow2, Run;
    var s := Run(steps);
    var t := |s.threads|;
    RunTwo(steps, StartResize, Act(t));
    RunTwo(steps + [StartResize, Act(t)], Act(t), Act(t));
    RunTwo(steps + [StartResize, Act(t)] + [Act(t), Act(t)], Act(t), Act(t));
    var s0 := s.(threads := s.threads + [ReadInternal]);
    var s1 := Goto(s0, t, Claim(s.internal + 1, seq(Pow2(s.internal), _ => Garbage)));
    assert Apply(s0, Act(t)) == s1;
  }

  ghost function FinishedThreads(s: State): set<nat> { set t: nat | t < |s.threads| && s.threads[t].Finished? }

  /** At every moment as many resizes have ended as there are levels above the first. */
  lemma FinishedIsBitlen(steps: seq<Step>)
    ensures |FinishedThreads(Run(steps))| == Run(steps).bitlen - 1
  {
    hide Reverse, Pow2, DirOk;
    Invariant(steps);
    var s := Run(steps);
    var owners := Owners(s.claims[..s.bitlen - 1]);
    forall t: nat | t < |s.threads| && s.threads[t].Finished?
      ensures t in owners
    {
      assert ThreadOk(s, t);
      assert s.claims[..s.bitlen - 1][s.threads[t].level - 2] == t;
    }
    forall t | t in owners
      ensures t < |s.threads| && s.threads[t].Finished?
    {
      var i :| 0 <= i < s.bitlen - 1 && s.claims[..s.bitlen - 1][i] == t;
      assert s.claims[i] == t;
    }
    assert FinishedThreads(s) == owners;
    forall i, j | 0 <= i < j < s.bitlen - 1
      ensures s.claims[i] != s.claims[j]
    {
      assert HasLevel(s.threads[s.claims[i]], i + 2) && HasLevel(s.threads[s.claims[j]], j + 2);
    }
    DistinctOwners(s.claims[..s.bitlen - 1]);
  }

  ghost function Owners(claims: seq<nat>): set<nat> { set t | t in claims }

  lemma {:induction false} DistinctOwners(claims: seq<nat>)
    requires forall i, j | 0 <= i < j < |claims| :: claims[i] != claims[j]
    ensures |Owners(claims)| == |claims|
  {
    if claims == [] {
    } else {
      var n := |claims| - 1;
      DistinctOwners(claims[..n]);
      assert Owners(claims) == Owners(claims[..n]) + {claims[n]};
    }
  }

  // ---------- lookups end, and where ----------

  /** How many indices are left when x loses its top bits one by one. */
  function Height(x: nat): nat { if x == 0 then 0 else 1 + Height(OffsetOf(x)) }

  lemma {:induction false} HeightIsLow(x: nat, bits: nat)
    requires x < Pow2(bits)
    ensures Height(x) <= bits
  {
    if x > 0 {
      var b := TopBit(x);
      if b >= bits { Pow2Monotone(bits, b); }
      HeightIsLow(x - Pow2(b), b);
    }
  }

  function StepsLeft(pc: Pc): nat {
    match pc
    case ReadBitlen(_, _) => MAX_BITLEN + 4
    case Home(_, _, _, idx, again) => Height(idx) + (if again then 2 else 3)
    case Climb(_, _, _, _, x) => Height(x) + 2
    case Install(_, _, _) => 1
    case _ => 0
  }

  predicate LooksUp(pc: Pc) { pc.ReadBitlen? || pc.Home? || pc.Climb? || pc.Install? || pc.Found? }

  lemma LookupGetsNearer(s: State, t: nat)
    requires Inv(s) && t < |s.threads| && LooksUp(s.threads[t]) && !s.threads[t].Found?
    ensures var r := ThreadStep(s, t);
            t < |r.threads| && LooksUp(r.threads[t]) && StepsLeft(r.threads[t]) < StepsLeft(s.threads[t])
  {
    hide Reverse, DirOk, Pow2, TopBit, Height;
    assert ThreadOk(s, t);
    match s.threads[t]
    case ReadBitlen(hash, _) =>
      SentinelBeforeKey(hash, s.bitlen);
      HeightIsLow(Reverse(hash) % Pow2(s.bitlen), s.bitlen);
    case Home(hash, _, bits, idx, _) =>
      HomePlace(s, hash, bits, idx);
      PlaceExists(s, bits, idx);
      HeightOfParent(idx);
    case Climb(_, create, bits, idx, x) =>
      HeightOfParent(x);
      if create && x < 2 { LowSlots(s, x); } else { PlaceExists(s, bits, x); }
    case Install(hash, bits, idx) =>
      HomePlace(s, hash, bits, idx);
      PlaceExists(s, bits, idx);
  }

  lemma HeightOfParent(x: nat)
    ensures x > 0 ==> Height(OffsetOf(x)) + 1 == Height(x)
    ensures x == 0 ==> SegmentOf(x) == 0
  {
  }

  /** Lookups are wait-free: whatever the others do meanwhile, a lookup ends within MAX_BITLEN + 4 of its own
      steps. */
  lemma {:induction false} LookupsEnd(steps: seq<Step>, more: seq<Step>, t: nat)
    requires t < |Run(steps).threads| && LooksUp(Run(steps).threads[t])
    ensures var r := Run(steps + more);
            && t < |r.threads| && LooksUp(r.threads[t])
            && (r.threads[t].Found? || StepsLeft(r.threads[t]) + Turns(more, t) <= StepsLeft(Run(steps).threads[t]))
            && (Turns(more, t) >= StepsLeft(Run(steps).threads[t]) ==> r.threads[t].Found?)
  {
    hide Reverse, Pow2, Inv, ThreadStep, Run, Height;
    if more == [] {
      assert steps + more == steps;
    } else {
      var n := |more| - 1;
      var r := Run(steps + more[..n]);
      LookupsEnd(steps, more[..n], t);
      RunExtends(steps, more);
      Invariant(steps + more[..n]);
      if more[n] == Act(t) {
        if r.threads[t].Found? { FoundIsFinal(r, t); } else { LookupGetsNearer(r, t); }
      } else {
        OthersStay(r, more[n], t);
      }
    }
  }

  lemma FoundIsFinal(s: State, t: nat)
    requires t < |s.threads| && s.threads[t].Found?
    ensures ThreadStep(s, t) == s
  {
  }

  /** y is x, or x without some of its top bits: an index whose sentinel may serve x. */
  predicate Serves(y: nat, x: nat)
    decreases x
  {
    y == x || (x > 0 && Serves(y, OffsetOf(x)))
  }

  lemma {:induction false} ServesTransitive(a: nat, b: nat, c: nat)
    requires Serves(a, b) && Serves(b, c)
    ensures Serves(a, c)
    decreases c
  {
    hide TopBit;
    if b != c { ServesTransitive(a, b, OffsetOf(c)); }
  }

  /** A wider mask adds top bits only. */
  lemma {:induction false} NarrowServesWide(x: nat, m: nat, n: nat)
    requires m <= n
    ensures Serves(x % Pow2(m), x % Pow2(n))
    decreases n
  {
    if m < n {
      var p := Pow2(n - 1);
      var wide, narrow := x % (2 * p), x % p;
      NarrowServesWide(x, m, n - 1);
      MaskStep(x, p);
      if wide != narrow {
        TopBitIs(wide, n - 1);
        assert OffsetOf(wide) == narrow;
        assert Serves(narrow, wide);
      }
      ServesTransitive(x % Pow2(m), narrow, wide);
    }
  }

  lemma MaskStep(x: nat, p: nat)
    requires p > 0
    ensures x % (2 * p) == x % p || x % (2 * p) == x % p + p
  {
    MaskOf(x, p, x / (2 * p), x % (2 * p));
  }

  lemma MaskOf(x: nat, p: nat, q: nat, r: nat)
    requires x == q * (2 * p) + r && r < 2 * p
    ensures x % p == if r < p then r else r - p
  {
    TwiceOver(q, p);
    if r < p { DivideUnique(x, p, 2 * q, r); } else { DivideUnique(x, p, 2 * q + 1, r - p); }
  }

  lemma TwiceOver(q: nat, p: nat)
    ensures q * (2 * p) == (2 * q) * p
    ensures (2 * q + 1) * p == (2 * q) * p + p
  {
  }

  /** What a lookup that began with bitlen at b0, and with the slot of y filled, is on its way to. */
  ghost predicate OnTheWay(s: State, pc: Pc, hash: nat, create: bool, b0: nat, y: nat) {
    match pc
    case ReadBitlen(h, c) => h == hash && c == create
    case Home(h, c, bits, idx, _) =>
      h == hash && c == create && b0 <= bits && idx == Reverse(hash) % Pow2(bits) && Serves(y, idx)
    case Climb(h, c, bits, idx, x) =>
      && h == hash && c == create && b0 <= bits && idx == Reverse(hash) % Pow2(bits)
      && Serves(y, idx) && (c || (Serves(x, idx) && Serves(y, x)))
    case Install(h, bits, idx) =>
      h == hash && create && b0 <= bits && idx == Reverse(hash) % Pow2(bits) && Serves(y, idx)
    case Found(h, c, bits, slot) =>
      && h == hash && c == create && b0 <= bits
      && exists z :: Serves(y, z) && Serves(z, Reverse(hash) % Pow2(bits)) && slot == SlotAt(s, z)
    case _ => false
  }

  lemma NullIsPassed(s: State, bits: nat, x: nat, y: nat)
    requires ClaimsOk(s) && DirOk(s) && 1 <= bits <= s.bitlen && x < Pow2(bits)
    requires Serves(y, x) && SlotAt(s, y).Sentinel? && SlotAt(s, x).Null?
    ensures x > 0 && Serves(y, OffsetOf(x))
  {
    hide Reverse, Pow2, DirOk, TopBit;
    PlaceExists(s, bits, x);
    HeightOfParent(x);
  }

  lemma StepStaysOnTheWay(s: State, t: nat, hash: nat, create: bool, b0: nat, y: nat)
    requires Inv(s) && t < |s.threads| && OnTheWay(s, s.threads[t], hash, create, b0, y)
    requires b0 <= s.bitlen && Serves(y, Reverse(hash) % Pow2(b0)) && SlotAt(s, y).Sentinel?
    ensures var r := ThreadStep(s, t); t < |r.threads| && OnTheWay(r, r.threads[t], hash, create, b0, y)
  {
    hide Reverse, Pow2, DirOk, TopBit, Serves;
    var r := ThreadStep(s, t);
    assert ThreadOk(s, t);
    match s.threads[t]
    case ReadBitlen(_, _) =>
      NarrowServesWide(Reverse(hash), b0, s.bitlen);
      ServesTransitive(y, Reverse(hash) % Pow2(b0), Reverse(hash) % Pow2(s.bitlen));
    case Home(_, _, bits, idx, again) =>
      HomePlace(s, hash, bits, idx);
      PlaceExists(s, bits, idx);
      ServesItself(idx);
      if SlotAt(s, idx).Null? {
        NullIsPassed(s, bits, idx, y);
        ServesOn(OffsetOf(idx), idx);
      }
    case Climb(_, _, bits, idx, x) =>
      if create {
        if x < 2 { LowSlots(s, x); } else { PlaceExists(s, bits, x); }
      } else {
        PlaceExists(s, bits, x);
        if SlotAt(s, x).Null? {
          NullIsPassed(s, bits, x, y);
          ServesOn(OffsetOf(x), x);
          ServesTransitive(OffsetOf(x), x, idx);
        }
      }
    case Install(_, bits, idx) =>
      HomePlace(s, hash, bits, idx);
      PlaceExists(s, bits, idx);
      ServesItself(idx);
      assert r.threads[t].slot == SlotAt(r, idx);
    case Found(_, _, _, _) =>
  }

  lemma ServesItself(x: nat)
    ensures Serves(x, x)
  {
  }

  lemma ServesOn(y: nat, x: nat)
    requires x > 0 && y == OffsetOf(x)
    ensures Serves(y, x)
  {
  }

  lemma WayStays(s: State, r: State, pc: Pc, hash: nat, create: bool, b0: nat, y: nat)
    requires SlotsKept(s, r) && OnTheWay(s, pc, hash, create, b0, y)
    requires pc.Found? ==> pc.slot.Sentinel?
    ensures OnTheWay(r, pc, hash, create, b0, y)
  {
    hide Reverse, Pow2, TopBit, Serves, Load;
    if pc.Found? {
      var z :| Serves(y, z) && Serves(z, Reverse(hash) % Pow2(pc.bits)) && pc.slot == SlotAt(s, z);
      assert pc.slot == SlotAt(r, z);
    }
  }

  /** A lookup answers the sentinel of its bucket or of the nearest ancestor index that has one: if the slot of y was
      filled when the lookup began, it answers that of y or of an index in between. */
  lemma {:induction false} NearestIsFound(steps: seq<Step>, hash: nat, create: bool, more: seq<Step>, y: nat)
    requires hash <= LAST && SlotAt(Run(steps), y).Sentinel?
    requires Serves(y, Reverse(hash) % Pow2(Run(steps).bitlen))
    ensures var s, r := Run(steps), Run(steps + [StartLookup(hash, create)] + more); var t := |s.threads|;
            && t < |r.threads| && SlotAt(r, y) == SlotAt(s, y) && s.bitlen <= r.bitlen
            && OnTheWay(r, r.threads[t], hash, create, s.bitlen, y)
  {
    hide Reverse, Pow2, TopBit, Serves, OnTheWay, ThreadStep, Run;
    var s, begun := Run(steps), steps + [StartLookup(hash, create)];
    var t := |s.threads|;
    Invariant(steps);
    RunOne(steps, StartLookup(hash, create));
    StepKeepsSlots(s, StartLookup(hash, create));
    if more == [] {
      assert begun + more == begun;
      WayBegins(Run(begun), hash, create, s.bitlen, y);
    } else {
      var n := |more| - 1;
      NearestIsFound(steps, hash, create, more[..n], y);
      RunExtends(begun, more);
      Invariant(begun + more[..n]);
      var q := Run(begun + more[..n]);
      StepKeepsSlots(q, more[n]);
      if more[n] == Act(t) {
        StepStaysOnTheWay(q, t, hash, create, s.bitlen, y);
      } else {
        OthersStay(q, more[n], t);
        assert ThreadOk(q, t);
        WayStays(q, Run(begun + more), q.threads[t], hash, create, s.bitlen, y);
      }
    }
  }

  lemma WayBegins(s: State, hash: nat, create: bool, b0: nat, y: nat)
    ensures OnTheWay(s, ReadBitlen(hash, create), hash, create, b0, y)
  {
  }

  /** A lookup that takes MAX_BITLEN + 4 steps of its own, between whatever steps of others, has answered: with the
      bitlen of its beginning or a later one, and the sentinel of its bucket, or without `create` of the nearest
      ancestor index, no further up than any that was there when it began. */
  lemma LookupAnswers(steps: seq<Step>, hash: nat, create: bool, more: seq<Step>, y: nat)
    requires hash <= LAST && Turns(more, |Run(steps).threads|) >= MAX_BITLEN + 4
    requires SlotAt(Run(steps), y).Sentinel? && Serves(y, Reverse(hash) % Pow2(Run(steps).bitlen))
    ensures var s, r := Run(steps), Run(steps + [StartLookup(hash, create)] + more); var t := |s.threads|;
            && t < |r.threads| && r.threads[t].Found? && r.threads[t].create == create && r.threads[t].hash == hash
            && s.bitlen <= r.threads[t].bits <= r.bitlen
            && var idx := Reverse(hash) % Pow2(r.threads[t].bits);
               && (create ==> SlotAt(r, idx) == r.threads[t].slot)
               && exists z :: Serves(y, z) && Serves(z, idx) && r.threads[t].slot == SlotAt(r, z)
  {
    hide Reverse, Pow2, TopBit, Serves, Run, Turns, Inv;
    var begun, t := steps + [StartLookup(hash, create)], |Run(steps).threads|;
    RunOne(steps, StartLookup(hash, create));
    LookupsEnd(begun, more, t);
    NearestIsFound(steps, hash, create, more, y);
    Invariant(begun + more);
    FoundIsOk(Run(begun + more), t);
  }

  lemma FoundIsOk(s: State, t: nat)
    requires Inv(s) && t < |s.threads| && s.threads[t].Found?
    ensures var pc := s.threads[t]; FoundOk(s, pc.hash, pc.create, pc.bits, pc.slot)
  {
    hide Reverse, Pow2;
    assert ThreadOk(s, t);
  }
}
