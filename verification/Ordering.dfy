/**
 * When does the d-th XOR call read what each file sealed d-th? Flags and counters do not ensure it; it
 * holds exactly as long as the consumer never takes a slot past an older sealed one.
 */
module Ordering {
  import opened Slots
  import opened Pipeline
  import PipelineSafety

  /** XOR call d took the slot that chunk d was sealed into. */
  ghost predicate Follows(chunks: seq<Chunk>, drains: seq<Drain>) {
    |drains| <= |chunks| && forall d :: 0 <= d < |drains| ==> drains[d].slot == chunks[d].slot
  }

  /** ... and so does the call in progress. */
  ghost predicate FileInOrder(s: Group, p: Producer) {
    && Follows(p.sealed, s.drains)
    && (s.phase.Xoring? ==> |s.drains| < |p.sealed| && p.sealed[|s.drains|].slot == s.phase.slot)
  }

  ghost predicate InOrder(s: Group) {
    forall i :: 0 <= i < |s.files| ==> FileInOrder(s, s.files[i])
  }

  /** Both slots are sealed, and `k` is the younger one. */
  predicate Younger(p: Producer, k: Index) {
    p.Get(Other(k)).flag.Sealed? && p.LastSealed() == k
  }

  /** The consumer is about to take a slot that reads N while some file's other slot has waited longer. */
  predicate Overtake(s: Group, a: Action) {
    && a.Consumer? && s.phase.Testing? && s.Full(s.phase.slot) == |s.files|
    && exists i | 0 <= i < |s.files| :: Younger(s.files[i], s.phase.slot)
  }

  // ----- Chunks by slot -----

  lemma {:induction false} InSlotSplit(chunks: seq<Chunk>, n: nat, k: Index)
    requires n <= |chunks|
    ensures InSlot(chunks, k) == InSlot(chunks[..n], k) + InSlot(chunks[n..], k)
    decreases |chunks|
  {
    var last := |chunks| - 1;
    if n == |chunks| {
      assert chunks[..n] == chunks && chunks[n..] == [];
    } else {
      InSlotSplit(chunks[..last], n, k);
      assert chunks[..last][..n] == chunks[..n];
      assert chunks[n..][..last - n] == chunks[..last][n..];
    }
  }

  lemma {:induction false} InSlotTotal(chunks: seq<Chunk>)
    ensures |chunks| == |InSlot(chunks, 0)| + |InSlot(chunks, 1)|
  {
    if chunks != [] { InSlotTotal(chunks[..|chunks| - 1]); }
  }

  lemma {:induction false} TakenTotal(drains: seq<Drain>, i: nat)
    requires forall d :: 0 <= d < |drains| ==> i < |drains[d].inputs|
    ensures |drains| == |Taken(drains, 0, i)| + |Taken(drains, 1, i)|
  {
    if drains != [] { TakenTotal(drains[..|drains| - 1], i); }
  }

  lemma {:induction false} FollowsCounts(chunks: seq<Chunk>, drains: seq<Drain>, k: Index, i: nat)
    requires |chunks| == |drains| && Follows(chunks, drains)
    requires forall d :: 0 <= d < |drains| ==> i < |drains[d].inputs|
    ensures |Taken(drains, k, i)| == |InSlot(chunks, k)|
  {
    if drains != [] {
      FollowsCounts(chunks[..|chunks| - 1], drains[..|drains| - 1], k, i);
    }
  }

  /** Slot by slot the same contents, call by call the same slot: call by call the same contents. */
  lemma {:induction false} FollowsReads(chunks: seq<Chunk>, drains: seq<Drain>, i: nat)
    requires |chunks| == |drains| && Follows(chunks, drains)
    requires forall d :: 0 <= d < |drains| ==> i < |drains[d].inputs|
    requires forall k: Index :: Taken(drains, k, i) == InSlot(chunks, k)
    ensures forall d :: 0 <= d < |drains| ==> drains[d].inputs[i] == chunks[d].bytes
  {
    if drains != [] {
      var n := |drains| - 1;
      forall k: Index ensures Taken(drains[..n], k, i) == InSlot(chunks[..n], k) {
        LastOfBoth(chunks, drains, i, k);
      }
      LastOfBoth(chunks, drains, i, drains[n].slot);
      FollowsReads(chunks[..n], drains[..n], i);
    }
  }

  lemma LastOfBoth(chunks: seq<Chunk>, drains: seq<Drain>, i: nat, k: Index)
    requires |chunks| == |drains| > 0 && chunks[|chunks| - 1].slot == drains[|drains| - 1].slot
    requires i < |drains[|drains| - 1].inputs| && Taken(drains, k, i) == InSlot(chunks, k)
    ensures Taken(drains[..|drains| - 1], k, i) == InSlot(chunks[..|chunks| - 1], k)
    ensures k == drains[|drains| - 1].slot ==> drains[|drains| - 1].inputs[i] == chunks[|chunks| - 1].bytes
  {
    var n := |drains| - 1;
    var taken, sealed := Taken(drains[..n], k, i), InSlot(chunks[..n], k);
    if k == drains[n].slot {
      assert (taken + [drains[n].inputs[i]])[..|taken|] == taken;
      assert (sealed + [chunks[n].bytes])[..|sealed|] == sealed;
      assert |taken| == |sealed|;
      assert (taken + [drains[n].inputs[i]])[|taken|] == (sealed + [chunks[n].bytes])[|taken|];
    }
  }

  lemma {:induction false} FirstInSlot(chunks: seq<Chunk>, k: Index)
    requires chunks != [] && chunks[0].slot == k
    ensures InSlot(chunks, k) != [] && InSlot(chunks, k)[0] == chunks[0].bytes
  {
    if |chunks| > 1 { FirstInSlot(chunks[..|chunks| - 1], k); }
  }

  // ----- One file -----

  /** No XOR call came before its chunk, in any run. */
  lemma DrainsBehind(l: Limits, s: Group, i: nat)
    requires AllHandedOff(s) && OutputAccounted(l, s) && i < |s.files|
    ensures |s.drains| + |Unread(s, i, 0)| + |Unread(s, i, 1)| == |s.files[i].sealed|
  {
    InSlotTotal(s.files[i].sealed);
    TakenTotal(s.drains, i);
    assert HandedOff(s, i, 0) && HandedOff(s, i, 1);
  }

  /** What the calls took is the start of what was sealed; the rest waits in the slots. */
  lemma Waits(l: Limits, s: Group, i: nat, k: Index)
    requires AllHandedOff(s) && OutputAccounted(l, s) && i < |s.files| && Follows(s.files[i].sealed, s.drains)
    ensures Taken(s.drains, k, i) == InSlot(s.files[i].sealed[..|s.drains|], k)
    ensures Unread(s, i, k) == InSlot(s.files[i].sealed[|s.drains|..], k)
  {
    var chunks, n := s.files[i].sealed, |s.drains|;
    assert HandedOff(s, i, k);
    InSlotSplit(chunks, n, k);
    FollowsCounts(chunks[..n], s.drains, k, i);
    SamePrefix(Taken(s.drains, k, i), Unread(s, i, k), InSlot(chunks[..n], k), InSlot(chunks[n..], k));
  }

  lemma SamePrefix<T>(a: seq<T>, b: seq<T>, c: seq<T>, d: seq<T>)
    requires a + b == c + d && |a| == |c|
    ensures a == c && b == d
  {
    assert a == (a + b)[..|a|] && c == (c + d)[..|c|];
    assert b == (a + b)[|a|..] && d == (c + d)[|c|..];
  }

  /** The slot the next call must take to stay in order: the older of the two that wait. */
  lemma OldestWaiting(l: Limits, s: Group, i: nat, k: Index)
    requires AllHandedOff(s) && OutputAccounted(l, s) && s.phase.Testing?
    requires i < |s.files| && Follows(s.files[i].sealed, s.drains) && s.files[i].Get(k).flag.Sealed?
    ensures |s.drains| < |s.files[i].sealed|
    ensures s.files[i].sealed[|s.drains|].slot == k <==> !Younger(s.files[i], k)
  {
    var p := s.files[i];
    var rest := p.sealed[|s.drains|..];
    Waits(l, s, i, 0);
    Waits(l, s, i, 1);
    InSlotTotal(rest);
    assert |rest| == if p.Get(Other(k)).flag.Sealed? then 2 else 1;
    assert |InSlot(rest, k)| == 1;
    assert p.sealed[|s.drains|] == rest[0] && p.LastSealed() == rest[|rest| - 1].slot;
    SlotsOf(rest, k);
  }

  /** Of one or two chunks, exactly one is in slot `k`. */
  lemma SlotsOf(rest: seq<Chunk>, k: Index)
    requires 1 <= |rest| <= 2 && |InSlot(rest, k)| == 1
    ensures |rest| == 1 ==> rest[0].slot == k
    ensures |rest| == 2 ==> (rest[0].slot == k <==> rest[1].slot != k)
  {
    assert InSlot(rest[..1], k) == if rest[0].slot == k then [rest[0].bytes] else [] by {
      assert rest[..1][..0] == [];
    }
    if |rest| == 1 { assert rest[..1] == rest; }
  }

  // ----- What in-order calls read -----

  lemma DrainReads(l: Limits, s: Group, d: nat, i: nat)
    requires AllHandedOff(s) && OutputAccounted(l, s) && InOrder(s) && d < |s.drains| && i < |s.files|
    ensures d < |s.files[i].sealed| && s.drains[d].inputs[i] == s.files[i].sealed[d].bytes
  {
    assert FileInOrder(s, s.files[i]);
    forall k: Index ensures Taken(s.drains, k, i) == InSlot(s.files[i].sealed[..|s.drains|], k) {
      Waits(l, s, i, k);
    }
    FollowsReads(s.files[i].sealed[..|s.drains|], s.drains, i);
  }

  /** While the consumer holds slot k, every file has its next chunk there. */
  lemma XoringReads(l: Limits, s: Group, i: nat)
    requires AllHandedOff(s) && OutputAccounted(l, s) && HeldSettled(s) && InOrder(s)
    requires s.phase.Xoring? && i < |s.files|
    ensures |s.drains| < |s.files[i].sealed|
    ensures s.Buffers(s.phase.slot)[i] == s.files[i].sealed[|s.drains|].bytes
  {
    var k := s.phase.slot;
    assert s.Holds(i, k) && FileInOrder(s, s.files[i]);
    Waits(l, s, i, k);
    FirstInSlot(s.files[i].sealed[|s.drains|..], k);
  }

  // ----- Steps -----

  lemma TestInOrder(l: Limits, s: Group)
    requires CountersAgree(s) && AllHandedOff(s) && OutputAccounted(l, s) && InOrder(s) && s.files != []
    requires s.phase.Testing? && s.Full(s.phase.slot) == |s.files|
    ensures InOrder(Consumed(l, s, 0)) <==> !Overtake(s, Consumer(0))
  {
    var k, t := s.phase.slot, Consumed(l, s, 0);
    TallyExtremes(CountBits(s, k));
    forall i | 0 <= i < |s.files| ensures FileInOrder(t, t.files[i]) <==> !Younger(s.files[i], k) {
      assert CountBits(s, k)[i] && FileInOrder(s, s.files[i]);
      OldestWaiting(l, s, i, k);
    }
    if InOrder(t) {
      forall i | 0 <= i < |s.files| ensures !Younger(s.files[i], k) {
        assert FileInOrder(t, t.files[i]);
      }
    }
  }

  lemma DrainInOrder(l: Limits, s: Group, accepted: nat)
    requires s.files != [] && InOrder(s) && s.phase.Xoring?
    ensures InOrder(Consumed(l, s, accepted))
  {
    var t := Consumed(l, s, accepted);
    assert |t.files| == |s.files| && |t.drains| == |s.drains| + 1;
    forall i | 0 <= i < |s.files| ensures FileInOrder(t, t.files[i]) {
      assert FileInOrder(s, s.files[i]) && t.files[i].sealed == s.files[i].sealed;
    }
  }

  /** Steps that take no slot and seal at most at the end. */
  lemma OtherStepInOrder(s: Group, t: Group)
    requires InOrder(s) && |t.files| == |s.files| && t.drains == s.drains
    requires t.phase.Xoring? ==> t.phase == s.phase
    requires forall i :: 0 <= i < |s.files| ==> s.files[i].sealed <= t.files[i].sealed
    ensures InOrder(t)
  {
    forall i | 0 <= i < |t.files| ensures FileInOrder(t, t.files[i]) {
      assert FileInOrder(s, s.files[i]);
    }
  }

  lemma SealedOnlyGrows(l: Limits, s: Group, a: Action)
    requires Enabled(l, s, a)
    ensures |Next(l, s, a).files| == |s.files|
    ensures forall i :: 0 <= i < |s.files| ==> s.files[i].sealed <= Next(l, s, a).files[i].sealed
  {
    match a
    case FileMoves(i, m) =>
      assert s.files[i].sealed <= Moved(l, s.files[i], m).sealed;
    case PeerFails(_) =>
    case Consumer(accepted) => ConsumerLeavesThreads(l, s, accepted);
  }

  /** The consumer touches nothing of a file but its slots. */
  lemma ConsumerLeavesThreads(l: Limits, s: Group, accepted: nat)
    requires s.files != [] && !s.phase.Returned?
    ensures var t := Consumed(l, s, accepted);
            |t.files| == |s.files| && forall i :: 0 <= i < |s.files| ==>
              t.files[i] == s.files[i].(slot0 := t.files[i].slot0, slot1 := t.files[i].slot1)
  {
  }

  /** A step keeps the order if and only if it does not overtake. */
  lemma OrderStep(l: Limits, s: Group, a: Action)
    requires Invariant(l, s) && InOrder(s) && Enabled(l, s, a)
    ensures InOrder(Next(l, s, a)) <==> !Overtake(s, a)
  {
    SealedOnlyGrows(l, s, a);
    if a.Consumer? && s.phase.Testing? && s.Full(s.phase.slot) == |s.files| {
      TestInOrder(l, s);
    } else if a.Consumer? && s.phase.Xoring? {
      DrainInOrder(l, s, a.accepted);
    } else {
      OtherStepInOrder(s, Next(l, s, a));
    }
  }

  /** The list of calls only grows, and a call in progress is put on it. */
  ghost predicate CallsGrow(s: Group, t: Group) {
    && s.drains <= t.drains
    && (s.phase.Xoring? ==>
          || (t.phase == s.phase && t.drains == s.drains)
          || (|t.drains| > |s.drains| && t.drains[|s.drains|].slot == s.phase.slot))
  }

  lemma StepGrowsCalls(l: Limits, s: Group, a: Action)
    requires Enabled(l, s, a)
    ensures CallsGrow(s, Next(l, s, a))
  {
  }

  lemma FileStaysDisordered(s: Group, t: Group, p: Producer, q: Producer)
    requires |s.drains| <= |p.sealed| && (s.phase.Xoring? ==> |s.drains| < |p.sealed|)
    requires p.sealed <= q.sealed && CallsGrow(s, t) && !FileInOrder(s, p)
    ensures !FileInOrder(t, q)
  {
    if Follows(p.sealed, s.drains) {
      var d := |s.drains|;
      assert q.sealed[d] == p.sealed[d] && q.sealed[d].slot != s.phase.slot;
    } else {
      var d :| 0 <= d < |s.drains| && s.drains[d].slot != p.sealed[d].slot;
      assert t.drains[d].slot != q.sealed[d].slot;
    }
  }

  /** A call out of order stays so. */
  lemma DisorderStays(l: Limits, s: Group, a: Action)
    requires AllHandedOff(s) && OutputAccounted(l, s) && HeldSettled(s) && !InOrder(s) && Enabled(l, s, a)
    ensures !InOrder(Next(l, s, a))
  {
    var t := Next(l, s, a);
    var i :| 0 <= i < |s.files| && !FileInOrder(s, s.files[i]);
    SealedOnlyGrows(l, s, a);
    StepGrowsCalls(l, s, a);
    DrainsBehind(l, s, i);
    assert s.phase.Xoring? ==> s.Holds(i, s.phase.slot) && |Unread(s, i, s.phase.slot)| == 1;
    FileStaysDisordered(s, t, s.files[i], t.files[i]);
  }

  // ----- Whole runs -----

  ghost predicate OvertakeFree(l: Limits, s: Group, acts: seq<Action>)
    requires Runs(l, s, acts)
    decreases |acts|
  {
    acts != [] ==> !Overtake(s, acts[0]) && OvertakeFree(l, Next(l, s, acts[0]), acts[1..])
  }

  lemma {:induction false} RunStaysDisordered(l: Limits, s: Group, acts: seq<Action>)
    requires Invariant(l, s) && !InOrder(s) && Runs(l, s, acts)
    ensures !InOrder(After(l, s, acts))
    decreases |acts|
  {
    if acts != [] {
      PipelineSafety.StepKeeps(l, s, acts[0]);
      DisorderStays(l, s, acts[0]);
      RunStaysDisordered(l, Next(l, s, acts[0]), acts[1..]);
    }
  }

  /** A run ends in order if and only if no step of it overtook. */
  lemma {:induction false} OrderRun(l: Limits, s: Group, acts: seq<Action>)
    requires Invariant(l, s) && InOrder(s) && Runs(l, s, acts)
    ensures InOrder(After(l, s, acts)) <==> OvertakeFree(l, s, acts)
    decreases |acts|
  {
    if acts != [] {
      var t := Next(l, s, acts[0]);
      OrderStep(l, s, acts[0]);
      PipelineSafety.StepKeeps(l, s, acts[0]);
      if Overtake(s, acts[0]) {
        RunStaysDisordered(l, t, acts[1..]);
      } else {
        OrderRun(l, t, acts[1..]);
      }
    }
  }
}
