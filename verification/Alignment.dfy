/**
 * When do the N buffers XORed together hold the same byte range, in file order? Exactly as long as
 * neither of two races happens.
 */
module Alignment {
  import opened Slots
  import opened Pipeline
  import PipelineSafety
  import Ordering

  /** A late poll: the thread finds both slots empty and is about to reopen the one it sealed last. */
  predicate LateReopen(p: Producer) {
    && p.pc.Reopening? && p.slot0.flag.Empty? && p.slot1.flag.Empty?
    && p.pc.slot == p.LastSealed()
  }

  /** Both counters read N and the consumer is about to take the slot it took last. */
  predicate OutOfTurn(s: Group) {
    && s.phase.Testing? && s.full0 == |s.files| && s.full1 == |s.files|
    && s.phase.slot == s.LastDrained()
  }

  predicate Race(s: Group, a: Action) {
    match a
    case FileMoves(i, m) => i < |s.files| && m.Reopen? && LateReopen(s.files[i])
    case PeerFails(_) => false
    case Consumer(_) => OutOfTurn(s)
  }

  ghost predicate Alternating(chunks: seq<Chunk>) {
    forall g :: 0 <= g < |chunks| ==> chunks[g].slot == g % 2
  }

  ghost predicate InTurn(drains: seq<Drain>) {
    forall d :: 0 <= d < |drains| ==> drains[d].slot == d % 2
  }

  /** Generation g of a file sits in slot g mod 2. */
  ghost predicate FileAligned(p: Producer) {
    Alternating(p.sealed) && forall k: Index :: p.Get(k).flag.Writable? ==> k == |p.sealed| % 2
  }

  /** ... for every file, and generations are XORed in the order 0, 1, 2, ... */
  ghost predicate Aligned(s: Group) {
    && (forall i :: 0 <= i < |s.files| ==> FileAligned(s.files[i]))
    && InTurn(s.drains)
    && (s.phase.Xoring? ==> s.phase.slot == |s.drains| % 2)
  }

  // ----- Counting halves of an alternating list -----

  lemma {:induction false} InSlotSize(chunks: seq<Chunk>, k: Index)
    requires Alternating(chunks)
    ensures |InSlot(chunks, k)| == (|chunks| + 1 - k) / 2
  {
    if chunks != [] {
      var init := chunks[..|chunks| - 1];
      InSlotSize(init, k);
      HalfGrows(|init|, k, |InSlot(init, k)|);
    }
  }

  lemma {:induction false} InSlotAt(chunks: seq<Chunk>, k: Index, m: nat)
    requires Alternating(chunks) && 2 * m + k < |chunks|
    ensures m < |InSlot(chunks, k)| && InSlot(chunks, k)[m] == chunks[2 * m + k].bytes
    decreases |chunks|
  {
    var init, last := chunks[..|chunks| - 1], |chunks| - 1;
    if 2 * m + k < last {
      InSlotAt(init, k, m);
    } else {
      InSlotSize(init, k);
      assert |InSlot(init, k)| == m;
    }
  }

  /** In an alternating list, the m-th content of slot k is chunk 2m+k. */
  lemma InSlotAlternating(chunks: seq<Chunk>, k: Index)
    requires Alternating(chunks)
    ensures |InSlot(chunks, k)| == (|chunks| + 1 - k) / 2
    ensures forall m :: 0 <= m < |InSlot(chunks, k)| ==> InSlot(chunks, k)[m] == chunks[2 * m + k].bytes
  {
    InSlotSize(chunks, k);
    forall m | 0 <= m < |InSlot(chunks, k)| ensures InSlot(chunks, k)[m] == chunks[2 * m + k].bytes {
      InSlotAt(chunks, k, m);
    }
  }

  lemma HalfGrows(n: nat, k: Index, half: nat)
    requires half == (n + 1 - k) / 2
    ensures if n % 2 == k then (n + 2 - k) / 2 == half + 1 && n == 2 * half + k else (n + 2 - k) / 2 == half
  {
  }

  lemma {:induction false} TakenInTurn(drains: seq<Drain>, k: Index, i: nat)
    requires InTurn(drains)
    requires forall d :: 0 <= d < |drains| ==> i < |drains[d].inputs|
    ensures |Taken(drains, k, i)| == (|drains| + 1 - k) / 2
  {
    if drains != [] {
      var init := drains[..|drains| - 1];
      TakenInTurn(init, k, i);
      HalfGrows(|init|, k, |Taken(init, k, i)|);
    }
  }

  /** Sealed, consumed and waiting generations of file `i`, counted per slot. */
  lemma Balance(l: Limits, s: Group, i: nat, k: Index)
    requires AllHandedOff(s) && OutputAccounted(l, s)
    requires i < |s.files| && Alternating(s.files[i].sealed) && InTurn(s.drains)
    ensures (|s.files[i].sealed| + 1 - k) / 2 == (|s.drains| + 1 - k) / 2 + |Unread(s, i, k)|
  {
    InSlotAlternating(s.files[i].sealed, k);
    TakenInTurn(s.drains, k, i);
    assert HandedOff(s, i, k);
  }

  // ----- Producers -----

  lemma SealKeepsAligned(l: Limits, p: Producer)
    requires Sound(l, p) && CanMove(l, p, Seal) && FileAligned(p)
    ensures FileAligned(Moved(l, p, Seal))
  {
  }

  /** If the slot sealed last is already free again, so is the slot sealed before it. */
  lemma OlderSlotFree(l: Limits, s: Group, i: nat, k: Index)
    requires AllHandedOff(s) && OutputAccounted(l, s) && HeldSettled(s)
    requires i < |s.files| && Alternating(s.files[i].sealed) && InTurn(s.drains)
    requires k != |s.files[i].sealed| % 2 && s.files[i].Get(k).flag.Empty?
    ensures !s.files[i].Get(Other(k)).flag.Sealed?
  {
    Balance(l, s, i, k);
    Balance(l, s, i, Other(k));
    LastInTurn(s);
    assert s.Spent(i, Other(k)) ==> s.LastDrained() == Other(k);
  }

  lemma LastSealedAlternates(p: Producer)
    requires Alternating(p.sealed)
    ensures p.LastSealed() == (|p.sealed| + 1) % 2
  {
  }

  /** Reopening goes to the right slot exactly when the poll is not late. */
  lemma ReopenAligned(l: Limits, s: Group, i: nat)
    requires AllHandedOff(s) && OutputAccounted(l, s) && HeldSettled(s)
    requires i < |s.files| && FileAligned(s.files[i]) && InTurn(s.drains)
    requires s.files[i].pc.Reopening? && Bounded(l, s.files[i])
    ensures FileAligned(Moved(l, s.files[i], Reopen)) <==> !LateReopen(s.files[i])
  {
    var p := s.files[i];
    var k := p.pc.slot;
    var q := Moved(l, p, Reopen);
    LastSealedAlternates(p);
    assert q.sealed == p.sealed;
    if p.Get(k).flag.Empty? && !p.Get(Other(k)).flag.Writable? {
      assert q.Get(k).flag.Writable? && q.Get(Other(k)) == p.Get(Other(k));
      if k != |p.sealed| % 2 {
        OlderSlotFree(l, s, i, k);
        assert p.Get(0).flag.Empty? && p.Get(1).flag.Empty?;
      } else {
        assert forall j: Index :: q.Get(j).flag.Writable? ==> j == k || j == Other(k);
      }
    } else {
      assert forall j: Index :: q.Get(j) == p.Get(j);
      assert !(p.Get(k).flag.Empty? && p.Get(Other(k)).flag.Empty?);
    }
  }

  lemma LastInTurn(s: Group)
    requires InTurn(s.drains)
    ensures s.LastDrained() == (|s.drains| + 1) % 2
  {
  }

  lemma MoveAligned(l: Limits, s: Group, i: nat, m: Move)
    requires Invariant(l, s) && Aligned(s) && Enabled(l, s, FileMoves(i, m))
    ensures FileAligned(Moved(l, s.files[i], m)) <==> !(m.Reopen? && LateReopen(s.files[i]))
  {
    match m
    case Seal => SealKeepsAligned(l, s.files[i]);
    case Reopen => ReopenAligned(l, s, i);
    case _ =>
  }

  // ----- The consumer -----

  /** If a file has slot `k` counted out of turn, it has the other slot counted too. */
  lemma OutOfTurnNeedsBoth(l: Limits, s: Group, i: nat, k: Index)
    requires AllHandedOff(s) && OutputAccounted(l, s) && s.phase.Testing?
    requires i < |s.files| && Sound(l, s.files[i]) && Alternating(s.files[i].sealed) && InTurn(s.drains)
    requires s.Counted(i, k) && k != |s.drains| % 2
    ensures s.Counted(i, Other(k))
  {
    Balance(l, s, i, k);
    Balance(l, s, i, Other(k));
    LastSealedAlternates(s.files[i]);
  }

  lemma BothFull(l: Limits, s: Group)
    requires Invariant(l, s) && Aligned(s) && s.phase.Testing?
    requires s.Full(s.phase.slot) == |s.files| && s.phase.slot != |s.drains| % 2
    ensures s.full0 == |s.files| && s.full1 == |s.files|
  {
    var k := s.phase.slot;
    TallyExtremes(CountBits(s, k));
    TallyExtremes(CountBits(s, Other(k)));
    forall i | 0 <= i < |s.files| ensures CountBits(s, Other(k))[i] {
      assert CountBits(s, k)[i] && FileAligned(s.files[i]);
      OutOfTurnNeedsBoth(l, s, i, k);
    }
    assert s.Full(k) == Tally(CountBits(s, k)) && s.Full(Other(k)) == Tally(CountBits(s, Other(k)));
  }

  lemma TestAligned(l: Limits, s: Group)
    requires Invariant(l, s) && Aligned(s) && s.phase.Testing?
    ensures Aligned(Consumed(l, s, 0)) <==> !OutOfTurn(s)
  {
    LastInTurn(s);
    var t, k := Consumed(l, s, 0), s.phase.slot;
    assert t == s.(phase := t.phase);
    assert Aligned(t) <==> (t.phase.Xoring? ==> k == |s.drains| % 2);
    if s.Full(k) == |s.files| && k != |s.drains| % 2 { BothFull(l, s); }
  }

  lemma OtherPhasesAligned(l: Limits, s: Group, accepted: nat)
    requires s.files != [] && Aligned(s) && !s.phase.Returned? && !s.phase.Testing?
    ensures Aligned(Consumed(l, s, accepted))
  {
    var t := Consumed(l, s, accepted);
    assert |t.files| == |s.files|;
    forall i | 0 <= i < |t.files| ensures FileAligned(t.files[i]) {
      FileStaysAligned(l, s, accepted, i);
    }
    assert !t.phase.Xoring?;
    DrainStaysInTurn(l, s, accepted);
  }

  lemma DrainStaysInTurn(l: Limits, s: Group, accepted: nat)
    requires s.files != [] && !s.phase.Returned? && InTurn(s.drains)
    requires s.phase.Xoring? ==> s.phase.slot == |s.drains| % 2
    ensures InTurn(Consumed(l, s, accepted).drains)
  {
  }

  lemma FileStaysAligned(l: Limits, s: Group, accepted: nat, i: nat)
    requires s.files != [] && !s.phase.Returned? && i < |s.files| && FileAligned(s.files[i])
    ensures FileAligned(Consumed(l, s, accepted).files[i])
  {
    var p, q := s.files[i], Consumed(l, s, accepted).files[i];
    assert q.sealed == p.sealed;
    assert forall k: Index :: q.Get(k).flag.Writable? ==> p.Get(k).flag.Writable?;
  }

  /** Only the mover's own alignment is at stake. */
  lemma OneFileAligned(s: Group, t: Group, i: nat)
    requires Aligned(s) && i < |s.files| == |t.files| && t.drains == s.drains && t.phase == s.phase
    requires forall j :: 0 <= j < |s.files| && j != i ==> t.files[j] == s.files[j]
    ensures Aligned(t) <==> FileAligned(t.files[i])
  {
  }

  lemma ThreadAligned(l: Limits, s: Group, i: nat, m: Move)
    requires Invariant(l, s) && Aligned(s) && Enabled(l, s, FileMoves(i, m))
    ensures Aligned(Next(l, s, FileMoves(i, m))) <==> !Race(s, FileMoves(i, m))
  {
    MoveAligned(l, s, i, m);
    OneFileAligned(s, Next(l, s, FileMoves(i, m)), i);
  }

  /** From an aligned state, a step keeps alignment if and only if it is not a race. */
  lemma AlignedStep(l: Limits, s: Group, a: Action)
    requires Invariant(l, s) && Aligned(s) && Enabled(l, s, a)
    ensures Aligned(Next(l, s, a)) <==> !Race(s, a)
  {
    match a
    case FileMoves(i, m) => ThreadAligned(l, s, i, m);
    case PeerFails(_) =>
    case Consumer(accepted) =>
      if s.phase.Testing? { TestAligned(l, s); } else { OtherPhasesAligned(l, s, accepted); }
  }

  // ----- Whole runs -----

  ghost predicate RaceFree(l: Limits, s: Group, acts: seq<Action>)
    requires Runs(l, s, acts)
    decreases |acts|
  {
    acts != [] ==> !Race(s, acts[0]) && RaceFree(l, Next(l, s, acts[0]), acts[1..])
  }

  ghost predicate AlignedThroughout(l: Limits, s: Group, acts: seq<Action>)
    requires Runs(l, s, acts)
    decreases |acts|
  {
    Aligned(s) && (acts != [] ==> AlignedThroughout(l, Next(l, s, acts[0]), acts[1..]))
  }

  lemma {:induction false} AlignedRun(l: Limits, s: Group, acts: seq<Action>)
    requires Invariant(l, s) && Aligned(s) && Runs(l, s, acts)
    ensures AlignedThroughout(l, s, acts) <==> RaceFree(l, s, acts)
    ensures RaceFree(l, s, acts) ==> Aligned(After(l, s, acts))
    decreases |acts|
  {
    if acts != [] {
      AlignedStep(l, s, acts[0]);
      PipelineSafety.StepKeeps(l, s, acts[0]);
      if Race(s, acts[0]) {
        assert !Aligned(Next(l, s, acts[0]));
      } else {
        AlignedRun(l, Next(l, s, acts[0]), acts[1..]);
      }
    }
  }

  // ----- Aligned runs are in order -----

  lemma AlignedIsInOrder(l: Limits, s: Group)
    requires Invariant(l, s) && Aligned(s)
    ensures Ordering.InOrder(s)
  {
    forall i | 0 <= i < |s.files| ensures Ordering.FileInOrder(s, s.files[i]) {
      assert FileAligned(s.files[i]);
      Ordering.DrainsBehind(l, s, i);
      assert s.phase.Xoring? ==> s.Holds(i, s.phase.slot) && |Unread(s, i, s.phase.slot)| == 1;
    }
  }

  /** So a run without either race overtakes nowhere; the converse fails. */
  lemma RaceFreeIsOrderly(l: Limits, n: nat, acts: seq<Action>)
    requires n >= 1 && Runs(l, Initial(n), acts) && RaceFree(l, Initial(n), acts)
    ensures Ordering.OvertakeFree(l, Initial(n), acts)
  {
    PipelineSafety.InitialInvariant(l, n);
    PipelineSafety.RunKeeps(l, Initial(n), acts);
    AlignedRun(l, Initial(n), acts);
    AlignedIsInOrder(l, After(l, Initial(n), acts));
    Ordering.OrderRun(l, Initial(n), acts);
  }
}
