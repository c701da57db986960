/** The invariant holds in every state that any interleaving can reach. */
module PipelineSafety {
  import opened Slots
  import BufXor
  import opened Pipeline

  /** A move never touches a slot that its thread has settled. */
  lemma MoveLeavesSettled(l: Limits, p: Producer, m: Move, k: Index)
    requires Sound(l, p) && CanMove(l, p, m) && p.Settled(k)
    ensures Moved(l, p, m).Settled(k) && Moved(l, p, m).Get(k) == p.Get(k)
  {
  }

  /** Outside `Seal`, the sealed list stands still; outside `Count`, no slot becomes settled. */
  lemma MoveEffects(l: Limits, p: Producer, m: Move, k: Index)
    requires Sound(l, p) && CanMove(l, p, m)
    ensures !m.Seal? ==> Moved(l, p, m).sealed == p.sealed
    ensures !p.Settled(k) && Moved(l, p, m).Settled(k) ==> m.Count? && p.pc.slot == k
    ensures m.Count? ==> !p.Settled(p.pc.slot) && Moved(l, p, m).Settled(p.pc.slot)
    ensures !m.Seal? ==> (Moved(l, p, m).Get(k).flag.Sealed? <==> p.Get(k).flag.Sealed?)
    ensures p.Get(k).flag.Sealed? ==> Moved(l, p, m).Get(k) == p.Get(k)
  {
  }

  /** What a step that is not the consumer's does to file `i`. */
  lemma FileAfter(l: Limits, s: Group, a: Action, i: nat)
    requires Enabled(l, s, a) && !a.Consumer? && i < |s.files|
    ensures |Next(l, s, a).files| == |s.files|
    ensures Next(l, s, a).files[i] == if a.FileMoves? && a.file == i then Moved(l, s.files[i], a.move) else s.files[i]
  {
  }

  // ----- Producer steps -----

  lemma BitAfterMove(l: Limits, s: Group, i: nat, m: Move, k: Index)
    requires ProducersSound(l, s) && HeldSettled(s) && Enabled(l, s, FileMoves(i, m))
    ensures var t := Next(l, s, FileMoves(i, m));
            var counts := m.Count? && s.files[i].pc.slot == k;
            && t.Counted(i, k) == (s.Counted(i, k) || counts)
            && (counts ==> !s.Counted(i, k))
  {
    var p := s.files[i];
    MoveEffects(l, p, m, k);
    if p.Settled(k) { MoveLeavesSettled(l, p, m, k); }
    assert s.Holds(i, k) ==> p.Settled(k);
  }

  lemma OneBitChanges(s: Group, t: Group, i: nat, k: Index)
    requires i < |s.files| == |t.files| && t.phase == s.phase
    requires forall j :: 0 <= j < |s.files| && j != i ==> t.files[j] == s.files[j]
    ensures CountBits(t, k) == CountBits(s, k)[i := t.Counted(i, k)]
  {
    assert forall j :: 0 <= j < |s.files| && j != i ==> t.Counted(j, k) == s.Counted(j, k);
  }

  lemma ProducerKeepsCounters(l: Limits, s: Group, i: nat, m: Move)
    requires ProducersSound(l, s) && HeldSettled(s) && CountersAgree(s) && Enabled(l, s, FileMoves(i, m))
    ensures CountersAgree(Next(l, s, FileMoves(i, m)))
  {
    var t := Next(l, s, FileMoves(i, m));
    forall k: Index ensures t.Full(k) == Tally(CountBits(t, k)) {
      ProducerKeepsCounter(l, s, i, m, k);
    }
  }

  lemma ProducerKeepsCounter(l: Limits, s: Group, i: nat, m: Move, k: Index)
    requires ProducersSound(l, s) && HeldSettled(s) && Enabled(l, s, FileMoves(i, m))
    requires s.Full(k) == Tally(CountBits(s, k))
    ensures var t := Next(l, s, FileMoves(i, m)); t.Full(k) == Tally(CountBits(t, k))
  {
    var t := Next(l, s, FileMoves(i, m));
    BitAfterMove(l, s, i, m, k);
    OneBitChanges(s, t, i, k);
    TallyUpdate(CountBits(s, k), i, t.Counted(i, k));
  }

  /** Held slots stay settled when one thread moves on and leaves its settled slots settled. */
  lemma HeldSurvives(s: Group, t: Group, i: nat)
    requires HeldSettled(s) && i < |s.files| == |t.files| && t.phase == s.phase && t.drains == s.drains
    requires forall j :: 0 <= j < |s.files| && j != i ==> t.files[j] == s.files[j]
    requires forall k: Index :: s.files[i].Settled(k) ==> t.files[i].Settled(k)
    ensures HeldSettled(t)
  {
    forall j, k: Index | 0 <= j < |t.files| && t.Holds(j, k) ensures t.files[j].Settled(k) {
      assert s.Holds(j, k);
    }
  }

  lemma ProducerKeepsHeld(l: Limits, s: Group, i: nat, m: Move)
    requires ProducersSound(l, s) && HeldSettled(s) && Enabled(l, s, FileMoves(i, m))
    ensures HeldSettled(Next(l, s, FileMoves(i, m)))
  {
    forall k: Index | s.files[i].Settled(k) ensures Moved(l, s.files[i], m).Settled(k) {
      MoveLeavesSettled(l, s.files[i], m, k);
    }
    HeldSurvives(s, Next(l, s, FileMoves(i, m)), i);
  }

  /** One more chunk sealed into slot `q`, which was not sealed before: it is the one that waits. */
  lemma ChunkHandsOff(s: Group, t: Group, i: nat, q: Index, k: Index)
    requires i < |s.files| == |t.files| && t.phase == s.phase && t.drains == s.drains
    requires HandedOff(s, i, k) && !s.Holds(i, q) && !s.files[i].Get(q).flag.Sealed? && t.files[i].Get(q).flag.Sealed?
    requires t.files[i].sealed == s.files[i].sealed + [Chunk(q, t.files[i].Get(q).bytes)]
    requires k != q ==> t.files[i].Get(k) == s.files[i].Get(k)
    ensures HandedOff(t, i, k)
  {
    assert t.files[i].sealed[..|s.files[i].sealed|] == s.files[i].sealed;
  }

  lemma SealHandsOff(l: Limits, s: Group, i: nat, k: Index)
    requires ProducersSound(l, s) && HeldSettled(s) && Enabled(l, s, FileMoves(i, Seal))
    requires HandedOff(s, i, k)
    ensures HandedOff(Next(l, s, FileMoves(i, Seal)), i, k)
  {
    var q := s.files[i].pc.slot;
    assert s.Holds(i, q) ==> s.files[i].Settled(q);
    ChunkHandsOff(s, Next(l, s, FileMoves(i, Seal)), i, q, k);
  }

  /** Nothing sealed, and no sealed slot touched: what waits is what waited. */
  lemma SameHandOff(s: Group, t: Group, i: nat, k: Index)
    requires i < |s.files| == |t.files| && t.phase == s.phase && t.drains == s.drains && HandedOff(s, i, k)
    requires t.files[i].sealed == s.files[i].sealed
    requires t.files[i].Get(k).flag.Sealed? <==> s.files[i].Get(k).flag.Sealed?
    requires s.files[i].Get(k).flag.Sealed? ==> t.files[i].Get(k) == s.files[i].Get(k)
    ensures HandedOff(t, i, k)
  {
  }

  lemma MoveHandsOff(l: Limits, s: Group, i: nat, m: Move, k: Index)
    requires ProducersSound(l, s) && Enabled(l, s, FileMoves(i, m)) && !m.Seal?
    requires HandedOff(s, i, k)
    ensures HandedOff(Next(l, s, FileMoves(i, m)), i, k)
  {
    MoveEffects(l, s.files[i], m, k);
    SameHandOff(s, Next(l, s, FileMoves(i, m)), i, k);
  }

  lemma OthersUntouched(l: Limits, s: Group, i: nat, m: Move, j: nat, k: Index)
    requires Enabled(l, s, FileMoves(i, m)) && j < |s.files| && j != i
    requires HandedOff(s, j, k)
    ensures HandedOff(Next(l, s, FileMoves(i, m)), j, k)
  {
    SameHandOff(s, Next(l, s, FileMoves(i, m)), j, k);
  }

  lemma ProducerKeepsHandOff(l: Limits, s: Group, i: nat, m: Move)
    requires ProducersSound(l, s) && HeldSettled(s) && AllHandedOff(s)
    requires Enabled(l, s, FileMoves(i, m))
    ensures AllHandedOff(Next(l, s, FileMoves(i, m)))
  {
    var t := Next(l, s, FileMoves(i, m));
    assert |t.files| == |s.files|;
    forall j, k: Index | 0 <= j < |s.files| ensures HandedOff(t, j, k) {
      assert HandedOff(s, j, k);
      if j != i { OthersUntouched(l, s, i, m, j, k); }
      else if m.Seal? { SealHandsOff(l, s, i, k); }
      else { MoveHandsOff(l, s, i, m, k); }
    }
  }

  /** The output side depends on neither files nor counters. */
  lemma SameOutput(l: Limits, s: Group, t: Group)
    requires OutputAccounted(l, s) && EndAccounted(l, s) && |t.files| == |s.files|
    requires t == s.(files := t.files, full0 := t.full0, full1 := t.full1)
    ensures OutputAccounted(l, t) && EndAccounted(l, t)
  {
  }

  lemma ProducerKeepsSound(l: Limits, s: Group, i: nat, m: Move)
    requires ProducersSound(l, s) && Enabled(l, s, FileMoves(i, m))
    ensures ProducersSound(l, Next(l, s, FileMoves(i, m)))
  {
    MoveKeepsSound(l, s.files[i], m);
    var q := Moved(l, s.files[i], m);
    assert Next(l, s, FileMoves(i, m)).files == s.files[i := q];
  }

  lemma ProducerKeeps(l: Limits, s: Group, i: nat, m: Move)
    requires Invariant(l, s) && Enabled(l, s, FileMoves(i, m))
    ensures Invariant(l, Next(l, s, FileMoves(i, m)))
  {
    ProducerKeepsSound(l, s, i, m);
    ProducerKeepsCounters(l, s, i, m);
    ProducerKeepsHeld(l, s, i, m);
    ProducerKeepsHandOff(l, s, i, m);
    SameOutput(l, s, Next(l, s, FileMoves(i, m)));
  }

  // ----- Consumer steps -----

  /** What the counters see of two states that agree on which files are counted. */
  lemma SameCounts(s: Group, t: Group)
    requires CountersAgree(s) && |t.files| == |s.files| && t.full0 == s.full0 && t.full1 == s.full1
    requires forall i, k: Index :: 0 <= i < |s.files| ==> t.Counted(i, k) == s.Counted(i, k)
    ensures CountersAgree(t)
  {
    forall k: Index ensures t.Full(k) == Tally(CountBits(t, k)) {
      assert CountBits(t, k) == CountBits(s, k);
    }
  }

  /** Steps that move only the phase, to one that holds nothing new, or record a fault. */
  lemma QuietStepKeeps(s: Group, t: Group)
    requires CountersAgree(s) && HeldSettled(s) && AllHandedOff(s)
    requires t.files == s.files && t.full0 == s.full0 && t.full1 == s.full1 && t.drains == s.drains
    requires t.phase == s.phase || !s.phase.Clearing?
    requires t.phase == s.phase || t.phase.Testing? || t.phase.LoopTest? || t.phase.Deciding? || t.phase.Returned?
    requires t.phase != s.phase ==> !s.phase.Resetting? && !s.phase.Clearing?
    ensures CountersAgree(t) && HeldSettled(t) && AllHandedOff(t)
  {
    SameCounts(s, t);
    forall i, k: Index | 0 <= i < |s.files| ensures HandedOff(t, i, k) {
      assert HandedOff(s, i, k);
    }
    forall i, k: Index | 0 <= i < |t.files| && t.Holds(i, k) ensures t.files[i].Settled(k) {
      assert s.Holds(i, k);
    }
  }

  /** A counter that reads N hands all N slots to the consumer. */
  lemma TestKeeps(l: Limits, s: Group)
    requires CountersAgree(s) && HeldSettled(s) && AllHandedOff(s) && s.files != [] && s.phase.Testing?
    ensures var t := Consumed(l, s, 0); CountersAgree(t) && HeldSettled(t) && AllHandedOff(t)
  {
    var t := Consumed(l, s, 0);
    if !t.phase.Xoring? {
      QuietStepKeeps(s, t);
    } else {
      SameCounts(s, t);
      TallyExtremes(CountBits(s, s.phase.slot));
      forall i, k: Index | 0 <= i < |t.files| && t.Holds(i, k) ensures t.files[i].Settled(k) {
        assert CountBits(s, k)[i];
      }
      forall i, k: Index | 0 <= i < |t.files| ensures HandedOff(t, i, k) {
        assert HandedOff(s, i, k);
      }
    }
  }

  lemma TakenAppend(drains: seq<Drain>, d: Drain, k: Index, i: nat)
    ensures Taken(drains + [d], k, i) ==
            Taken(drains, k, i) + if d.slot == k && i < |d.inputs| then [d.inputs[i]] else []
    ensures Emitted(drains + [d]) == Emitted(drains) + d.emitted
  {
    assert (drains + [d])[..|drains|] == drains;
  }

  /** The XOR only rewrites the bytes of one settled slot of file 0. */
  lemma XorTouchesBytesOnly(l: Limits, s: Group, accepted: nat, i: nat, q: Index)
    requires s.files != [] && s.phase.Xoring? && i < |s.files|
    ensures var t := Consumed(l, s, accepted);
            && t.files[i].Settled(q) == s.files[i].Settled(q)
            && t.Counted(i, q) == s.Counted(i, q)
            && t.Holds(i, q) == s.Holds(i, q)
            && t.files[i].sealed == s.files[i].sealed
            && (q != s.phase.slot ==> Unread(t, i, q) == Unread(s, i, q))
  {
  }

  lemma XorHandsOff(l: Limits, s: Group, accepted: nat, i: nat, q: Index)
    requires s.files != [] && s.phase.Xoring? && i < |s.files| && HandedOff(s, i, q)
    requires s.files[i].Settled(s.phase.slot)
    ensures HandedOff(Consumed(l, s, accepted), i, q)
  {
    var t := Consumed(l, s, accepted);
    var d := Drain(s.phase.slot, s.Buffers(s.phase.slot), BufXor.XorOutcome(s.Buffers(s.phase.slot), accepted).emitted);
    assert t.drains == s.drains + [d];
    TakenAppend(s.drains, d, q, i);
    XorTouchesBytesOnly(l, s, accepted, i, q);
    assert t.Spent(i, s.phase.slot);
  }

  lemma XorKeepsHandOff(l: Limits, s: Group, accepted: nat)
    requires s.files != [] && HeldSettled(s) && AllHandedOff(s) && s.phase.Xoring?
    ensures AllHandedOff(Consumed(l, s, accepted))
  {
    var t := Consumed(l, s, accepted);
    assert |t.files| == |s.files|;
    forall i, q: Index | 0 <= i < |s.files| ensures HandedOff(t, i, q) {
      assert HandedOff(s, i, q);
      assert s.Holds(i, s.phase.slot);
      XorHandsOff(l, s, accepted, i, q);
    }
  }

  lemma XorKeepsSound(l: Limits, s: Group, accepted: nat)
    requires ProducersSound(l, s) && HeldSettled(s) && s.phase.Xoring?
    ensures ProducersSound(l, Consumed(l, s, accepted))
  {
    var k := s.phase.slot;
    assert s.Holds(0, k);
    OverwriteKeepsSound(l, s.files[0], k, BufXor.XorOutcome(s.Buffers(k), accepted).first);
  }

  lemma XorKeepsCounters(l: Limits, s: Group, accepted: nat)
    requires s.files != [] && HeldSettled(s) && CountersAgree(s) && s.phase.Xoring?
    ensures CountersAgree(Consumed(l, s, accepted))
    ensures HeldSettled(Consumed(l, s, accepted))
  {
    var t := Consumed(l, s, accepted);
    forall i, q: Index | 0 <= i < |s.files|
      ensures t.Counted(i, q) == s.Counted(i, q) && (t.Holds(i, q) ==> t.files[i].Settled(q))
    {
      XorTouchesBytesOnly(l, s, accepted, i, q);
      assert s.Holds(i, q) ==> s.files[i].Settled(q);
    }
    SameCounts(s, t);
  }

  lemma ReadAppend(drains: seq<Drain>, d: Drain)
    ensures ReadSize(drains + [d]) == ReadSize(drains) + if d.inputs == [] then 0 else |d.inputs[0]|
  {
    assert (drains + [d])[..|drains|] == drains;
  }

  lemma OneMoreDrain(l: Limits, s: Group, t: Group, d: Drain)
    requires OutputAccounted(l, s) && |t.files| == |s.files| == |d.inputs| && d.inputs != []
    requires t.drains == s.drains + [d] && t.outFile == s.outFile + d.emitted && (t.failed <==> t.faults != [])
    requires !t.failed ==> !s.failed && GoodDrain(d) && t.xorSize == s.xorSize + |d.inputs[0]|
    ensures OutputAccounted(l, t)
  {
    TakenAppend(s.drains, d, 0, 0);
    ReadAppend(s.drains, d);
  }

  lemma XorKeepsOutput(l: Limits, s: Group, accepted: nat)
    requires s.files != [] && OutputAccounted(l, s) && s.phase.Xoring?
    ensures OutputAccounted(l, Consumed(l, s, accepted))
  {
    var t := Consumed(l, s, accepted);
    var d := t.drains[|s.drains|];
    assert !t.failed ==> BufXor.SizesMatch(d.inputs) && GoodDrain(d);
    OneMoreDrain(l, s, t, d);
  }

  lemma ConsumerKeepsOutput(l: Limits, s: Group, accepted: nat)
    requires s.files != [] && OutputAccounted(l, s) && !s.phase.Returned?
    ensures OutputAccounted(l, Consumed(l, s, accepted))
  {
    if s.phase.Xoring? {
      XorKeepsOutput(l, s, accepted);
    } else {
      var t := Consumed(l, s, accepted);
      assert |t.files| == |s.files| && t.drains == s.drains && t.outFile == s.outFile && t.xorSize == s.xorSize;
    }
  }

  lemma ResetKeeps(l: Limits, s: Group)
    requires s.files != [] && CountersAgree(s) && HeldSettled(s) && AllHandedOff(s) && s.phase.Resetting?
    ensures var t := Consumed(l, s, 0); CountersAgree(t) && HeldSettled(t) && AllHandedOff(t)
  {
    var t := Consumed(l, s, 0);
    forall q: Index ensures t.Full(q) == Tally(CountBits(t, q)) {
      ResetKeepsCounter(l, s, q);
    }
    forall i, q: Index | 0 <= i < |s.files|
      ensures HandedOff(t, i, q) && (t.Holds(i, q) ==> t.files[i].Settled(q))
    {
      assert HandedOff(s, i, q);
      assert t.Holds(i, q) == s.Holds(i, q);
    }
  }

  lemma ResetKeepsCounter(l: Limits, s: Group, q: Index)
    requires s.files != [] && CountersAgree(s) && s.phase.Resetting?
    ensures var t := Consumed(l, s, 0); t.Full(q) == Tally(CountBits(t, q))
  {
    var t := Consumed(l, s, 0);
    if q == s.phase.slot {
      TallyExtremes(CountBits(t, q));
    } else {
      assert CountBits(t, q) == CountBits(s, q);
    }
  }

  /** Clearing one flag: the counters and the other files do not notice. */
  lemma ClearTouchesOne(l: Limits, s: Group, i: nat, q: Index)
    requires s.files != [] && HeldSettled(s) && s.phase.Clearing? && i < |s.files|
    ensures var t := Consumed(l, s, 0);
            && t.Counted(i, q) == s.Counted(i, q)
            && (t.Holds(i, q) ==> s.Holds(i, q) && t.files[i] == s.files[i])
            && Unread(t, i, q) == Unread(s, i, q)
            && t.files[i].sealed == s.files[i].sealed
  {
    assert s.Holds(i, q) ==> s.files[i].Settled(q);
  }

  lemma ClearKeeps(l: Limits, s: Group)
    requires s.files != [] && CountersAgree(s) && HeldSettled(s) && AllHandedOff(s) && s.phase.Clearing?
    ensures var t := Consumed(l, s, 0); CountersAgree(t) && HeldSettled(t) && AllHandedOff(t)
  {
    var t := Consumed(l, s, 0);
    assert |t.files| == |s.files| && t.drains == s.drains;
    forall i, q: Index | 0 <= i < |s.files|
      ensures t.Counted(i, q) == s.Counted(i, q) && HandedOff(t, i, q) && (t.Holds(i, q) ==> t.files[i].Settled(q))
    {
      ClearTouchesOne(l, s, i, q);
      assert HandedOff(s, i, q);
      assert s.Holds(i, q) ==> s.files[i].Settled(q);
    }
    SameCounts(s, t);
  }

  lemma ConsumerKeepsEnd(l: Limits, s: Group, accepted: nat)
    requires s.files != [] && EndAccounted(l, s) && !s.phase.Returned?
    ensures EndAccounted(l, Consumed(l, s, accepted))
  {
  }

  lemma ConsumerKeepsSound(l: Limits, s: Group, accepted: nat)
    requires ProducersSound(l, s) && HeldSettled(s) && !s.phase.Returned?
    ensures ProducersSound(l, Consumed(l, s, accepted))
  {
    match s.phase
    case Xoring(_) => XorKeepsSound(l, s, accepted);
    case Clearing(k, j) =>
      assert s.Holds(j, k);
      ClearKeepsSound(l, s.files[j], k);
    case _ =>
  }

  /** What the consumer's step keeps of counters, held slots and hand-off, phase by phase. */
  lemma ConsumerKeepsHandOff(l: Limits, s: Group, accepted: nat)
    requires s.files != [] && CountersAgree(s) && HeldSettled(s) && AllHandedOff(s) && !s.phase.Returned?
    ensures var t := Consumed(l, s, accepted); CountersAgree(t) && HeldSettled(t) && AllHandedOff(t)
  {
    match s.phase
    case Testing(_) => TestKeeps(l, s);
    case Xoring(_) =>
      XorKeepsHandOff(l, s, accepted);
      XorKeepsCounters(l, s, accepted);
    case Resetting(_) => ResetKeeps(l, s);
    case Clearing(_, _) => ClearKeeps(l, s);
    case LoopTest => QuietStepKeeps(s, Consumed(l, s, accepted));
    case Deciding => QuietStepKeeps(s, Consumed(l, s, accepted));
  }

  lemma ConsumerKeeps(l: Limits, s: Group, accepted: nat)
    requires Invariant(l, s) && !s.phase.Returned?
    ensures Invariant(l, Consumed(l, s, accepted))
  {
    ConsumerKeepsSound(l, s, accepted);
    ConsumerKeepsHandOff(l, s, accepted);
    ConsumerKeepsOutput(l, s, accepted);
    ConsumerKeepsEnd(l, s, accepted);
  }

  /** As many bytes were written as were counted exactly if no write was cut short. */
  lemma {:induction false} EmittedSize(drains: seq<Drain>)
    requires forall d :: 0 <= d < |drains| ==> GoodDrain(drains[d])
    ensures |Emitted(drains)| <= ReadSize(drains)
    ensures |Emitted(drains)| == ReadSize(drains) <==> AllWhole(drains)
  {
    if drains != [] {
      var n := |drains| - 1;
      EmittedSize(drains[..n]);
      assert GoodDrain(drains[n]);
      assert AllWhole(drains) <==> AllWhole(drains[..n]) && Whole(drains[n]) by {
        assert forall d :: 0 <= d < n ==> drains[..n][d] == drains[d];
      }
    }
  }

  /** Every step of every interleaving. */
  lemma StepKeeps(l: Limits, s: Group, a: Action)
    requires Invariant(l, s) && Enabled(l, s, a)
    ensures Invariant(l, Next(l, s, a))
  {
    match a
    case FileMoves(i, m) => ProducerKeeps(l, s, i, m);
    case PeerFails(i) => QuietStepKeeps(s, Next(l, s, a));
    case Consumer(accepted) => ConsumerKeeps(l, s, accepted);
  }

  lemma InitialInvariant(l: Limits, n: nat)
    requires n >= 1
    ensures Invariant(l, Initial(n))
  {
    var s := Initial(n);
    forall k: Index ensures s.Full(k) == Tally(CountBits(s, k)) {
      TallyExtremes(CountBits(s, k));
    }
  }

  /** Every state of every run. */
  lemma {:induction false} RunKeeps(l: Limits, s: Group, acts: seq<Action>)
    requires Invariant(l, s) && Runs(l, s, acts)
    ensures Invariant(l, After(l, s, acts))
    decreases |acts|
  {
    if acts != [] {
      StepKeeps(l, s, acts[0]);
      RunKeeps(l, Next(l, s, acts[0]), acts[1..]);
    }
  }
}
