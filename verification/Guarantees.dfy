/** The results, stated for runs of the pipeline from its initial state. */
module Guarantees {
  import Arithmetic
  import opened Bytes
  import opened Slots
  import opened Pipeline
  import opened PipelineSafety
  import opened Ordering
  import opened Alignment
  import opened Delivery
  import Promptness
  import opened Progress
  import Completion

  // ----- Any interleaving -----

  /**
   * Exclusive ownership: a step that changes slot `k` of file `i` is either that file's own thread,
   * while the slot is neither settled nor held, or the consumer, while it holds the slot.
   */
  lemma Ownership(l: Limits, s: Group, a: Action, i: nat, k: Index)
    requires Invariant(l, s) && Enabled(l, s, a) && i < |s.files|
    ensures |Next(l, s, a).files| == |s.files|
    ensures var before, after := s.files[i].Get(k), Next(l, s, a).files[i].Get(k);
            after != before ==>
              || (a.FileMoves? && a.file == i && !s.Holds(i, k) && !before.flag.Sealed?)
              || (a.Consumer? && s.Holds(i, k) && before.flag.Sealed? && !after.flag.Writable?)
    ensures a.FileMoves? && a.move.Fill? && Next(l, s, a).files[i].Get(k) != s.files[i].Get(k)
            ==> s.files[i].Get(k).flag.Writable?
    ensures s.phase == Xoring(k) ==> forall j :: 0 <= j < |s.files| ==> s.files[j].Settled(k)
  {
    assert s.phase == Xoring(k) ==> forall j :: 0 <= j < |s.files| ==> s.Holds(j, k);
    if a.Consumer? {
      ConsumerTouches(l, s, a.accepted, i, k);
    } else {
      FileAfter(l, s, a, i);
      if a.FileMoves? && a.file == i { ThreadTouches(l, s, i, a.move, k); }
    }
  }

  lemma ThreadTouches(l: Limits, s: Group, i: nat, m: Move, k: Index)
    requires ProducersSound(l, s) && HeldSettled(s) && i < |s.files| && CanMove(l, s.files[i], m)
    ensures Moved(l, s.files[i], m).Get(k) != s.files[i].Get(k) ==> !s.Holds(i, k) && !s.files[i].Get(k).flag.Sealed?
    ensures m.Fill? && Moved(l, s.files[i], m).Get(k) != s.files[i].Get(k) ==> s.files[i].Get(k).flag.Writable?
  {
    MoveEffects(l, s.files[i], m, k);
    assert s.Holds(i, k) ==> s.files[i].Settled(k);
  }

  lemma ConsumerTouches(l: Limits, s: Group, accepted: nat, i: nat, k: Index)
    requires s.files != [] && HeldSettled(s) && !s.phase.Returned? && i < |s.files|
    ensures var before, after := s.files[i].Get(k), Consumed(l, s, accepted).files[i].Get(k);
            after != before ==> s.Holds(i, k) && before.flag.Sealed? && !after.flag.Writable?
  {
    assert s.Holds(i, k) ==> s.files[i].Settled(k);
  }

  /** The counter the consumer tests is the number of files that sealed and counted since the last clear. */
  lemma CounterAgreement(l: Limits, n: nat, acts: seq<Action>, k: Index)
    requires n >= 1 && Runs(l, Initial(n), acts)
    ensures var s := After(l, Initial(n), acts);
            && |s.files| == n
            && s.Full(k) == Tally(CountBits(s, k)) <= n
            && (s.Full(k) == n <==> forall i :: 0 <= i < n ==> s.Counted(i, k))
  {
    InitialInvariant(l, n);
    RunKeeps(l, Initial(n), acts);
    FileCountStays(l, Initial(n), acts);
    var s := After(l, Initial(n), acts);
    TallyExtremes(CountBits(s, k));
    if s.Full(k) == n {
      forall i | 0 <= i < n ensures s.Counted(i, k) { assert CountBits(s, k)[i]; }
    }
  }

  lemma {:induction false} FileCountStays(l: Limits, s: Group, acts: seq<Action>)
    requires Runs(l, s, acts)
    ensures |After(l, s, acts).files| == |s.files|
    decreases |acts|
  {
    if acts != [] { FileCountStays(l, Next(l, s, acts[0]), acts[1..]); }
  }

  /** Conservation: sealed chunks, then the open slot, then the carried rest, spell out the bytes fed. */
  lemma Conservation(l: Limits, n: nat, acts: seq<Action>, i: nat)
    requires n >= 1 && i < n && Runs(l, Initial(n), acts)
    ensures |After(l, Initial(n), acts).files| == n
    ensures var p := After(l, Initial(n), acts).files[i];
            && Bounded(l, p)
            && !(p.slot0.flag.Writable? && p.slot1.flag.Writable?)
            && Concat(Contents(p.sealed)) + p.OpenBytes() + p.Carried() == p.fed
  {
    InitialInvariant(l, n);
    RunKeeps(l, Initial(n), acts);
    FileCountStays(l, Initial(n), acts);
    assert Sound(l, After(l, Initial(n), acts).files[i]);
  }

  /** Exactly once: per file and slot, what was sealed is what XOR calls took, then what still waits. */
  lemma ExactlyOnce(l: Limits, n: nat, acts: seq<Action>, i: nat, k: Index)
    requires n >= 1 && i < n && Runs(l, Initial(n), acts)
    ensures |After(l, Initial(n), acts).files| == n
    ensures var s := After(l, Initial(n), acts);
            InSlot(s.files[i].sealed, k) == Taken(s.drains, k, i) + Unread(s, i, k)
  {
    InitialInvariant(l, n);
    RunKeeps(l, Initial(n), acts);
    FileCountStays(l, Initial(n), acts);
    assert HandedOff(After(l, Initial(n), acts), i, k);
  }

  /**
   * The verdict is RIGHT exactly when no fault was recorded. Then `size` bytes were XORed, each call
   * wrote the start of the XOR of what it read, and the file is complete exactly if no unchecked write
   * was cut short.
   */
  lemma VerdictSound(l: Limits, n: nat, acts: seq<Action>, accepted: nat)
    requires n >= 1 && Runs(l, Initial(n), acts)
    requires After(l, Initial(n), acts).phase.Deciding?
    requires Enabled(l, After(l, Initial(n), acts), Consumer(accepted))
    ensures var s := After(l, Initial(n), acts);
            var t := Next(l, s, Consumer(accepted));
            && (t.phase == Returned(Right) <==> s.faults == [])
            && (s.faults == [] ==>
                  && t.xorSize == l.size == ReadSize(t.drains) && t.outFile == Emitted(t.drains)
                  && (forall d :: 0 <= d < |t.drains| ==> GoodDrain(t.drains[d]))
                  && (|t.outFile| == l.size <==> AllWhole(t.drains)))
  {
    InitialInvariant(l, n);
    RunKeeps(l, Initial(n), acts);
    var s := After(l, Initial(n), acts);
    if s.faults == [] { EmittedSize(s.drains); }
  }

  // ----- Peers that deliver -----

  ghost predicate DeliversRun(l: Limits, streams: seq<seq<byte>>, s: Group, acts: seq<Action>)
    requires Runs(l, s, acts)
    decreases |acts|
  {
    acts != [] ==> Delivers(l, streams, s, acts[0]) && DeliversRun(l, streams, Next(l, s, acts[0]), acts[1..])
  }

  /** No peer fails. */
  ghost predicate NothingFails(acts: seq<Action>) {
    forall a: Action :: a in acts ==> !a.PeerFails?
  }

  lemma {:induction false} RunDelivers(l: Limits, streams: seq<seq<byte>>, s: Group, acts: seq<Action>)
    requires Invariant(l, s) && Delivered(l, streams, s) && Runs(l, s, acts) && DeliversRun(l, streams, s, acts)
    ensures Delivered(l, streams, After(l, s, acts))
    decreases |acts|
  {
    if acts != [] {
      StepKeeps(l, s, acts[0]);
      StepKeepsDelivered(l, streams, s, acts[0]);
      RunDelivers(l, streams, Next(l, s, acts[0]), acts[1..]);
    }
  }

  /**
   * Fragmentation does not matter: under any interleaving and any split into fragments of at most
   * `cap` bytes, what a file seals is its stream cut every `cap` bytes, ceil(size/cap) pieces in all.
   */
  lemma FragmentationIndependence(l: Limits, streams: seq<seq<byte>>, acts: seq<Action>, i: nat)
    requires Streams(l, streams) && i < |streams|
    requires Runs(l, Initial(|streams|), acts) && DeliversRun(l, streams, Initial(|streams|), acts)
    ensures |After(l, Initial(|streams|), acts).files| == |streams|
    ensures var p := After(l, Initial(|streams|), acts).files[i];
            && (forall g :: 0 <= g < |p.sealed| ==>
                  g * l.cap < l.size && p.sealed[g].bytes == Generation(streams[i], l.cap, g))
            && (p.pc.Idle? && p.fed == streams[i] ==>
                  |p.sealed| == Generations(l) && Concat(Contents(p.sealed)) == streams[i])
  {
    var s := After(l, Initial(|streams|), acts);
    InitialReached(l, streams);
    RunKeeps(l, Initial(|streams|), acts);
    RunDelivers(l, streams, Initial(|streams|), acts);
    var p := s.files[i];
    assert Sound(l, p) && FullChunks(l, streams[i], p);
    SealedGenerations(l, streams[i], p);
    if p.pc.Idle? && p.fed == streams[i] { FinishedCount(l, streams[i], p); }
  }

  // ----- Runs in order -----

  /**
   * The XOR calls of a run take the generations in the order 0, 1, 2, ... from every file if and only if
   * the consumer never takes a slot past an older sealed one.
   */
  lemma InOrderIffNoOvertake(l: Limits, n: nat, acts: seq<Action>)
    requires n >= 1 && Runs(l, Initial(n), acts)
    ensures InOrder(After(l, Initial(n), acts)) <==> OvertakeFree(l, Initial(n), acts)
  {
    InitialInvariant(l, n);
    OrderRun(l, Initial(n), acts);
  }

  lemma {:induction false} NoMismatch(l: Limits, streams: seq<seq<byte>>, s: Group, acts: seq<Action>)
    requires Invariant(l, s) && InOrder(s) && Delivered(l, streams, s) && SizeMismatch !in s.faults
    requires Runs(l, s, acts) && DeliversRun(l, streams, s, acts) && OvertakeFree(l, s, acts)
    ensures SizeMismatch !in After(l, s, acts).faults
    decreases |acts|
  {
    if acts != [] {
      var a := acts[0];
      StepKeeps(l, s, a);
      StepKeepsDelivered(l, streams, s, a);
      OrderStep(l, s, a);
      NextFaults(l, streams, s, a);
      NoMismatch(l, streams, Next(l, s, a), acts[1..]);
    }
  }

  lemma NextFaults(l: Limits, streams: seq<seq<byte>>, s: Group, a: Action)
    requires Invariant(l, s) && InOrder(s) && Delivered(l, streams, s) && Enabled(l, s, a)
    requires SizeMismatch !in s.faults
    ensures SizeMismatch !in Next(l, s, a).faults
  {
    if a.Consumer? && s.phase.Xoring? { SizesAlwaysMatch(l, streams, s); }
  }

  /** A run in order, from peers that deliver `streams`: what it has recorded and written so far. */
  ghost predicate WritesInOrder(l: Limits, streams: seq<seq<byte>>, s: Group)
    requires SameLength(streams)
  {
    && SizeMismatch !in s.faults
    && (s.faults == [] ==>
          && CountsGenerations(l, s)
          && (HoldsXor(streams, s.xorSize, s.outFile) <==> AllWhole(s.drains)))
  }

  /**
   * Without an overtake, `xor_size` is at every moment min(D*cap, size), D the calls so far, and the
   * output file is that much of the XOR of the N streams, exactly if no unchecked write was cut short;
   * the size check never fails.
   */
  lemma OrderlyOutput(l: Limits, streams: seq<seq<byte>>, acts: seq<Action>)
    requires Streams(l, streams)
    requires Runs(l, Initial(|streams|), acts) && DeliversRun(l, streams, Initial(|streams|), acts)
    requires OvertakeFree(l, Initial(|streams|), acts)
    ensures SameLength(streams) && WritesInOrder(l, streams, After(l, Initial(|streams|), acts))
  {
    var s0 := Initial(|streams|);
    InitialReached(l, streams);
    RunKeeps(l, s0, acts);
    RunDelivers(l, streams, s0, acts);
    OrderRun(l, s0, acts);
    NoMismatch(l, streams, s0, acts);
    var s := After(l, s0, acts);
    if s.faults == [] { OutputIsPrefix(l, streams, s); }
  }

  // ----- Slots taken in turn -----

  /** Generation g sits in slot g mod 2, and slots are taken in turn, exactly in the runs without a race. */
  lemma AlignedIffRaceFree(l: Limits, n: nat, acts: seq<Action>)
    requires n >= 1 && Runs(l, Initial(n), acts)
    ensures AlignedThroughout(l, Initial(n), acts) <==> RaceFree(l, Initial(n), acts)
  {
    InitialInvariant(l, n);
    AlignedRun(l, Initial(n), acts);
  }

  // ----- Prompt runs -----

  ghost predicate PromptRun(l: Limits, s: Group, acts: seq<Action>)
    requires Runs(l, s, acts)
    decreases |acts|
  {
    acts != [] ==> Promptness.Prompt(s, acts[0]) && PromptRun(l, Next(l, s, acts[0]), acts[1..])
  }

  /** H1-H3 rule out both races, whatever fails. */
  lemma {:induction false} PromptIsRaceFree(l: Limits, streams: seq<seq<byte>>, s: Group, acts: seq<Action>)
    requires Invariant(l, s) && Delivered(l, streams, s) && Promptness.PromptState(s)
    requires Runs(l, s, acts) && DeliversRun(l, streams, s, acts) && PromptRun(l, s, acts)
    ensures RaceFree(l, s, acts)
    decreases |acts|
  {
    if acts != [] {
      Promptness.PromptHasNoRace(l, s, acts[0]);
      StepKeeps(l, s, acts[0]);
      StepKeepsDelivered(l, streams, s, acts[0]);
      Promptness.StepStaysPrompt(l, streams, s, acts[0]);
      PromptIsRaceFree(l, streams, Next(l, s, acts[0]), acts[1..]);
    }
  }

  /** So every prompt run keeps its slots in turn and writes the XOR generation by generation. */
  lemma PromptOutput(l: Limits, streams: seq<seq<byte>>, acts: seq<Action>)
    requires Streams(l, streams)
    requires Runs(l, Initial(|streams|), acts) && DeliversRun(l, streams, Initial(|streams|), acts)
    requires PromptRun(l, Initial(|streams|), acts)
    ensures AlignedThroughout(l, Initial(|streams|), acts)
    ensures OvertakeFree(l, Initial(|streams|), acts)
    ensures SameLength(streams) && WritesInOrder(l, streams, After(l, Initial(|streams|), acts))
  {
    InitialReached(l, streams);
    PromptIsRaceFree(l, streams, Initial(|streams|), acts);
    AlignedIffRaceFree(l, |streams|, acts);
    RaceFreeIsOrderly(l, |streams|, acts);
    OrderlyOutput(l, streams, acts);
  }

  lemma {:induction false} LawfulReaches(l: Limits, streams: seq<seq<byte>>, s: Group, acts: seq<Action>)
    requires Reached(l, streams, s) && LawfulRun(l, streams, s, acts) && Runs(l, s, acts)
    ensures Reached(l, streams, After(l, s, acts))
    ensures Work(l, After(l, s, acts)) + ProductiveSteps(l, s, acts) <= Work(l, s)
    decreases |acts|
  {
    if acts != [] {
      StepReaches(l, streams, s, acts[0]);
      LawfulReaches(l, streams, Next(l, s, acts[0]), acts[1..]);
    }
  }

  ghost function ProductiveSteps(l: Limits, s: Group, acts: seq<Action>): nat
    requires Runs(l, s, acts)
    decreases |acts|
  {
    if acts == [] then 0
    else (if Productive(s, acts[0]) then 1 else 0) + ProductiveSteps(l, Next(l, s, acts[0]), acts[1..])
  }

  /**
   * A prompt run without failures makes a bounded number of productive steps; if it has returned, the
   * verdict is RIGHT, after exactly ceil(size/cap) drains, with the whole XOR in the output file;
   * and if it has not, it can be continued until it does.
   */
  lemma PromptCompletion(l: Limits, streams: seq<seq<byte>>, acts: seq<Action>) returns (more: seq<Action>)
    requires Streams(l, streams)
    requires LawfulRun(l, streams, Initial(|streams|), acts) && Runs(l, Initial(|streams|), acts)
    ensures SameLength(streams)
    ensures ProductiveSteps(l, Initial(|streams|), acts) <= Work(l, Initial(|streams|))
    ensures var s := After(l, Initial(|streams|), acts);
            s.phase.Returned? ==>
              s.phase == Returned(Right) && s.outFile == XorAll(streams) && |s.drains| == Generations(l)
    ensures LawfulRun(l, streams, Initial(|streams|), acts + more) && Runs(l, Initial(|streams|), acts + more)
    ensures After(l, Initial(|streams|), acts + more).phase == Returned(Right)
  {
    var s0 := Initial(|streams|);
    InitialReached(l, streams);
    LawfulReaches(l, streams, s0, acts);
    var s := After(l, s0, acts);
    if s.phase.Returned? { ReturnedIsComplete(l, streams, s); }
    more := Completion.CanFinish(l, streams, s);
    Completion.RunsAppend(l, streams, s0, acts, more);
  }

  lemma ReturnedIsComplete(l: Limits, streams: seq<seq<byte>>, s: Group)
    requires Reached(l, streams, s) && s.phase.Returned?
    ensures SameLength(streams)
    ensures s.phase == Returned(Right) && s.outFile == XorAll(streams) && |s.drains| == Generations(l)
  {
    OutputIsPrefix(l, streams, s);
    DrainsBounded(l, streams, s);
    if |s.drains| < Generations(l) { BelowGenerations(l, |s.drains|); }
  }

  lemma BelowGenerations(l: Limits, n: nat)
    requires l.cap > 0 && n < Generations(l)
    ensures n * l.cap < l.size
  {
    Arithmetic.DivBounds(l.size + l.cap - 1, l.cap);
    Arithmetic.MulMono(n + 1, Generations(l), l.cap);
    assert (n + 1) * l.cap == n * l.cap + l.cap;
  }

  // ----- Nothing happens after the return -----

  /** All of the file has been received and sealed, and its slots have been given back. */
  lemma NothingWaits(l: Limits, streams: seq<seq<byte>>, s: Group, i: nat)
    requires Reached(l, streams, s) && s.phase.Returned? && i < |s.files|
    ensures |s.files[i].sealed| == Generations(l)
    ensures !s.files[i].slot0.flag.Sealed? && !s.files[i].slot1.flag.Sealed?
  {
    var p := s.files[i];
    assert Sound(l, p) && FullChunks(l, streams[i], p);
    ReturnedIsComplete(l, streams, s);
    DrainsBehind(l, s, i);
    SealedGenerations(l, streams[i], p);
    BelowCeiling(l, |p.sealed| - 1);
    assert !s.Spent(i, 0) && !s.Spent(i, 1);
  }

  lemma LastGeneration(stream: seq<byte>, cap: nat, n: nat)
    requires n > 0 && (n - 1) * cap <= |stream| <= n * cap
    ensures (n - 1) * cap + |Generation(stream, cap, n - 1)| == |stream|
  {
    assert (n - 1) * cap + cap == n * cap;
  }

  /** All generations together are the stream. */
  lemma GenerationsSpell(chunks: seq<Chunk>, cap: nat, stream: seq<byte>, n: nat)
    requires |chunks| == n > 0 && (n - 1) * cap <= |stream| <= n * cap
    requires Concat(Contents(chunks)) <= stream
    requires forall g :: 0 <= g < n - 1 ==> |chunks[g].bytes| == cap
    requires chunks[n - 1].bytes == Generation(stream, cap, n - 1)
    ensures Concat(Contents(chunks)) == stream
  {
    ChunkPlace(chunks, cap, stream, n - 1);
    LastGeneration(stream, cap, n);
  }

  /** ceil(size/cap) chunks are the whole stream. */
  lemma AllSealed(l: Limits, stream: seq<byte>, p: Producer)
    requires l.cap > 0 && l.size > 0 && Sound(l, p) && FullChunks(l, stream, p) && |p.sealed| == Generations(l)
    ensures p.fed == stream && p.OpenBytes() == [] && p.Carried() == []
  {
    var whole := Concat(Contents(p.sealed));
    CeilingCovers(l, |p.sealed|);
    SealedGenerations(l, stream, p);
    NothingMore(whole, p.OpenBytes(), p.Carried(), p.fed, stream);
    GenerationsSpell(p.sealed, l.cap, stream, |p.sealed|);
  }

  lemma NothingMore(a: seq<byte>, b: seq<byte>, c: seq<byte>, fed: seq<byte>, stream: seq<byte>)
    requires a + b + c == fed <= stream
    ensures a <= stream
    ensures a == stream ==> fed == stream && b == [] && c == []
  {
    assert a == fed[..|a|];
    assert |fed| == |a| + |b| + |c|;
  }

  /** A file whose stream is sealed, with no slot to drain, is between calls. */
  lemma SealedIsIdle(l: Limits, stream: seq<byte>, p: Producer)
    requires l.cap > 0 && l.size > 0 && Sound(l, p) && FullChunks(l, stream, p)
    requires p.fed == stream && p.OpenBytes() == [] && p.Carried() == []
    requires !p.slot0.flag.Sealed? && !p.slot1.flag.Sealed?
    ensures p.pc.Idle?
  {
  }

  lemma ReturnedIsOver(l: Limits, streams: seq<seq<byte>>, s: Group, a: Action)
    requires Reached(l, streams, s) && s.phase.Returned?
    ensures !Lawful(l, streams, s, a)
  {
    if a.FileMoves? && a.file < |s.files| {
      var i := a.file;
      NothingWaits(l, streams, s, i);
      AllSealed(l, streams[i], s.files[i]);
      SealedIsIdle(l, streams[i], s.files[i]);
    }
  }
}
