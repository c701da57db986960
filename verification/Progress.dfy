/**
 * Prompt runs get to the end: the work left never grows, and from every reachable state there is a
 * prompt continuation to the RIGHT verdict.
 */
module Progress {
  import Arithmetic
  import opened Bytes
  import opened Slots
  import opened Pipeline
  import PipelineSafety
  import opened Ordering
  import opened Alignment
  import opened Delivery
  import opened Promptness

  // ----- Work left -----

  /** What is left of the call in progress. */
  function CallWork(p: Producer): nat {
    match p.pc
    case NotStarted => 1
    case Idle => 0
    case Sealing(_, last) => if last then 2 else 7
    case Counting(_, last) => if last then 1 else 6
    case _ => if p.fragment == [] then 0 else (if p.split then 4 else 8) + if p.HasOpen() then 0 else 1
  }

  function FileWork(l: Limits, p: Producer): nat {
    10 * (if |p.fed| <= l.size then l.size - |p.fed| else 0) + CallWork(p)
  }

  ghost function FilesWork(l: Limits, files: seq<Producer>): nat {
    if files == [] then 0 else FilesWork(l, files[..|files| - 1]) + FileWork(l, files[|files| - 1])
  }

  function PhaseWork(n: nat, phase: Phase): nat {
    match phase
    case Testing(_) => 2
    case Xoring(_) => 1
    case Resetting(_) => n + 4
    case Clearing(_, next) => if next <= n then n + 3 - next else 3
    case LoopTest => 2
    case Deciding => 1
    case Returned(_) => 0
  }

  ghost predicate Reached(l: Limits, streams: seq<seq<byte>>, s: Group) {
    && Invariant(l, s) && Aligned(s) && InOrder(s) && Delivered(l, streams, s) && PromptState(s)
    && !s.failed && AllWhole(s.drains)
  }

  /** Drains still to make, and where the consumer is in the current one. */
  ghost function DrainWork(l: Limits, s: Group): nat
    requires l.cap > 0
  {
    Arithmetic.Times(|s.files| + 10, Generations(l) - |s.drains|) + PhaseWork(|s.files|, s.phase)
  }

  /** All work left: bytes to receive, slots to fill, drains to make. */
  ghost function Work(l: Limits, s: Group): nat
    requires l.cap > 0
  {
    FilesWork(l, s.files) + DrainWork(l, s)
  }

  lemma {:induction false} FilesWorkUpdate(l: Limits, files: seq<Producer>, i: nat, p: Producer)
    requires i < |files|
    ensures FilesWork(l, files[i := p]) == FilesWork(l, files) - FileWork(l, files[i]) + FileWork(l, p)
  {
    var n := |files| - 1;
    if i == n {
      assert files[i := p][..n] == files[..n];
    } else {
      assert files[i := p][..n] == files[..n][i := p];
      FilesWorkUpdate(l, files[..n], i, p);
    }
  }

  /** Steps that get something done; the others poll, or carry an empty fragment. */
  predicate Productive(s: Group, a: Action) {
    match a
    case FileMoves(i, m) =>
      i < |s.files| &&
      (match m
       case Feed(bytes) => bytes != []
       case Fill => s.files[i].fragment != []
       case Wait => false
       case Reopen => Opens(s.files[i])
       case _ => true)
    case PeerFails(_) => false
    case Consumer(_) =>
      match s.phase
      case Testing(k) => s.Full(k) == |s.files|
      case LoopTest => s.xorFlag || s.failed
      case _ => true
  }

  /** The fragment, if any, is not empty. */
  predicate Substantial(a: Action) {
    a.FileMoves? && a.move.Feed? ==> a.move.bytes != []
  }

  /** The reopen test succeeds. */
  predicate Opens(p: Producer) {
    p.pc.Reopening? && p.Get(p.pc.slot).flag.Empty? && !p.Get(Other(p.pc.slot)).flag.Writable?
  }

  lemma MoveWork(l: Limits, stream: seq<byte>, p: Producer, m: Move)
    requires l.cap > 0 && l.size > 0 && Sound(l, p) && FullChunks(l, stream, p)
    requires CanMove(l, p, m) && MoveDelivers(l, stream, p, m)
    requires p.pc.Loop? || p.pc.Reopening? || p.pc.Counting? ==> p.HasOpen() || p.split || (p.pc.Counting? && p.pc.last)
    requires p.pc.Sealing? && !p.pc.last ==> p.fragment != []
    ensures FileWork(l, Moved(l, p, m)) <= FileWork(l, p)
    ensures (m.Feed? && m.bytes != []) || (m.Fill? && p.fragment != []) || m.Start? || m.Seal? || m.Count? || (m.Reopen? && Opens(p))
            ==> FileWork(l, Moved(l, p, m)) < FileWork(l, p)
  {
    MoveKeepsFullChunks(l, stream, p, m);
  }

  lemma DrainsBounded(l: Limits, streams: seq<seq<byte>>, s: Group)
    requires Invariant(l, s) && InOrder(s) && Delivered(l, streams, s)
    ensures |s.drains| <= Generations(l)
    ensures s.phase.Xoring? ==> |s.drains| < Generations(l)
  {
    var n := if s.phase.Xoring? then |s.drains| else |s.drains| - 1;
    if n >= 0 {
      if s.phase.Xoring? { XoringReads(l, s, 0); } else { DrainReads(l, s, n, 0); }
      SealedGenerations(l, streams[0], s.files[0]);
      BelowCeiling(l, n);
    }
  }

  lemma BelowCeiling(l: Limits, n: nat)
    requires l.cap > 0 && n * l.cap < l.size
    ensures n < Generations(l)
  {
    Arithmetic.DivBounds(l.size + l.cap - 1, l.cap);
    assert (n + 1) * l.cap == n * l.cap + l.cap;
    Arithmetic.FactorLess(n + 1, Generations(l) + 1, l.cap);
  }

  lemma CeilingCovers(l: Limits, n: nat)
    requires l.cap > 0 && n >= Generations(l)
    ensures n * l.cap >= l.size
  {
    Arithmetic.DivBounds(l.size + l.cap - 1, l.cap);
    Arithmetic.MulMono(Generations(l) + 1, n + 1, l.cap);
    assert (n + 1) * l.cap == n * l.cap + l.cap;
  }

  lemma OnlyFilesChange(l: Limits, s: Group, i: nat, m: Move)
    requires l.cap > 0 && Enabled(l, s, FileMoves(i, m))
    ensures var t := Next(l, s, FileMoves(i, m));
            t.files == s.files[i := Moved(l, s.files[i], m)] && DrainWork(l, t) == DrainWork(l, s)
  {
  }

  lemma RewriteLeavesWork(l: Limits, p: Producer, k: Index, slot: Slot)
    requires p.Settled(k) && !slot.flag.Writable?
    ensures FileWork(l, p.Put(k, slot)) == FileWork(l, p)
  {
  }

  lemma ConsumerLeavesFileWork(l: Limits, s: Group, accepted: nat)
    requires s.files != [] && HeldSettled(s) && !s.phase.Returned?
    ensures FilesWork(l, Consumed(l, s, accepted).files) == FilesWork(l, s.files)
  {
    var t := Consumed(l, s, accepted);
    if s.phase.Xoring? || s.phase.Clearing? {
      var i := if s.phase.Xoring? then 0 else s.phase.next;
      var k := s.phase.slot;
      assert s.Holds(i, k);
      var slot := t.files[i].Get(k);
      assert t.files == s.files[i := s.files[i].Put(k, slot)];
      RewriteLeavesWork(l, s.files[i], k, slot);
      FilesWorkUpdate(l, s.files, i, s.files[i].Put(k, slot));
    }
  }

  lemma DrainWorkFalls(l: Limits, s: Group, accepted: nat)
    requires l.cap > 0 && s.files != [] && !s.phase.Returned? && HeldSettled(s)
    requires s.phase.Xoring? ==> |s.drains| < Generations(l)
    ensures DrainWork(l, Consumed(l, s, accepted)) <= DrainWork(l, s)
    ensures Productive(s, Consumer(accepted)) ==> DrainWork(l, Consumed(l, s, accepted)) < DrainWork(l, s)
  {
    var t := Consumed(l, s, accepted);
    assert |t.files| == |s.files|;
    if s.phase.Xoring? {
      assert |t.drains| == |s.drains| + 1;
    } else {
      assert t.drains == s.drains;
    }
  }

  /** While the consumer is in the XOR, not all calls have been made. */
  lemma CallsLeft(l: Limits, streams: seq<seq<byte>>, s: Group)
    requires Invariant(l, s) && Delivered(l, streams, s) && s.phase.Xoring?
    ensures |s.drains| < Generations(l)
  {
    var p := s.files[0];
    assert s.Holds(0, s.phase.slot) && Sound(l, p) && FullChunks(l, streams[0], p);
    DrainsBehind(l, s, 0);
    SealedGenerations(l, streams[0], p);
    BelowCeiling(l, |s.drains|);
  }

  lemma ThreadWork(l: Limits, streams: seq<seq<byte>>, s: Group, i: nat, m: Move)
    requires Invariant(l, s) && Delivered(l, streams, s) && AllCarrying(s)
    requires Enabled(l, s, FileMoves(i, m)) && Delivers(l, streams, s, FileMoves(i, m))
    ensures var a := FileMoves(i, m);
            && Work(l, Next(l, s, a)) <= Work(l, s)
            && (Productive(s, a) ==> Work(l, Next(l, s, a)) < Work(l, s))
  {
    var p := s.files[i];
    assert Sound(l, p) && FullChunks(l, streams[i], p) && Carrying(p);
    MoveWork(l, streams[i], p, m);
    FilesWorkUpdate(l, s.files, i, Moved(l, p, m));
    OnlyFilesChange(l, s, i, m);
  }

  /** No step adds to the work left, and what gets something done takes from it. */
  lemma WorkStep(l: Limits, streams: seq<seq<byte>>, s: Group, a: Action)
    requires Invariant(l, s) && Delivered(l, streams, s) && AllCarrying(s) && Enabled(l, s, a) && Delivers(l, streams, s, a)
    ensures Work(l, Next(l, s, a)) <= Work(l, s)
    ensures Productive(s, a) ==> Work(l, Next(l, s, a)) < Work(l, s)
  {
    match a
    case FileMoves(i, m) => ThreadWork(l, streams, s, i, m);
    case PeerFails(_) => assert Next(l, s, a).files == s.files && DrainWork(l, Next(l, s, a)) == DrainWork(l, s);
    case Consumer(accepted) => ConsumerWork(l, streams, s, accepted);
  }

  lemma ConsumerWork(l: Limits, streams: seq<seq<byte>>, s: Group, accepted: nat)
    requires Invariant(l, s) && Delivered(l, streams, s) && !s.phase.Returned?
    ensures Work(l, Consumed(l, s, accepted)) <= Work(l, s)
    ensures Productive(s, Consumer(accepted)) ==> Work(l, Consumed(l, s, accepted)) < Work(l, s)
  {
    if s.phase.Xoring? { CallsLeft(l, streams, s); }
    ConsumerLeavesFileWork(l, s, accepted);
    DrainWorkFalls(l, s, accepted);
  }

  // ----- Lawful runs -----

  /** One step of a prompt run in which peers deliver their streams and writes succeed. */
  ghost predicate Lawful(l: Limits, streams: seq<seq<byte>>, s: Group, a: Action) {
    && Enabled(l, s, a) && Prompt(s, a) && Delivers(l, streams, s, a)
    && !a.PeerFails?
    && (a.Consumer? && s.phase.Xoring? && s.files != [] ==> a.accepted >= |s.Buffers(s.phase.slot)[0]|)
  }

  ghost predicate LawfulRun(l: Limits, streams: seq<seq<byte>>, s: Group, acts: seq<Action>)
    decreases |acts|
  {
    acts == [] || (Lawful(l, streams, s, acts[0]) && LawfulRun(l, streams, Next(l, s, acts[0]), acts[1..]))
  }

  lemma {:induction false} LawfulRuns(l: Limits, streams: seq<seq<byte>>, s: Group, acts: seq<Action>)
    requires LawfulRun(l, streams, s, acts)
    ensures Runs(l, s, acts)
    decreases |acts|
  {
    if acts != [] { LawfulRuns(l, streams, Next(l, s, acts[0]), acts[1..]); }
  }

  lemma StepReaches(l: Limits, streams: seq<seq<byte>>, s: Group, a: Action)
    requires Reached(l, streams, s) && Lawful(l, streams, s, a)
    ensures Reached(l, streams, Next(l, s, a))
    ensures !Race(s, a)
    ensures Work(l, Next(l, s, a)) <= Work(l, s)
    ensures Productive(s, a) ==> Work(l, Next(l, s, a)) < Work(l, s)
  {
    PromptHasNoRace(l, s, a);
    StepReachesState(l, streams, s, a);
    AllPromptAreCarrying(s);
    WorkStep(l, streams, s, a);
  }

  lemma AllPromptAreCarrying(s: Group)
    requires PromptState(s)
    ensures AllCarrying(s)
  {
    forall i | 0 <= i < |s.files| ensures Carrying(s.files[i]) { assert FilePrompt(s, i); }
  }

  lemma StepStaysInOrder(l: Limits, streams: seq<seq<byte>>, s: Group, a: Action)
    requires Reached(l, streams, s) && Enabled(l, s, a) && !Race(s, a)
    ensures InOrder(Next(l, s, a))
  {
    PipelineSafety.StepKeeps(l, s, a);
    AlignedStep(l, s, a);
    AlignedIsInOrder(l, Next(l, s, a));
  }

  lemma StepReachesState(l: Limits, streams: seq<seq<byte>>, s: Group, a: Action)
    requires Reached(l, streams, s) && Lawful(l, streams, s, a) && !Race(s, a)
    ensures Reached(l, streams, Next(l, s, a))
  {
    PipelineSafety.StepKeeps(l, s, a);
    AlignedStep(l, s, a);
    StepStaysInOrder(l, streams, s, a);
    StepKeepsDelivered(l, streams, s, a);
    StepStaysPrompt(l, streams, s, a);
    StepStaysFaultless(l, streams, s, a);
  }

  lemma StepStaysFaultless(l: Limits, streams: seq<seq<byte>>, s: Group, a: Action)
    requires Reached(l, streams, s) && Lawful(l, streams, s, a)
    ensures !Next(l, s, a).failed && AllWhole(Next(l, s, a).drains)
  {
    if a.Consumer? && s.phase.Xoring? {
      SizesAlwaysMatch(l, streams, s);
      var d := Next(l, s, a).drains[|s.drains|];
      assert Whole(d) && Next(l, s, a).drains == s.drains + [d];
    }
  }

  lemma InitialPrompt(n: nat)
    requires n >= 1
    ensures PromptState(Initial(n)) && Aligned(Initial(n)) && AllWhole(Initial(n).drains)
  {
    var s := Initial(n);
    forall i | 0 <= i < |s.files| ensures FilePrompt(s, i) && FileAligned(s.files[i]) && !InWindow(s.files[i]) {
      assert s.files[i] == FRESH;
    }
  }

  lemma InitialDelivered(l: Limits, streams: seq<seq<byte>>)
    requires Streams(l, streams)
    ensures Delivered(l, streams, Initial(|streams|))
  {
    var s := Initial(|streams|);
    forall i | 0 <= i < |s.files| ensures FullChunks(l, streams[i], s.files[i]) {
      assert s.files[i] == FRESH;
    }
  }

  lemma InitialReached(l: Limits, streams: seq<seq<byte>>)
    requires Streams(l, streams)
    ensures Reached(l, streams, Initial(|streams|))
  {
    PipelineSafety.InitialInvariant(l, |streams|);
    InitialPrompt(|streams|);
    InitialDelivered(l, streams);
    AlignedIsInOrder(l, Initial(|streams|));
  }
}
