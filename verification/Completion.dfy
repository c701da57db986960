/** From every reachable state of a prompt run there is a way to the end. */
module Completion {
  import opened Bytes
  import opened Slots
  import opened Pipeline
  import Alignment
  import opened Delivery
  import opened Promptness
  import opened Progress

  /** No peer sends an empty fragment. */
  predicate AllSubstantial(acts: seq<Action>) {
    forall a | a in acts :: Substantial(a)
  }

  /** `acts` is a lawful run from `s` that ends in a reachable state with less work left. */
  ghost predicate Advances(l: Limits, streams: seq<seq<byte>>, s: Group, acts: seq<Action>)
    requires l.cap > 0
  {
    && LawfulRun(l, streams, s, acts) && Runs(l, s, acts) && AllSubstantial(acts)
    && Reached(l, streams, After(l, s, acts))
    && Work(l, After(l, s, acts)) < Work(l, s)
  }

  lemma RunOfOne(l: Limits, streams: seq<seq<byte>>, s: Group, a: Action)
    requires Lawful(l, streams, s, a)
    ensures LawfulRun(l, streams, s, [a]) && Runs(l, s, [a]) && After(l, s, [a]) == Next(l, s, a)
    ensures Substantial(a) ==> AllSubstantial([a])
  {
    var t := Next(l, s, a);
    assert [a][1..] == [];
    assert LawfulRun(l, streams, t, []) && Runs(l, t, []) && After(l, t, []) == t;
  }

  lemma OneStep(l: Limits, streams: seq<seq<byte>>, s: Group, a: Action)
    requires Reached(l, streams, s) && Lawful(l, streams, s, a) && Productive(s, a) && Substantial(a)
    ensures Advances(l, streams, s, [a])
  {
    StepReaches(l, streams, s, a);
    RunOfOne(l, streams, s, a);
  }

  lemma StepThen(l: Limits, streams: seq<seq<byte>>, s: Group, a: Action, acts: seq<Action>)
    requires Reached(l, streams, s) && Lawful(l, streams, s, a) && Substantial(a)
    requires Advances(l, streams, Next(l, s, a), acts)
    ensures Advances(l, streams, s, [a] + acts)
  {
    StepReaches(l, streams, s, a);
    assert ([a] + acts)[1..] == acts;
    assert Runs(l, s, [a] + acts) && After(l, s, [a] + acts) == After(l, Next(l, s, a), ([a] + acts)[1..]);
  }

  ghost predicate Quiet(s: Group) {
    forall i :: 0 <= i < |s.files| ==> !InWindow(s.files[i])
  }

  /** A producer step that no hypothesis restricts. */
  lemma FreeMove(l: Limits, streams: seq<seq<byte>>, s: Group, i: nat, m: Move)
    requires Reached(l, streams, s) && i < |s.files| && CanMove(l, s.files[i], m)
    requires Quiet(s) || InWindow(s.files[i])
    requires m.Seal? ==> !AnyFull(s) && !Draining(s)
    requires m.Feed? ==> MoveDelivers(l, streams[i], s.files[i], m)
    ensures Lawful(l, streams, s, FileMoves(i, m))
  {
    assert Sound(l, s.files[i]);
  }

  lemma ConsumerMove(l: Limits, streams: seq<seq<byte>>, s: Group) returns (a: Action)
    requires Reached(l, streams, s) && Quiet(s) && !s.phase.Returned?
    requires s.phase.Testing? && s.Full(s.phase.slot) == |s.files| ==>
               forall i :: 0 <= i < |s.files| && Waiting(s.files[i]) ==> !HasEmpty(s.files[i])
    ensures a.Consumer? && Lawful(l, streams, s, a)
  {
    a := Consumer(if s.phase.Xoring? then |s.Buffers(s.phase.slot)[0]| else 0);
  }

  lemma QuietAfter(l: Limits, s: Group, i: nat, m: Move)
    requires PromptState(s) && Enabled(l, s, FileMoves(i, m))
    requires Quiet(s) || InWindow(s.files[i])
    requires !InWindow(Moved(l, s.files[i], m))
    ensures Quiet(Next(l, s, FileMoves(i, m)))
  {
    var t := Next(l, s, FileMoves(i, m));
    assert forall j :: 0 <= j < |t.files| && j != i ==> t.files[j] == s.files[j];
  }

  // ----- Finishing a window -----

  lemma AdvanceWindow(l: Limits, streams: seq<seq<byte>>, s: Group, i: nat) returns (acts: seq<Action>)
    requires Reached(l, streams, s) && !s.phase.Returned? && i < |s.files| && InWindow(s.files[i])
    ensures Advances(l, streams, s, acts)
    decreases if s.files[i].pc == Reopening(0) then 1 else 0
  {
    var p := s.files[i];
    if p.pc.Counting? {
      FreeMove(l, streams, s, i, Count);
      acts := [FileMoves(i, Count)];
      OneStep(l, streams, s, acts[0]);
      return;
    }
    var a := FileMoves(i, Reopen);
    FreeMove(l, streams, s, i, Reopen);
    if Opens(p) {
      acts := [a];
      OneStep(l, streams, s, a);
      return;
    }
    StepReaches(l, streams, s, a);
    var t := Next(l, s, a);
    ReopenAfterFailure(l, s, i);
    if p.pc == Reopening(0) {
      acts := AdvanceWindow(l, streams, t, i);
    } else {
      QuietAfter(l, s, i, Reopen);
      acts := AdvanceQuiet(l, streams, t);
    }
    StepThen(l, streams, s, a, acts);
    acts := [a] + acts;
  }

  lemma ReopenAfterFailure(l: Limits, s: Group, i: nat)
    requires Enabled(l, s, FileMoves(i, Reopen)) && !Opens(s.files[i])
    ensures var t := Next(l, s, FileMoves(i, Reopen));
            && t.files[i] == s.files[i].(pc := if s.files[i].pc.slot == 0 then Reopening(1) else Loop)
            && t.files[i] == Moved(l, s.files[i], Reopen)
            && |t.files| == |s.files| && t.phase == s.phase
  {
  }

  // ----- Outside windows -----

  /** Storing the fragment; an empty one is stored first and a byte received next. */
  lemma AdvanceFill(l: Limits, streams: seq<seq<byte>>, s: Group, i: nat) returns (acts: seq<Action>)
    requires Reached(l, streams, s) && Quiet(s) && i < |s.files|
    requires s.files[i].pc.Loop? && s.files[i].HasOpen()
    ensures Advances(l, streams, s, acts)
  {
    var a := FileMoves(i, Fill);
    FreeMove(l, streams, s, i, Fill);
    if s.files[i].fragment != [] {
      acts := [a];
      OneStep(l, streams, s, a);
    } else {
      acts := AdvanceEmptyFill(l, streams, s, i);
    }
  }

  lemma AdvanceEmptyFill(l: Limits, streams: seq<seq<byte>>, s: Group, i: nat) returns (acts: seq<Action>)
    requires Reached(l, streams, s) && Quiet(s) && i < |s.files|
    requires s.files[i].pc.Loop? && s.files[i].HasOpen() && s.files[i].fragment == []
    requires Lawful(l, streams, s, FileMoves(i, Fill))
    ensures Advances(l, streams, s, acts)
  {
    var a, t := FileMoves(i, Fill), Next(l, s, FileMoves(i, Fill));
    StepReaches(l, streams, s, a);
    EmptyFillLeaves(l, streams[i], s, i);
    acts := AdvanceFeed(l, streams, t, i);
    StepThen(l, streams, s, a, acts);
    acts := [a] + acts;
  }

  lemma EmptyFill(l: Limits, stream: seq<byte>, p: Producer)
    requires Sound(l, p) && FullChunks(l, stream, p) && CanMove(l, p, Fill) && p.fragment == []
    ensures Filled(l, p).pc.Idle? && Filled(l, p).fed == p.fed && |p.fed| < l.size
  {
  }

  lemma EmptyFillLeaves(l: Limits, stream: seq<byte>, s: Group, i: nat)
    requires PromptState(s) && Quiet(s) && Enabled(l, s, FileMoves(i, Fill)) && s.files[i].fragment == []
    requires Sound(l, s.files[i]) && FullChunks(l, stream, s.files[i])
    ensures var t := Next(l, s, FileMoves(i, Fill));
            Quiet(t) && |t.files| == |s.files| && t.files[i].pc.Idle? && |t.files[i].fed| < l.size
  {
    EmptyFill(l, stream, s.files[i]);
    QuietAfter(l, s, i, Fill);
    assert Next(l, s, FileMoves(i, Fill)).files[i] == Filled(l, s.files[i]);
  }

  /** Receiving one more byte. */
  lemma AdvanceFeed(l: Limits, streams: seq<seq<byte>>, s: Group, i: nat) returns (acts: seq<Action>)
    requires Reached(l, streams, s) && Quiet(s) && i < |s.files|
    requires s.files[i].pc.Idle? && |s.files[i].fed| < l.size
    ensures Advances(l, streams, s, acts)
  {
    var p := s.files[i];
    assert FullChunks(l, streams[i], p);
    var m := Feed([streams[i][|p.fed|]]);
    FreeMove(l, streams, s, i, m);
    acts := [FileMoves(i, m)];
    OneStep(l, streams, s, acts[0]);
  }

  /** A waiting producer with a free slot claims it within two tests. */
  lemma AdvancePoll(l: Limits, streams: seq<seq<byte>>, s: Group, i: nat) returns (acts: seq<Action>)
    requires Reached(l, streams, s) && Quiet(s) && i < |s.files| && !s.phase.Returned?
    requires s.files[i].pc.Loop? && Waiting(s.files[i]) && HasEmpty(s.files[i])
    ensures Advances(l, streams, s, acts)
  {
    var wait, reopen := FileMoves(i, Wait), FileMoves(i, Reopen);
    FreeMove(l, streams, s, i, Wait);
    StepReaches(l, streams, s, wait);
    var t := Next(l, s, wait);
    assert t.files[i] == s.files[i].(pc := Reopening(0));
    FreeMove(l, streams, t, i, Reopen);
    if Opens(t.files[i]) {
      acts := [reopen];
      OneStep(l, streams, t, reopen);
    } else {
      StepReaches(l, streams, t, reopen);
      var u := Next(l, t, reopen);
      assert u.files[i] == s.files[i].(pc := Reopening(1));
      FreeMove(l, streams, u, i, Reopen);
      OneStep(l, streams, u, reopen);
      StepThen(l, streams, t, reopen, [reopen]);
      acts := [reopen] + [reopen];
    }
    StepThen(l, streams, s, wait, acts);
    acts := [wait] + acts;
  }

  /** Steps from here to the consumer's successful test, when slot `k`'s counter reads N. */
  function TestsAway(phase: Phase, k: Index): nat {
    match phase
    case Testing(j) => if j == k then 0 else if k == 1 then 1 else 2
    case LoopTest => 1 + k
    case _ => 0
  }

  lemma AdvanceTests(l: Limits, streams: seq<seq<byte>>, s: Group, k: Index) returns (acts: seq<Action>)
    requires Reached(l, streams, s) && Quiet(s)
    requires s.phase.Testing? || (s.phase.LoopTest? && !s.xorFlag)
    requires s.Full(k) == |s.files|
    requires forall i :: 0 <= i < |s.files| && Waiting(s.files[i]) ==> !HasEmpty(s.files[i])
    ensures Advances(l, streams, s, acts)
    decreases TestsAway(s.phase, k)
  {
    var a := ConsumerMove(l, streams, s);
    if Productive(s, a) {
      acts := [a];
      OneStep(l, streams, s, a);
    } else {
      StepReaches(l, streams, s, a);
      var t := Next(l, s, a);
      assert t.files == s.files && t.Full(k) == s.Full(k);
      acts := AdvanceTests(l, streams, t, k);
      StepThen(l, streams, s, a, acts);
      acts := [a] + acts;
    }
  }

  /** Nobody can move but every file is complete or blocked: then the next slot is full. */
  lemma StuckIsFull(l: Limits, streams: seq<seq<byte>>, s: Group)
    requires Reached(l, streams, s)
    requires s.phase.Testing? || (s.phase.LoopTest? && !s.xorFlag)
    requires forall i :: 0 <= i < |s.files| ==> Blocked(l, s.files[i])
    ensures s.Full(|s.drains| % 2) == |s.files|
  {
    var k: Index := |s.drains| % 2;
    assert !s.xorFlag;
    OutputIsPrefix(l, streams, s);
    if |s.drains| >= Generations(l) {
      CeilingCovers(l, |s.drains|);
      assert false;
    }
    forall i | 0 <= i < |s.files| ensures CountBits(s, k)[i] {
      BlockedIsCounted(l, streams, s, i);
    }
    TallyExtremes(CountBits(s, k));
    assert s.Full(k) == Tally(CountBits(s, k));
  }

  ghost predicate Blocked(l: Limits, p: Producer) {
    || (p.pc.Idle? && |p.fed| >= l.size)
    || ((p.pc.Loop? || p.pc.Reopening?) && p.slot0.flag.Sealed? && p.slot1.flag.Sealed?)
  }

  lemma BlockedIsCounted(l: Limits, streams: seq<seq<byte>>, s: Group, i: nat)
    requires Reached(l, streams, s) && i < |s.files| && Blocked(l, s.files[i])
    requires s.phase.Testing? || s.phase.LoopTest?
    requires |s.drains| < Generations(l)
    ensures s.Counted(i, |s.drains| % 2)
  {
    var p := s.files[i];
    var k: Index := |s.drains| % 2;
    assert Sound(l, p) && FullChunks(l, streams[i], p) && Alignment.FileAligned(p);
    if p.pc.Idle? {
      FinishedCount(l, streams[i], p);
      Alignment.Balance(l, s, i, k);
    }
  }

  lemma AdvanceQuiet(l: Limits, streams: seq<seq<byte>>, s: Group) returns (acts: seq<Action>)
    requires Reached(l, streams, s) && Quiet(s) && !s.phase.Returned?
    ensures Advances(l, streams, s, acts)
  {
    if i :| 0 <= i < |s.files| && s.files[i].pc.NotStarted? {
      acts := AdvanceStart(l, streams, s, i);
    } else if i :| 0 <= i < |s.files| && s.files[i].pc.Loop? && s.files[i].HasOpen() {
      acts := AdvanceFill(l, streams, s, i);
    } else if Draining(s) || s.phase.Deciding? || (s.phase.LoopTest? && s.xorFlag) {
      acts := AdvanceConsumer(l, streams, s);
    } else {
      acts := AdvanceWaiting(l, streams, s);
    }
  }

  lemma AdvanceStart(l: Limits, streams: seq<seq<byte>>, s: Group, i: nat) returns (acts: seq<Action>)
    requires Reached(l, streams, s) && Quiet(s) && i < |s.files| && s.files[i].pc.NotStarted?
    ensures Advances(l, streams, s, acts)
  {
    FreeMove(l, streams, s, i, Start);
    acts := [FileMoves(i, Start)];
    OneStep(l, streams, s, acts[0]);
  }

  lemma AdvanceConsumer(l: Limits, streams: seq<seq<byte>>, s: Group) returns (acts: seq<Action>)
    requires Reached(l, streams, s) && Quiet(s) && !s.phase.Returned?
    requires Draining(s) || s.phase.Deciding? || (s.phase.LoopTest? && s.xorFlag)
    ensures Advances(l, streams, s, acts)
  {
    var a := ConsumerMove(l, streams, s);
    acts := [a];
    OneStep(l, streams, s, a);
  }

  /** All threads started, none with a slot to write to, the consumer polling. */
  lemma AdvanceWaiting(l: Limits, streams: seq<seq<byte>>, s: Group) returns (acts: seq<Action>)
    requires Reached(l, streams, s) && Quiet(s)
    requires s.phase.Testing? || (s.phase.LoopTest? && !s.xorFlag)
    requires forall i :: 0 <= i < |s.files| ==> !s.files[i].pc.NotStarted? && !(s.files[i].pc.Loop? && s.files[i].HasOpen())
    ensures Advances(l, streams, s, acts)
  {
    if i :| 0 <= i < |s.files| && s.files[i].pc.Loop? && Waiting(s.files[i]) && HasEmpty(s.files[i]) {
      acts := AdvancePoll(l, streams, s, i);
    } else if AnyFull(s) {
      acts := AdvanceTests(l, streams, s, if s.full0 == |s.files| then 0 else 1);
    } else {
      assert forall i :: 0 <= i < |s.files| ==> Stalled(s.files[i]);
      acts := AdvanceStalled(l, streams, s);
    }
  }

  /** Between fragments, about to seal, or blocked on two sealed slots. */
  ghost predicate Stalled(p: Producer) {
    p.pc.Idle? || p.pc.Sealing? || (p.pc.Loop? && p.slot0.flag.Sealed? && p.slot1.flag.Sealed?)
  }

  /** No counter reads N: someone can seal or receive. */
  lemma AdvanceStalled(l: Limits, streams: seq<seq<byte>>, s: Group) returns (acts: seq<Action>)
    requires Reached(l, streams, s) && Quiet(s)
    requires s.phase.Testing? || (s.phase.LoopTest? && !s.xorFlag)
    requires !AnyFull(s) && forall i :: 0 <= i < |s.files| ==> Stalled(s.files[i])
    ensures Advances(l, streams, s, acts)
  {
    var files := s.files;
    if i :| 0 <= i < |files| && files[i].pc.Sealing? {
      FreeMove(l, streams, s, i, Seal);
      acts := [FileMoves(i, Seal)];
      OneStep(l, streams, s, acts[0]);
    } else if i :| 0 <= i < |files| && files[i].pc.Idle? && |files[i].fed| < l.size {
      acts := AdvanceFeed(l, streams, s, i);
    } else {
      assert forall i :: 0 <= i < |files| ==> Blocked(l, files[i]);
      StuckIsFull(l, streams, s);
      acts := [];
      assert false;
    }
  }

  /** No deadlock: some lawful continuation leaves strictly less work. */
  lemma Advance(l: Limits, streams: seq<seq<byte>>, s: Group) returns (acts: seq<Action>)
    requires Reached(l, streams, s) && !s.phase.Returned?
    ensures Advances(l, streams, s, acts)
  {
    if i :| 0 <= i < |s.files| && InWindow(s.files[i]) {
      acts := AdvanceWindow(l, streams, s, i);
    } else {
      acts := AdvanceQuiet(l, streams, s);
    }
  }

  lemma {:induction false} RunsAppend(l: Limits, streams: seq<seq<byte>>, s: Group, a: seq<Action>, b: seq<Action>)
    requires LawfulRun(l, streams, s, a) && Runs(l, s, a)
    requires LawfulRun(l, streams, After(l, s, a), b) && Runs(l, After(l, s, a), b)
    ensures LawfulRun(l, streams, s, a + b) && Runs(l, s, a + b)
    ensures After(l, s, a + b) == After(l, After(l, s, a), b)
    decreases |a|
  {
    if a == [] {
      assert a + b == b;
    } else {
      RunsAppend(l, streams, Next(l, s, a[0]), a[1..], b);
      assert (a + b)[1..] == a[1..] + b;
    }
  }

  /** Every reachable state can be driven to RIGHT, after exactly ceil(size/cap) drains. */
  lemma CanFinish(l: Limits, streams: seq<seq<byte>>, s: Group) returns (acts: seq<Action>)
    requires Reached(l, streams, s)
    ensures LawfulRun(l, streams, s, acts) && Runs(l, s, acts) && AllSubstantial(acts)
    ensures Reached(l, streams, After(l, s, acts)) && After(l, s, acts).phase == Returned(Right)
    decreases Work(l, s)
  {
    if s.phase.Returned? {
      acts := [];
    } else {
      var first := Advance(l, streams, s);
      var t := After(l, s, first);
      var rest := CanFinish(l, streams, t);
      RunsAppend(l, streams, s, first, rest);
      acts := first + rest;
    }
  }
}
