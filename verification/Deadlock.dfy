/**
 * Runs under any interleaving, prompt or not: they get only so much done, and they can always go on until
 * they have returned or are dead. Dead means that every file is complete and two files have sealed
 * differently many chunks into a slot, so that the consumer polls for ever.
 */
module Deadlock {
  import opened Bytes
  import opened Slots
  import opened Pipeline
  import PipelineSafety
  import Ordering
  import opened Delivery
  import opened Promptness
  import opened Progress
  import Completion
  import opened Guarantees
  import opened Fairness
  import opened Ending

  // ----- Where a run can come to a halt -----

  /** Some undisturbed continuation gets something done. */
  ghost predicate GetsDone(l: Limits, streams: seq<seq<byte>>, s: Group) {
    exists acts :: Undisturbed(l, streams, s, acts) && ProductiveSteps(l, s, acts) > 0
  }

  lemma DoneNow(l: Limits, streams: seq<seq<byte>>, s: Group, a: Action)
    requires Enabled(l, s, a) && Delivers(l, streams, s, a) && !a.PeerFails? && Productive(s, a)
    ensures GetsDone(l, streams, s)
  {
    assert [a][1..] == [];
    assert Undisturbed(l, streams, Next(l, s, a), []);
    assert Undisturbed(l, streams, s, [a]) && ProductiveSteps(l, s, [a]) > 0;
  }

  lemma DoneLater(l: Limits, streams: seq<seq<byte>>, s: Group, a: Action)
    requires Enabled(l, s, a) && Delivers(l, streams, s, a) && !a.PeerFails? && GetsDone(l, streams, Next(l, s, a))
    ensures GetsDone(l, streams, s)
  {
    var acts :| Undisturbed(l, streams, Next(l, s, a), acts) && ProductiveSteps(l, Next(l, s, a), acts) > 0;
    assert ([a] + acts)[1..] == acts;
    assert Undisturbed(l, streams, s, [a] + acts) && ProductiveSteps(l, s, [a] + acts) > 0;
  }

  /** The thread can get something done by itself. */
  ghost predicate Restless(l: Limits, p: Producer) {
    || p.pc.NotStarted? || p.pc.Sealing? || p.pc.Counting? || (p.pc.Idle? && |p.fed| < l.size)
    || (Polling(p) && (p.HasOpen() || HasEmpty(p)))
  }

  /** The move the thread makes next. */
  function NextMove(stream: seq<byte>, p: Producer): Move
    requires p.pc.Idle? ==> |p.fed| < |stream|
  {
    match p.pc
    case NotStarted => Start
    case Idle => Feed([stream[|p.fed|]])
    case Loop => if p.HasOpen() then Fill else Wait
    case Sealing(_, _) => Seal
    case Counting(_, _) => Count
    case Reopening(_) => Reopen
  }

  /** It gets something done, or stores an empty fragment, or polls on. */
  lemma NextMoveLeads(l: Limits, stream: seq<byte>, p: Producer)
    requires l.cap > 0 && l.size > 0 && Sound(l, p) && FullChunks(l, stream, p) && Restless(l, p)
    ensures var m, q := NextMove(stream, p), Moved(l, p, NextMove(stream, p));
            && CanMove(l, p, m) && MoveDelivers(l, stream, p, m)
            && ((m.Fill? && p.fragment == []) || m.Wait? || (m.Reopen? && !Opens(p)) ==>
                  Restless(l, q) && Patience(q) < Patience(p))
  {
    var m := NextMove(stream, p);
    if m.Fill? && p.fragment == [] { Completion.EmptyFill(l, stream, p); }
    if m.Wait? || (m.Reopen? && !Opens(p)) { IdleMove(l, p, m); }
  }

  /** Moves until then, at most. */
  function Patience(p: Producer): nat {
    if Polling(p) then 1 + PollSteps(p) else 0
  }

  lemma {:induction false} ThreadGetsDone(l: Limits, streams: seq<seq<byte>>, s: Group, i: nat)
    requires Invariant(l, s) && Delivered(l, streams, s) && i < |s.files| && Restless(l, s.files[i])
    ensures GetsDone(l, streams, s)
    decreases Patience(s.files[i])
  {
    assert Sound(l, s.files[i]) && FullChunks(l, streams[i], s.files[i]);
    var a := FileMoves(i, NextMove(streams[i], s.files[i]));
    NextMoveLeads(l, streams[i], s.files[i]);
    if Productive(s, a) {
      DoneNow(l, streams, s, a);
    } else {
      PipelineSafety.StepKeeps(l, s, a);
      StepKeepsDelivered(l, streams, s, a);
      PipelineSafety.FileAfter(l, s, a, i);
      ThreadGetsDone(l, streams, Next(l, s, a), i);
      DoneLater(l, streams, s, a);
    }
  }

  lemma {:induction false} ConsumerGetsDone(l: Limits, streams: seq<seq<byte>>, s: Group)
    requires l.cap > 0 && s.files != [] && !s.phase.Returned? && HeldSettled(s)
    requires s.phase.Testing? || s.phase.LoopTest? ==> s.failed || s.xorFlag || s.Full(FullSlot(s)) == |s.files|
    ensures GetsDone(l, streams, s)
    decreases EndWork(l, s)
  {
    if Productive(s, Consumer(0)) {
      DoneNow(l, streams, s, Consumer(0));
    } else {
      RankFalls(l, s, 0);
      ConsumerGetsDone(l, streams, Consumed(l, s, 0));
      DoneLater(l, streams, s, Consumer(0));
    }
  }

  /** A thread with both slots sealed has more to come. */
  lemma BlockedHasMore(l: Limits, stream: seq<byte>, p: Producer)
    requires l.cap > 0 && Sound(l, p) && FullChunks(l, stream, p) && Polling(p) && !p.HasOpen()
    ensures |p.sealed| < Generations(l)
  {
    var whole := Concat(Contents(p.sealed));
    FullLength(p.sealed, l.cap);
    assert |p.fed| == |whole| + |p.Carried()|;
    BelowCeiling(l, |p.sealed|);
  }

  /** If one file is blocked, all are: no file is two chunks ahead of another, complete one. */
  lemma BlockedAlike(l: Limits, streams: seq<seq<byte>>, s: Group, i: nat, j: nat)
    requires Invariant(l, s) && Delivered(l, streams, s) && (s.phase.Testing? || s.phase.LoopTest?)
    requires i < |s.files| && j < |s.files| && !Restless(l, s.files[i]) && !Restless(l, s.files[j])
    requires Polling(s.files[i])
    ensures Polling(s.files[j])
  {
    var p, q := s.files[i], s.files[j];
    assert Sound(l, p) && FullChunks(l, streams[i], p) && Sound(l, q) && FullChunks(l, streams[j], q);
    BlockedHasMore(l, streams[i], p);
    Ordering.DrainsBehind(l, s, i);
    Ordering.DrainsBehind(l, s, j);
    if q.pc.Idle? { FinishedCount(l, streams[j], q); }
  }

  lemma AllBlockedIsFull(l: Limits, s: Group)
    requires CountersAgree(s) && (s.phase.Testing? || s.phase.LoopTest?)
    requires forall i :: 0 <= i < |s.files| ==> Polling(s.files[i]) && !Restless(l, s.files[i])
    ensures s.full0 == |s.files|
  {
    forall i | 0 <= i < |s.files| ensures CountBits(s, 0)[i] {
      assert !Restless(l, s.files[i]);
    }
    TallyExtremes(CountBits(s, 0));
    assert s.Full(0) == Tally(CountBits(s, 0));
  }

  /** Every file is complete, the consumer polls, and it will poll for ever. */
  ghost predicate Dead(l: Limits, streams: seq<seq<byte>>, s: Group) {
    Undecided(l, streams, s) && (s.phase.Testing? || s.phase.LoopTest?)
  }

  lemma DeadStep(l: Limits, streams: seq<seq<byte>>, s: Group, a: Action)
    requires Dead(l, streams, s) && Enabled(l, s, a) && Delivers(l, streams, s, a) && !a.PeerFails?
    ensures !Productive(s, a) && Dead(l, streams, Next(l, s, a))
  {
    OnlyConsumer(l, streams, s, a);
    StaysUndecided(l, streams, s, a.accepted);
    if Next(l, s, a).phase.Xoring? { XoringIsSame(l, streams, Next(l, s, a)); }
  }

  lemma {:induction false} DeadForEver(l: Limits, streams: seq<seq<byte>>, s: Group, acts: seq<Action>)
    requires Dead(l, streams, s) && Undisturbed(l, streams, s, acts)
    ensures ProductiveSteps(l, s, acts) == 0
    decreases |acts|
  {
    if acts != [] {
      assert acts[0] in acts;
      DeadStep(l, streams, s, acts[0]);
      DeadForEver(l, streams, Next(l, s, acts[0]), acts[1..]);
    }
  }

  /** Once a flag is set the consumer needs nobody else to get on. */
  lemma HaltsOnlyDead(l: Limits, streams: seq<seq<byte>>, s: Group)
    requires Invariant(l, s) && Delivered(l, streams, s) && !s.phase.Returned? && !Dead(l, streams, s)
    ensures GetsDone(l, streams, s)
  {
    if !(s.phase.Testing? || s.phase.LoopTest?) || s.failed || s.xorFlag {
      ConsumerGetsDone(l, streams, s);
    } else if i :| 0 <= i < |s.files| && Restless(l, s.files[i]) {
      ThreadGetsDone(l, streams, s, i);
    } else {
      NobodyRestless(l, streams, s);
      ConsumerGetsDone(l, streams, s);
    }
  }

  lemma NobodyRestless(l: Limits, streams: seq<seq<byte>>, s: Group)
    requires Invariant(l, s) && Delivered(l, streams, s) && !Dead(l, streams, s)
    requires (s.phase.Testing? || s.phase.LoopTest?) && !s.failed && !s.xorFlag
    requires forall i :: 0 <= i < |s.files| ==> !Restless(l, s.files[i])
    ensures s.Full(FullSlot(s)) == |s.files|
  {
    if i :| 0 <= i < |s.files| && Polling(s.files[i]) {
      forall j | 0 <= j < |s.files| ensures Polling(s.files[j]) { BlockedAlike(l, streams, s, i, j); }
      AllBlockedIsFull(l, s);
    } else {
      forall i | 0 <= i < |s.files| ensures s.files[i].pc.Idle? && s.files[i].fed == streams[i] {
        assert FullChunks(l, streams[i], s.files[i]);
      }
      SomeFull(l, streams, s);
    }
  }

  /**
   * Under any interleaving: in a state of a run that has not returned, something can still get done
   * without a failure, unless every file is complete, the consumer polls, nothing is on record, and two
   * files have sealed differently many chunks into a slot. There is no other deadlock.
   */
  lemma DeadlockIff(l: Limits, streams: seq<seq<byte>>, s: Group)
    requires Invariant(l, s) && Delivered(l, streams, s) && !s.phase.Returned?
    ensures !Dead(l, streams, s) <==>
            exists acts :: Undisturbed(l, streams, s, acts) && ProductiveSteps(l, s, acts) > 0
  {
    if Dead(l, streams, s) {
      forall acts | Undisturbed(l, streams, s, acts) ensures ProductiveSteps(l, s, acts) == 0 {
        DeadForEver(l, streams, s, acts);
      }
    } else {
      HaltsOnlyDead(l, streams, s);
    }
  }

  // ----- Only so much gets done -----

  lemma MoveStaysCarrying(l: Limits, stream: seq<byte>, p: Producer, m: Move)
    requires Sound(l, p) && CanMove(l, p, m) && MoveDelivers(l, stream, p, m) && Carrying(p)
    ensures Carrying(Moved(l, p, m))
  {
  }

  lemma ConsumerKeepsCarrying(l: Limits, s: Group, accepted: nat, i: nat)
    requires HeldSettled(s) && s.files != [] && !s.phase.Returned? && i < |s.files| && Carrying(s.files[i])
    ensures |Consumed(l, s, accepted).files| == |s.files| && Carrying(Consumed(l, s, accepted).files[i])
  {
    Ordering.ConsumerLeavesThreads(l, s, accepted);
    forall k: Index ensures Consumed(l, s, accepted).files[i].Get(k).flag.Writable? <==> s.files[i].Get(k).flag.Writable? {
      ConsumerTouches(l, s, accepted, i, k);
    }
  }

  lemma StepStaysCarrying(l: Limits, streams: seq<seq<byte>>, s: Group, a: Action)
    requires ProducersSound(l, s) && HeldSettled(s) && AllCarrying(s) && Enabled(l, s, a) && Delivers(l, streams, s, a)
    ensures AllCarrying(Next(l, s, a))
  {
    forall i | 0 <= i < |Next(l, s, a).files| ensures Carrying(Next(l, s, a).files[i]) {
      if a.Consumer? {
        Ordering.ConsumerLeavesThreads(l, s, a.accepted);
        ConsumerKeepsCarrying(l, s, a.accepted, i);
      } else {
        PipelineSafety.FileAfter(l, s, a, i);
        if a.FileMoves? && a.file == i { MoveStaysCarrying(l, streams[i], s.files[i], a.move); }
      }
    }
  }

  /** What every step of a run with delivering peers keeps. */
  ghost predicate OnItsWay(l: Limits, streams: seq<seq<byte>>, s: Group) {
    Invariant(l, s) && Delivered(l, streams, s) && AllCarrying(s)
  }

  lemma StepOnItsWay(l: Limits, streams: seq<seq<byte>>, s: Group, a: Action)
    requires OnItsWay(l, streams, s) && Enabled(l, s, a) && Delivers(l, streams, s, a)
    ensures OnItsWay(l, streams, Next(l, s, a))
  {
    PipelineSafety.StepKeeps(l, s, a);
    StepKeepsDelivered(l, streams, s, a);
    StepStaysCarrying(l, streams, s, a);
  }

  lemma StartsOnItsWay(l: Limits, streams: seq<seq<byte>>)
    requires Streams(l, streams)
    ensures OnItsWay(l, streams, Initial(|streams|))
  {
    InitialReached(l, streams);
  }

  lemma {:induction false} RunWork(l: Limits, streams: seq<seq<byte>>, s: Group, acts: seq<Action>)
    requires OnItsWay(l, streams, s) && Runs(l, s, acts) && DeliversRun(l, streams, s, acts)
    ensures OnItsWay(l, streams, After(l, s, acts))
    ensures Work(l, After(l, s, acts)) + ProductiveSteps(l, s, acts) <= Work(l, s)
    decreases |acts|
  {
    if acts != [] {
      StepOnItsWay(l, streams, s, acts[0]);
      WorkStep(l, streams, s, acts[0]);
      RunWork(l, streams, Next(l, s, acts[0]), acts[1..]);
    }
  }

  // ----- It returns, or dies -----

  lemma {:induction false} UndisturbedThen(l: Limits, streams: seq<seq<byte>>, s: Group, a: seq<Action>, b: seq<Action>)
    requires Undisturbed(l, streams, s, a) && Undisturbed(l, streams, After(l, s, a), b)
    ensures Undisturbed(l, streams, s, a + b) && After(l, s, a + b) == After(l, After(l, s, a), b)
    decreases |a|
  {
    if a == [] {
      assert a + b == b;
    } else {
      UndisturbedThen(l, streams, Next(l, s, a[0]), a[1..], b);
      assert (a + b)[1..] == a[1..] + b;
    }
  }

  ghost predicate Over(l: Limits, streams: seq<seq<byte>>, s: Group) {
    s.phase.Returned? || Dead(l, streams, s)
  }

  lemma {:induction false} CanGoOn(l: Limits, streams: seq<seq<byte>>, s: Group) returns (acts: seq<Action>)
    requires OnItsWay(l, streams, s)
    ensures Undisturbed(l, streams, s, acts) && Over(l, streams, After(l, s, acts))
    decreases Work(l, s)
  {
    if Over(l, streams, s) {
      acts := [];
    } else {
      HaltsOnlyDead(l, streams, s);
      var first :| Undisturbed(l, streams, s, first) && ProductiveSteps(l, s, first) > 0;
      RunWork(l, streams, s, first);
      var rest := CanGoOn(l, streams, After(l, s, first));
      UndisturbedThen(l, streams, s, first, rest);
      acts := first + rest;
    }
  }

  /**
   * Any run with delivering peers, whatever the interleaving and whatever fails: at most W steps get
   * something done, and from where it is it can go on, without a further failure, until it has returned
   * or is dead.
   */
  lemma ReturnsOrDies(l: Limits, streams: seq<seq<byte>>, acts: seq<Action>) returns (more: seq<Action>)
    requires Streams(l, streams)
    requires Runs(l, Initial(|streams|), acts) && DeliversRun(l, streams, Initial(|streams|), acts)
    ensures ProductiveSteps(l, Initial(|streams|), acts) <= TotalWork(l, |streams|)
    ensures Undisturbed(l, streams, After(l, Initial(|streams|), acts), more)
    ensures Over(l, streams, After(l, After(l, Initial(|streams|), acts), more))
  {
    StartsOnItsWay(l, streams);
    RunWork(l, streams, Initial(|streams|), acts);
    InitialWork(l, |streams|);
    more := CanGoOn(l, streams, After(l, Initial(|streams|), acts));
  }
}
