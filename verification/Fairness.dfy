/**
 * Prompt runs end: if no thread and not the consumer is passed over for more than K steps, a run without
 * failures returns within a number of steps that K, N, the capacity and the file size determine.
 */
module Fairness {
  import opened Arithmetic
  import opened Bytes
  import opened Slots
  import opened Pipeline
  import PipelineSafety
  import Ordering
  import opened Delivery
  import opened Promptness
  import opened Progress
  import opened Completion
  import opened Guarantees

  datatype Process = Thread(file: nat) | TheConsumer

  predicate IsProcess(s: Group, p: Process) {
    p.Thread? ==> p.file < |s.files|
  }

  predicate By(a: Action, p: Process) {
    if p.Thread? then a.FileMoves? && a.file == p.file else a.Consumer?
  }

  /** Between windows: can the process make a lawful move? */
  ghost predicate Movable(l: Limits, s: Group, p: Process)
    requires IsProcess(s, p)
  {
    match p
    case Thread(i) =>
      var f := s.files[i];
      || f.pc.NotStarted? || f.pc.Loop? || (f.pc.Idle? && |f.fed| < l.size)
      || (f.pc.Sealing? && !AnyFull(s) && !Draining(s))
    case TheConsumer =>
      && !s.phase.Returned?
      && (s.phase.Testing? && s.Full(s.phase.slot) == |s.files| ==>
            forall i :: 0 <= i < |s.files| && Waiting(s.files[i]) ==> !HasEmpty(s.files[i]))
  }

  ghost predicate LawfulMove(l: Limits, streams: seq<seq<byte>>, s: Group, p: Process, a: Action) {
    By(a, p) && Lawful(l, streams, s, a) && Substantial(a)
  }

  /** Which is what "movable" says. */
  lemma MovableIff(l: Limits, streams: seq<seq<byte>>, s: Group, p: Process)
    requires Reached(l, streams, s) && Quiet(s) && IsProcess(s, p)
    ensures Movable(l, s, p) <==> exists a :: LawfulMove(l, streams, s, p, a)
  {
    if Movable(l, s, p) {
      var a := SomeMove(l, streams, s, p);
    }
  }

  lemma SomeMove(l: Limits, streams: seq<seq<byte>>, s: Group, p: Process) returns (a: Action)
    requires Reached(l, streams, s) && Quiet(s) && IsProcess(s, p) && Movable(l, s, p)
    ensures LawfulMove(l, streams, s, p, a)
  {
    if p.TheConsumer? {
      a := ConsumerMove(l, streams, s);
    } else {
      var f := s.files[p.file];
      assert FullChunks(l, streams[p.file], f);
      var m := match f.pc
        case NotStarted => Start
        case Idle => Feed([streams[p.file][|f.fed|]])
        case Loop => if f.HasOpen() then Fill else Wait
        case _ => Seal;
      FreeMove(l, streams, s, p.file, m);
      a := FileMoves(p.file, m);
    }
  }

  // ----- Fair runs -----

  /** Within `n` steps of the run, the process moves, or is found unable to between windows. */
  ghost predicate Served(l: Limits, s: Group, acts: seq<Action>, p: Process, n: nat)
    requires Runs(l, s, acts)
    decreases |acts|
  {
    acts != [] && IsProcess(s, p) ==>
      || By(acts[0], p)
      || (Quiet(s) && !Movable(l, s, p))
      || (n > 1 && Served(l, Next(l, s, acts[0]), acts[1..], p, n - 1))
  }

  /** At every moment, every process is served within `k` steps. */
  ghost predicate FairRun(l: Limits, s: Group, acts: seq<Action>, k: nat)
    requires Runs(l, s, acts)
    decreases |acts|
  {
    && (forall p :: Served(l, s, acts, p, k))
    && (acts != [] ==> Substantial(acts[0]) && FairRun(l, Next(l, s, acts[0]), acts[1..], k))
  }

  // ----- Who gets the next thing done -----

  predicate Polling(p: Producer) {
    p.pc.Loop? || p.pc.Reopening?
  }

  /** Moves of a polling thread until it has stored a byte or reopened a slot. */
  function PollSteps(p: Producer): nat {
    match p.pc
    case Loop => if p.HasOpen() then 1 else if p.slot0.flag.Empty? then 2 else 3
    case Reopening(k) =>
      if p.HasOpen() then 3 - k
      else if k == 0 then (if p.slot0.flag.Empty? then 1 else 2)
      else (if p.slot1.flag.Empty? then 1 else 3)
    case _ => 0
  }

  /** In at most `d` moves of `p`, something gets done, whoever else polls meanwhile. */
  ghost predicate Owes(l: Limits, s: Group, p: Process, d: nat) {
    && IsProcess(s, p) && 1 <= d <= 3
    && match p
       case Thread(i) =>
         var f := s.files[i];
         || f.pc.NotStarted? || f.pc.Counting? || (f.pc.Idle? && |f.fed| < l.size)
         || (f.pc.Sealing? && !AnyFull(s) && !Draining(s))
         || (Polling(f) && (f.HasOpen() || HasEmpty(f)) && PollSteps(f) <= d)
       case TheConsumer =>
         || Draining(s) || s.phase.Deciding? || (s.phase.LoopTest? && s.xorFlag)
         || ((s.phase.Testing? || s.phase.LoopTest?)
             && (forall i :: 0 <= i < |s.files| && Waiting(s.files[i]) ==> !HasEmpty(s.files[i]))
             && exists k: Index :: s.Full(k) == |s.files| && TestsAway(s.phase, k) < d)
  }

  /** No thread works on an empty fragment. */
  ghost predicate Busy(s: Group) {
    forall i :: 0 <= i < |s.files| && Polling(s.files[i]) ==> s.files[i].fragment != []
  }

  /** A thread that has something to do whatever the others do. */
  ghost predicate Eager(l: Limits, f: Producer) {
    || f.pc.NotStarted? || f.pc.Counting? || (f.pc.Idle? && |f.fed| < l.size)
    || (Polling(f) && (f.HasOpen() || HasEmpty(f)))
  }

  /** Unless it is over, somebody owes something. */
  lemma SomeoneOwes(l: Limits, streams: seq<seq<byte>>, s: Group) returns (p: Process)
    requires Reached(l, streams, s) && !s.phase.Returned?
    ensures Owes(l, s, p, 3)
  {
    if i :| 0 <= i < |s.files| && Eager(l, s.files[i]) {
      p := Thread(i);
    } else {
      p := OwesAmongLazy(l, streams, s);
    }
  }

  lemma LazyIsBlocked(l: Limits, stream: seq<byte>, f: Producer)
    requires FullChunks(l, stream, f) && !Eager(l, f) && !f.pc.Sealing?
    ensures Blocked(l, f)
  {
  }

  lemma OwesAmongLazy(l: Limits, streams: seq<seq<byte>>, s: Group) returns (p: Process)
    requires Reached(l, streams, s) && !s.phase.Returned?
    requires forall i :: 0 <= i < |s.files| ==> !Eager(l, s.files[i])
    ensures Owes(l, s, p, 3)
  {
    if Draining(s) || s.phase.Deciding? || (s.phase.LoopTest? && s.xorFlag) {
      p := TheConsumer;
    } else if AnyFull(s) {
      var k: Index := if s.full0 == |s.files| then 0 else 1;
      assert s.Full(k) == |s.files| && TestsAway(s.phase, k) < 3;
      p := TheConsumer;
    } else {
      var i := SomeoneSeals(l, streams, s);
      p := Thread(i);
    }
  }

  /** If everybody else is blocked, somebody must be about to seal. */
  lemma NobodySeals(l: Limits, streams: seq<seq<byte>>, s: Group)
    requires Reached(l, streams, s)
    requires s.phase.Testing? || (s.phase.LoopTest? && !s.xorFlag)
    requires forall i :: 0 <= i < |s.files| ==> !Eager(l, s.files[i]) && !s.files[i].pc.Sealing?
    ensures AnyFull(s)
  {
    forall j | 0 <= j < |s.files| ensures Blocked(l, s.files[j]) {
      LazyIsBlocked(l, streams[j], s.files[j]);
    }
    StuckIsFull(l, streams, s);
  }

  lemma SomeoneSeals(l: Limits, streams: seq<seq<byte>>, s: Group) returns (i: nat)
    requires Reached(l, streams, s) && !AnyFull(s)
    requires s.phase.Testing? || (s.phase.LoopTest? && !s.xorFlag)
    requires forall i :: 0 <= i < |s.files| ==> !Eager(l, s.files[i])
    ensures i < |s.files| && s.files[i].pc.Sealing?
  {
    if forall j :: 0 <= j < |s.files| ==> !s.files[j].pc.Sealing? {
      NobodySeals(l, streams, s);
    }
    i :| 0 <= i < |s.files| && s.files[i].pc.Sealing?;
  }

  /** Who owes something can move. */
  lemma OwesMovable(l: Limits, s: Group, p: Process, d: nat)
    requires Owes(l, s, p, d) && Quiet(s)
    ensures Movable(l, s, p)
  {
  }

  // ----- Idle steps -----

  /** A step that gets nothing done: a poll of a thread, or of the consumer. */
  lemma IdleStep(l: Limits, s: Group, a: Action)
    requires Enabled(l, s, a) && !Productive(s, a) && !a.PeerFails? && Substantial(a) && Busy(s)
    ensures var t := Next(l, s, a);
            if a.Consumer? then t == s.(phase := t.phase)
            else
              && Polling(s.files[a.file]) && (a.move.Wait? || a.move.Reopen?)
              && t == s.(files := s.files[a.file := Moved(l, s.files[a.file], a.move)])
  {
  }

  /** Such a step moves a thread on in its circle and changes nothing else. */
  lemma IdleMove(l: Limits, p: Producer, m: Move)
    requires CanMove(l, p, m) && Bounded(l, p) && (m.Wait? || (m.Reopen? && !Opens(p)))
    ensures Moved(l, p, m) == p.(pc := Moved(l, p, m).pc) && Polling(Moved(l, p, m))
    ensures p.HasOpen() || HasEmpty(p) ==> PollSteps(Moved(l, p, m)) < PollSteps(p)
  {
  }

  lemma ThreadOwesOn(l: Limits, s: Group, a: Action, i: nat, d: nat)
    requires Enabled(l, s, a) && !Productive(s, a) && !a.PeerFails? && Substantial(a) && Busy(s)
    requires Owes(l, s, Thread(i), d)
    ensures if By(a, Thread(i)) then d > 1 && Owes(l, Next(l, s, a), Thread(i), d - 1)
            else Owes(l, Next(l, s, a), Thread(i), d)
  {
    IdleStep(l, s, a);
    var t := Next(l, s, a);
    if a.FileMoves? && a.file == i {
      IdleMove(l, s.files[i], a.move);
      assert PollSteps(t.files[i]) >= 1;
    } else {
      assert t.files[i] == s.files[i];
      assert AnyFull(t) == AnyFull(s);
    }
  }

  lemma ConsumerOwesOn(l: Limits, s: Group, a: Action, d: nat)
    requires Enabled(l, s, a) && !Productive(s, a) && !a.PeerFails? && Substantial(a) && Busy(s)
    requires Owes(l, s, TheConsumer, d)
    ensures if a.Consumer? then d > 1 && Owes(l, Next(l, s, a), TheConsumer, d - 1)
            else Owes(l, Next(l, s, a), TheConsumer, d)
  {
    IdleStep(l, s, a);
    var t := Next(l, s, a);
    assert forall k: Index :: t.Full(k) == s.Full(k);
    if a.Consumer? {
      var k: Index :| s.Full(k) == |s.files| && TestsAway(s.phase, k) < d;
      assert TestsAway(t.phase, k) < d - 1;
    } else {
      IdleMove(l, s.files[a.file], a.move);
      assert forall i :: 0 <= i < |s.files| ==>
        Waiting(t.files[i]) == Waiting(s.files[i]) && HasEmpty(t.files[i]) == HasEmpty(s.files[i]);
    }
  }

  lemma MoveStaysBusy(l: Limits, p: Producer, m: Move)
    requires Sound(l, p) && CanMove(l, p, m) && (m.Feed? ==> m.bytes != [])
    requires Polling(p) ==> p.fragment != []
    ensures Polling(Moved(l, p, m)) ==> Moved(l, p, m).fragment != []
  {
  }

  lemma StaysBusy(l: Limits, s: Group, a: Action)
    requires ProducersSound(l, s) && Busy(s) && Enabled(l, s, a) && Substantial(a)
    ensures Busy(Next(l, s, a))
  {
    var t := Next(l, s, a);
    if a.Consumer? {
      Ordering.ConsumerLeavesThreads(l, s, a.accepted);
    } else {
      forall i | 0 <= i < |t.files| && Polling(t.files[i]) ensures t.files[i].fragment != [] {
        PipelineSafety.FileAfter(l, s, a, i);
        if a.FileMoves? && a.file == i { MoveStaysBusy(l, s.files[i], a.move); }
      }
    }
  }

  // ----- Fair runs end -----

  /** A fair, prompt, undisturbed run goes on from `s`. */
  ghost predicate Live(l: Limits, streams: seq<seq<byte>>, s: Group, acts: seq<Action>, k: nat) {
    && Reached(l, streams, s) && Busy(s)
    && LawfulRun(l, streams, s, acts) && Runs(l, s, acts) && FairRun(l, s, acts, k)
  }

  /** In it, `p` is to be served within `n` steps, and owes `d` moves. */
  ghost predicate Promise(l: Limits, s: Group, acts: seq<Action>, p: Process, d: nat, n: nat)
    requires Runs(l, s, acts)
  {
    Owes(l, s, p, d) && Served(l, s, acts, p, n) && n >= 1
  }

  lemma FairNext(l: Limits, s: Group, acts: seq<Action>, k: nat, p: Process)
    requires acts != [] && Runs(l, s, acts) && FairRun(l, s, acts, k)
    ensures Substantial(acts[0]) && FairRun(l, Next(l, s, acts[0]), acts[1..], k)
    ensures Served(l, Next(l, s, acts[0]), acts[1..], p, k)
  {
    assert FairRun(l, Next(l, s, acts[0]), acts[1..], k);
  }

  lemma StepStaysLive(l: Limits, streams: seq<seq<byte>>, s: Group, acts: seq<Action>, k: nat)
    requires Live(l, streams, s, acts, k) && acts != []
    ensures Live(l, streams, Next(l, s, acts[0]), acts[1..], k)
  {
    FairNext(l, s, acts, k, TheConsumer);
    StepReaches(l, streams, s, acts[0]);
    StaysBusy(l, s, acts[0]);
  }

  lemma OwesOn(l: Limits, s: Group, a: Action, p: Process, d: nat)
    requires Enabled(l, s, a) && !Productive(s, a) && !a.PeerFails? && Substantial(a) && Busy(s) && Owes(l, s, p, d)
    ensures if By(a, p) then d > 1 && Owes(l, Next(l, s, a), p, d - 1) else Owes(l, Next(l, s, a), p, d)
  {
    if p.Thread? { ThreadOwesOn(l, s, a, p.file, d); } else { ConsumerOwesOn(l, s, a, d); }
  }

  /** A step that gets nothing done passes the promise on, with less time to go. */
  lemma PromisePassed(l: Limits, s: Group, acts: seq<Action>, k: nat, p: Process, d: nat, n: nat) returns (e: nat, m: nat)
    requires acts != [] && Runs(l, s, acts) && FairRun(l, s, acts, k) && Promise(l, s, acts, p, d, n)
    requires !Productive(s, acts[0]) && !acts[0].PeerFails? && Busy(s) && k >= 1
    ensures Promise(l, Next(l, s, acts[0]), acts[1..], p, e, m)
    ensures m + Turns(k, e) < n + Turns(k, d)
  {
    FairNext(l, s, acts, k, p);
    OwesOn(l, s, acts[0], p, d);
    if Quiet(s) { OwesMovable(l, s, p, d); }
    e, m := if By(acts[0], p) then d - 1 else d, if By(acts[0], p) then k else n - 1;
  }

  function Turns(k: nat, d: nat): nat
    requires 1 <= d <= 3
  {
    if d == 1 then 0 else if d == 2 then k else k + k
  }

  lemma SomePromise(l: Limits, streams: seq<seq<byte>>, s: Group, acts: seq<Action>, k: nat) returns (p: Process)
    requires Live(l, streams, s, acts, k) && !s.phase.Returned? && k >= 1
    ensures Promise(l, s, acts, p, 3, k)
  {
    p := SomeoneOwes(l, streams, s);
    assert Served(l, s, acts, p, k);
  }

  /** A fair run goes on, and `p` owes. */
  ghost predicate Ongoing(l: Limits, streams: seq<seq<byte>>, s: Group, acts: seq<Action>, k: nat, p: Process, d: nat, n: nat) {
    Live(l, streams, s, acts, k) && Promise(l, s, acts, p, d, n)
  }

  lemma NewPromise(l: Limits, streams: seq<seq<byte>>, s: Group, acts: seq<Action>, k: nat) returns (q: Process)
    requires acts != [] && Live(l, streams, s, acts, k) && k >= 1 && !Next(l, s, acts[0]).phase.Returned?
    ensures Ongoing(l, streams, Next(l, s, acts[0]), acts[1..], k, q, 3, k)
  {
    StepStaysLive(l, streams, s, acts, k);
    q := SomePromise(l, streams, Next(l, s, acts[0]), acts[1..], k);
  }

  lemma OldPromise(l: Limits, streams: seq<seq<byte>>, s: Group, acts: seq<Action>, k: nat, p: Process, d: nat, n: nat)
    returns (e: nat, m: nat)
    requires acts != [] && Ongoing(l, streams, s, acts, k, p, d, n) && k >= 1 && !Productive(s, acts[0])
    ensures Ongoing(l, streams, Next(l, s, acts[0]), acts[1..], k, p, e, m) && m + Turns(k, e) < n + Turns(k, d)
  {
    StepStaysLive(l, streams, s, acts, k);
    e, m := PromisePassed(l, s, acts, k, p, d, n);
  }

  /** One step on: time runs, or something got done and somebody owes the next thing. */
  lemma NextPromise(l: Limits, streams: seq<seq<byte>>, s: Group, acts: seq<Action>, k: nat, p: Process, d: nat, n: nat)
    returns (q: Process, e: nat, m: nat)
    requires acts != [] && Ongoing(l, streams, s, acts, k, p, d, n) && k >= 1 && !Next(l, s, acts[0]).phase.Returned?
    ensures Ongoing(l, streams, Next(l, s, acts[0]), acts[1..], k, q, e, m)
    ensures if Productive(s, acts[0]) then m + Turns(k, e) == 3 * k else m + Turns(k, e) < n + Turns(k, d)
  {
    if Productive(s, acts[0]) {
      q := NewPromise(l, streams, s, acts, k);
      e, m := 3, k;
    } else {
      q := p;
      e, m := OldPromise(l, streams, s, acts, k, p, d, n);
    }
  }

  lemma AllowanceSplits(l: Limits, s: Group, acts: seq<Action>, b: nat)
    requires acts != [] && Runs(l, s, acts)
    ensures Times(b, ProductiveSteps(l, s, acts)) ==
            (if Productive(s, acts[0]) then b else 0) + Times(b, ProductiveSteps(l, Next(l, s, acts[0]), acts[1..]))
  {
  }

  lemma ReturnIsProductive(l: Limits, s: Group, a: Action)
    requires Enabled(l, s, a) && !s.phase.Returned? && Next(l, s, a).phase.Returned?
    ensures Productive(s, a)
  {
  }

  /** The last thing done is the return. */
  lemma OnlyReturn(l: Limits, streams: seq<seq<byte>>, s: Group, acts: seq<Action>)
    requires acts != [] && Reached(l, streams, s) && !s.phase.Returned?
    requires LawfulRun(l, streams, s, acts) && Runs(l, s, acts) && Next(l, s, acts[0]).phase.Returned?
    ensures |acts| == 1 && ProductiveSteps(l, s, acts) == 1 && After(l, s, acts).phase.Returned?
  {
    var t, rest := Next(l, s, acts[0]), acts[1..];
    StepReaches(l, streams, s, acts[0]);
    if rest != [] { ReturnedIsOver(l, streams, t, rest[0]); }
    ReturnIsProductive(l, s, acts[0]);
    assert ProductiveSteps(l, t, rest) == 0 && After(l, t, rest) == t;
  }

  /** A fair run is no longer than the things it got done allow for. */
  lemma {:induction false} LiveRunLength(l: Limits, streams: seq<seq<byte>>, s: Group, acts: seq<Action>, k: nat,
                                         p: Process, d: nat, n: nat)
    requires Ongoing(l, streams, s, acts, k, p, d, n) && k >= 1 && !s.phase.Returned?
    ensures |acts| + (if After(l, s, acts).phase.Returned? then 3 * k else 1) <=
            n + Turns(k, d) + Times(3 * k, ProductiveSteps(l, s, acts))
    decreases |acts|
  {
    if acts != [] {
      var t, rest := Next(l, s, acts[0]), acts[1..];
      if t.phase.Returned? {
        OnlyReturn(l, streams, s, acts);
        TimesIs(3 * k, 1);
      } else {
        var q, e, m := NextPromise(l, streams, s, acts, k, p, d, n);
        LiveRunLength(l, streams, t, rest, k, q, e, m);
        AllowanceSplits(l, s, acts, 3 * k);
      }
    }
  }

  // ----- How much work there is -----

  /** W = N*(10*size + 1) + (N + 10)*ceil(size/cap) + 2. */
  function TotalWork(l: Limits, n: nat): nat
    requires l.cap > 0
  {
    Times(10 * l.size + 1, n) + Times(n + 10, Generations(l)) + 2
  }

  lemma {:induction false} FreshWork(l: Limits, n: nat)
    ensures FilesWork(l, seq(n, _ => FRESH)) == Times(10 * l.size + 1, n)
  {
    if n > 0 {
      assert seq(n, _ => FRESH)[..n - 1] == seq(n - 1, _ => FRESH);
      FreshWork(l, n - 1);
    }
  }

  lemma InitialWork(l: Limits, n: nat)
    requires l.cap > 0
    ensures Work(l, Initial(n)) == TotalWork(l, n)
  {
    FreshWork(l, n);
    assert Initial(n).files == seq(n, _ => FRESH);
  }

  /** Before the return there is work left. */
  lemma WorkLeft(l: Limits, s: Group)
    requires l.cap > 0 && !s.phase.Returned?
    ensures Work(l, s) >= 1
  {
  }

  lemma StartReaches(l: Limits, streams: seq<seq<byte>>, acts: seq<Action>)
    requires Streams(l, streams) && LawfulRun(l, streams, Initial(|streams|), acts) && Runs(l, Initial(|streams|), acts)
    ensures Reached(l, streams, After(l, Initial(|streams|), acts))
    ensures Work(l, After(l, Initial(|streams|), acts)) + ProductiveSteps(l, Initial(|streams|), acts) <= Work(l, Initial(|streams|))
  {
    InitialReached(l, streams);
    LawfulReaches(l, streams, Initial(|streams|), acts);
  }

  /** No more things are done than there is work, and the return is one of them. */
  lemma ProductiveBound(l: Limits, streams: seq<seq<byte>>, acts: seq<Action>)
    requires Streams(l, streams) && LawfulRun(l, streams, Initial(|streams|), acts) && Runs(l, Initial(|streams|), acts)
    ensures ProductiveSteps(l, Initial(|streams|), acts) +
            (if After(l, Initial(|streams|), acts).phase.Returned? then 0 else 1) <= TotalWork(l, |streams|)
  {
    StartReaches(l, streams, acts);
    InitialWork(l, |streams|);
    if !After(l, Initial(|streams|), acts).phase.Returned? { WorkLeft(l, After(l, Initial(|streams|), acts)); }
  }

  /** A prompt, undisturbed run in which everybody is served within `k` steps. */
  ghost predicate FairFromStart(l: Limits, streams: seq<seq<byte>>, acts: seq<Action>, k: nat) {
    && Streams(l, streams)
    && LawfulRun(l, streams, Initial(|streams|), acts) && Runs(l, Initial(|streams|), acts)
    && FairRun(l, Initial(|streams|), acts, k)
  }

  lemma StartsLive(l: Limits, streams: seq<seq<byte>>, acts: seq<Action>, k: nat)
    requires FairFromStart(l, streams, acts, k)
    ensures Live(l, streams, Initial(|streams|), acts, k)
  {
    InitialReached(l, streams);
    assert Busy(Initial(|streams|));
  }

  /** `b` steps for each thing done, and the return is one of them. */
  lemma AllowanceTotal(steps: nat, b: nat, done: nat, over: bool, w: nat)
    requires steps + (if over then b else 1) <= b + Times(b, done)
    requires done + (if over then 0 else 1) <= w
    ensures steps <= b * w
  {
    TimesGrows(b, if over then done else done + 1, w);
    TimesIs(b, w);
  }

  lemma FairRunLength(l: Limits, streams: seq<seq<byte>>, acts: seq<Action>, k: nat)
    requires FairFromStart(l, streams, acts, k) && k >= 1
    ensures |acts| <= 3 * k * TotalWork(l, |streams|)
  {
    var s := Initial(|streams|);
    StartsLive(l, streams, acts, k);
    var p := SomePromise(l, streams, s, acts, k);
    LiveRunLength(l, streams, s, acts, k, p, 3, k);
    ProductiveBound(l, streams, acts);
    AllowanceTotal(|acts|, 3 * k, ProductiveSteps(l, s, acts), After(l, s, acts).phase.Returned?, TotalWork(l, |streams|));
  }

  /** Whatever has happened, the run can go on until it has returned. */
  lemma GoesOn(l: Limits, streams: seq<seq<byte>>, s: Group) returns (a: Action)
    requires Reached(l, streams, s) && !s.phase.Returned?
    ensures Lawful(l, streams, s, a) && Substantial(a)
  {
    if i :| 0 <= i < |s.files| && InWindow(s.files[i]) {
      var m := if s.files[i].pc.Counting? then Count else Reopen;
      FreeMove(l, streams, s, i, m);
      a := FileMoves(i, m);
    } else {
      var p := SomeoneOwes(l, streams, s);
      OwesMovable(l, s, p, 3);
      a := SomeMove(l, streams, s, p);
    }
  }

  /**
   * Every prompt run without failures and without empty fragments, in which every thread and the consumer
   * is served within K steps, ends: it has at most 3*K*W steps, until it has returned it can go on, and
   * once it has returned the verdict is RIGHT, the whole XOR is in the output file, ceil(size/cap) calls
   * were made, and nothing more can happen.
   */
  lemma FairRunsEnd(l: Limits, streams: seq<seq<byte>>, acts: seq<Action>, k: nat)
    requires FairFromStart(l, streams, acts, k) && k >= 1
    ensures |acts| <= 3 * k * TotalWork(l, |streams|)
    ensures var t := After(l, Initial(|streams|), acts);
            t.phase.Returned? <==> !exists a :: Lawful(l, streams, t, a) && Substantial(a)
    ensures SameLength(streams)
    ensures var t := After(l, Initial(|streams|), acts);
            t.phase.Returned? ==>
              t.phase == Returned(Right) && t.outFile == XorAll(streams) && |t.drains| == Generations(l)
  {
    var t := After(l, Initial(|streams|), acts);
    FairRunLength(l, streams, acts, k);
    StartReaches(l, streams, acts);
    if t.phase.Returned? {
      ReturnedIsComplete(l, streams, t);
      forall a ensures !Lawful(l, streams, t, a) { if Lawful(l, streams, t, a) { ReturnedIsOver(l, streams, t, a); } }
    } else {
      var a := GoesOn(l, streams, t);
    }
  }

  // ----- Fair runs exist -----

  lemma {:induction false} ServedInTime(l: Limits, s: Group, acts: seq<Action>, p: Process, n: nat)
    requires Runs(l, s, acts) && n > |acts|
    ensures Served(l, s, acts, p, n)
    decreases |acts|
  {
    if acts != [] { ServedInTime(l, Next(l, s, acts[0]), acts[1..], p, n - 1); }
  }

  lemma {:induction false} ShortIsFair(l: Limits, s: Group, acts: seq<Action>, k: nat)
    requires Runs(l, s, acts) && AllSubstantial(acts) && k > |acts|
    ensures FairRun(l, s, acts, k)
    decreases |acts|
  {
    forall p ensures Served(l, s, acts, p, k) { ServedInTime(l, s, acts, p, k); }
    if acts != [] { ShortIsFair(l, Next(l, s, acts[0]), acts[1..], k); }
  }

  /** Every prompt, undisturbed beginning has a fair continuation that returns. */
  lemma FairRunExists(l: Limits, streams: seq<seq<byte>>, acts: seq<Action>) returns (more: seq<Action>)
    requires Streams(l, streams) && AllSubstantial(acts)
    requires LawfulRun(l, streams, Initial(|streams|), acts) && Runs(l, Initial(|streams|), acts)
    ensures forall k :: k > |acts + more| ==> FairFromStart(l, streams, acts + more, k)
    ensures Runs(l, Initial(|streams|), acts + more)
    ensures After(l, Initial(|streams|), acts + more).phase == Returned(Right)
  {
    var s := Initial(|streams|);
    StartReaches(l, streams, acts);
    more := CanFinish(l, streams, After(l, s, acts));
    RunsAppend(l, streams, s, acts, more);
    forall k | k > |acts + more| ensures FairFromStart(l, streams, acts + more, k) {
      ShortIsFair(l, s, acts + more, k);
    }
  }
}
