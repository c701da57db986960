/**
 * The whole transfer on its real memory: N files' arrays and flags, the shared counters, the output
 * file, and the consumer's loop with the other threads coming in before each of its accesses. Every
 * state this memory goes through is a state of a run of the step machine in Pipeline.
 */
module Transfer {
  import opened Bytes
  import opened Slots
  import opened BufXor
  import opened Pipeline
  import PipelineSafety
  import Ordering
  import Delivery
  import Guarantees
  import opened WriteBuf
  import opened Wrappers
  import opened Schedule
  import Ending

  /** What a suspended receiving thread remembers: where it is, its fragment, its "partly stored" flag. */
  datatype Thread = Thread(pc: Pc, fragment: seq<byte>, split: bool)

  ghost predicate Context(t: Thread, p: Producer) {
    t.pc == p.pc && t.fragment == p.fragment && t.split == p.split
  }

  /** Can the thread make this move now? */
  method Ready(f: FileBuffers, t: Thread, m: Move) returns (ok: bool)
    requires f.Valid() && Context(t, f.view)
    ensures ok == CanMove(f.l, f.view, m)
  {
    var open := f.bufFlag[0] == Writable || f.bufFlag[1] == Writable;
    match m
    case Start => ok := t.pc.NotStarted?;
    case Feed(bytes) => ok := t.pc.Idle? && |bytes| <= f.l.cap;
    case Fill => ok := t.pc.Loop? && open;
    case Seal => ok := t.pc.Sealing?;
    case Count => ok := t.pc.Counting?;
    case Wait => ok := t.pc.Loop? && !open;
    case Reopen => ok := t.pc.Reopening?;
  }

  /** The stretch of `write_buf` up to the next shared access. */
  method MoveFile(f: FileBuffers, t: Thread, m: Move, counters: Counters) returns (u: Thread)
    requires f.Valid() && Context(t, f.view) && CanMove(f.l, f.view, m) && |counters.full| == 2
    modifies f, f.inBuf0, f.inBuf1, counters
    ensures f.Valid() && f.view == Moved(f.l, old(f.view), m) && Context(u, f.view)
    ensures counters.full == if m.Count? then old(counters.full)[t.pc.slot := old(counters.full)[t.pc.slot] + 1]
                             else old(counters.full)
  {
    match m
    case Start =>
      f.StartThread();
      u := t.(pc := Idle);
    case Feed(bytes) =>
      f.BeginCall(bytes);
      u := Thread(Loop, bytes, false);
    case Fill =>
      u := FillFile(f, t);
    case Seal =>
      f.SetSealed(t.pc.slot);
      u := t.(pc := Counting(t.pc.slot, t.pc.last));
    case Count =>
      f.AddToCounter(counters, t.pc.slot);
      u := t.(pc := if t.pc.last then Idle else Reopening(0));
    case Wait =>
      f.Sleep();
      u := t.(pc := Reopening(0));
    case Reopen =>
      f.ReopenTest(t.pc.slot);
      u := t.(pc := if t.pc.slot == 0 then Reopening(1) else Loop);
  }

  method FillFile(f: FileBuffers, t: Thread) returns (u: Thread)
    requires f.Valid() && Context(t, f.view) && CanMove(f.l, f.view, Fill)
    modifies f, f.inBuf0, f.inBuf1
    ensures f.Valid() && f.view == Moved(f.l, old(f.view), Fill) && Context(u, f.view)
  {
    var k: Index := if f.bufFlag[0] == Writable then 0 else 1;
    if f.bufSize[k] + |t.fragment| > f.l.cap {
      f.StorePart(k, t.fragment);
      u := Thread(Sealing(k, false), t.fragment, true);
    } else {
      var ended := f.StoreRest(k, t.fragment, t.split);
      u := Thread(if ended then Sealing(k, true) else Idle, t.fragment, false);
    }
  }

  lemma {:induction false} RunsSnoc(l: Limits, s: Group, acts: seq<Action>, a: Action)
    requires Runs(l, s, acts) && Enabled(l, After(l, s, acts), a)
    ensures Runs(l, s, acts + [a]) && After(l, s, acts + [a]) == Next(l, After(l, s, acts), a)
    decreases |acts|
  {
    if acts == [] {
      var t := Next(l, s, a);
      assert [] + [a] == [a] && [a][1..] == [];
      assert Runs(l, t, []) && After(l, t, []) == t;
      assert After(l, s, [a]) == After(l, t, [a][1..]);
    } else {
      RunsSnoc(l, Next(l, s, acts[0]), acts[1..], a);
      assert (acts + [a])[1..] == acts[1..] + [a];
    }
  }

  lemma FileMoved(l: Limits, s: Group, t: Group, i: nat, m: Move)
    requires i < |s.files| == |t.files| && CanMove(l, s.files[i], m) && Bounded(l, s.files[i])
    requires t == s.(files := t.files, full0 := t.full0, full1 := t.full1)
    requires t.files[i] == Moved(l, s.files[i], m)
    requires forall j :: 0 <= j < |s.files| && j != i ==> t.files[j] == s.files[j]
    requires forall k: Index :: t.Full(k) == s.Full(k) + if m.Count? && k == s.files[i].pc.slot then 1 else 0
    ensures t == Next(l, s, FileMoves(i, m))
  {
    assert t.files == s.files[i := Moved(l, s.files[i], m)];
    assert t.Full(0) == t.full0 && t.Full(1) == t.full1;
  }

  /** What makes `t` the state after the XOR call. */
  lemma XorMoved(l: Limits, s: Group, t: Group, k: Index, accepted: nat, r: Outcome)
    requires s.files != [] && s.phase == Xoring(k) && t.phase == Resetting(k) && |t.files| == |s.files|
    requires t.full0 == s.full0 && t.full1 == s.full1
    requires forall j :: 1 <= j < |s.files| ==> t.files[j] == s.files[j]
    requires r == XorOutcome(s.Buffers(k), accepted)
    requires var bufs := s.Buffers(k);
             && t.files[0] == Overwritten(s.files[0], k, r.first)
             && t.outFile == s.outFile + r.emitted
             && t.failed == (s.failed || !r.ok)
             && t.xorSize == s.xorSize + (if r.ok then |r.first| else 0)
             && t.xorFlag == (s.xorFlag || (r.ok && t.xorSize == l.size))
             && t.drains == s.drains + [Drain(k, bufs, r.emitted)]
             && t.faults == s.faults + if r.ok then [] else if SizesMatch(bufs) then [WriteFailed] else [SizeMismatch]
    ensures t == Next(l, s, Consumer(accepted))
  {
    assert t.files == Next(l, s, Consumer(accepted)).files;
  }

  /** What makes `t` the state after one flag was cleared. */
  lemma ClearMoved(l: Limits, s: Group, t: Group, k: Index, i: nat)
    requires i < |s.files| == |t.files| && s.phase == Clearing(k, i)
    requires t == s.(files := t.files, phase := if i + 1 < |s.files| then Clearing(k, i + 1) else LoopTest)
    requires t.files[i] == Cleared(s.files[i], k)
    requires forall j :: 0 <= j < |s.files| && j != i ==> t.files[j] == s.files[j]
    ensures t == Next(l, s, Consumer(0))
  {
    assert t.files == s.files[i := Cleared(s.files[i], k)];
  }

  ghost predicate AllFresh(files: seq<FileBuffers>, bufs0: seq<array<byte>>, bufs1: seq<array<byte>>)
    requires |bufs0| == |files| && |bufs1| == |files|
    requires forall i :: 0 <= i < |files| ==> files[i].inBuf0 == bufs0[i] && files[i].inBuf1 == bufs1[i]
    reads files, bufs0, bufs1
  {
    forall i :: 0 <= i < |files| ==> files[i].Valid() && files[i].view == FRESH
  }

  lemma OneMore(l: Limits, files: seq<FileBuffers>, bufs0: seq<array<byte>>, bufs1: seq<array<byte>>, f: FileBuffers)
    requires Shaped(l, files, bufs0, bufs1) && AllFresh(files, bufs0, bufs1)
    requires f.l == l && f.Valid() && f.view == FRESH && f !in files
    requires f.inBuf0 !in bufs0 && f.inBuf0 !in bufs1 && f.inBuf1 !in bufs0 && f.inBuf1 !in bufs1
    ensures Shaped(l, files + [f], bufs0 + [f.inBuf0], bufs1 + [f.inBuf1])
    ensures AllFresh(files + [f], bufs0 + [f.inBuf0], bufs1 + [f.inBuf1])
  {
    StillDistinct(bufs0, f.inBuf0);
    StillDistinct(bufs1, f.inBuf1);
  }

  lemma StillDistinct(bufs: seq<array<byte>>, b: array<byte>)
    requires Distinct(bufs) && b !in bufs
    ensures Distinct(bufs + [b])
  {
  }

  /** One more file whose thread has not started. */
  method AllocateOne(l: Limits, files: seq<FileBuffers>, bufs0: seq<array<byte>>, bufs1: seq<array<byte>>)
    returns (fs: seq<FileBuffers>, b0: seq<array<byte>>, b1: seq<array<byte>>)
    requires Shaped(l, files, bufs0, bufs1) && AllFresh(files, bufs0, bufs1)
    ensures Shaped(l, fs, b0, b1) && AllFresh(fs, b0, b1) && |fs| == |files| + 1
    ensures forall i :: 0 <= i < |fs| ==> (fs[i] in files || fresh(fs[i]))
    ensures forall i :: 0 <= i < |b0| ==> (b0[i] in bufs0 || fresh(b0[i]))
    ensures forall i :: 0 <= i < |b1| ==> (b1[i] in bufs1 || fresh(b1[i]))
  {
    var f := new FileBuffers(l);
    assert AllFresh(files, bufs0, bufs1);
    OneMore(l, files, bufs0, bufs1, f);
    fs, b0, b1 := files + [f], bufs0 + [f.inBuf0], bufs1 + [f.inBuf1];
  }

  /** N files. */
  method Allocate(l: Limits, n: nat) returns (files: seq<FileBuffers>, bufs0: seq<array<byte>>, bufs1: seq<array<byte>>)
    ensures Shaped(l, files, bufs0, bufs1) && |files| == n && AllFresh(files, bufs0, bufs1)
    ensures fresh(files) && fresh(bufs0) && fresh(bufs1)
  {
    if n == 0 {
      files, bufs0, bufs1 := [], [], [];
    } else {
      files, bufs0, bufs1 := Allocate(l, n - 1);
      files, bufs0, bufs1 := AllocateOne(l, files, bufs0, bufs1);
    }
  }

  /** Different files are different objects with different arrays. */
  ghost predicate Shaped(l: Limits, files: seq<FileBuffers>, bufs0: seq<array<byte>>, bufs1: seq<array<byte>>) {
    && |bufs0| == |files| && |bufs1| == |files|
    && (forall i :: 0 <= i < |files| ==> files[i].l == l && files[i].inBuf0 == bufs0[i] && files[i].inBuf1 == bufs1[i])
    && (forall i, j :: 0 <= i < j < |files| ==> files[i] != files[j])
    && Distinct(bufs0) && Distinct(bufs1)
    && (forall i, j :: 0 <= i < |bufs0| && 0 <= j < |bufs1| ==> bufs0[i] != bufs1[j])
  }

  class Memory {
    const l: Limits
    const files: seq<FileBuffers>
    const bufs0: seq<array<byte>>
    const bufs1: seq<array<byte>>
    const counters: Counters
    const group: FileGroup
    var threads: seq<Thread>

    /** What the other threads will try before each coming access of the consumer. */
    var schedule: seq<seq<Action>>
    /** How many bytes the file will take in each coming XOR call. */
    var accepts: seq<nat>

    ghost var phase: Phase
    ghost var drains: seq<Drain>
    ghost var faults: seq<Fault>
    /** All steps made so far. */
    ghost var trace: seq<Action>

    ghost predicate FileFits(i: nat)
      requires Shaped(l, files, bufs0, bufs1) && i < |files| == |threads|
      reads this`threads, files[i], bufs0[i], bufs1[i]
    {
      files[i].Valid() && Context(threads[i], files[i].view)
    }

    ghost predicate Fits()
      reads this`threads, files, bufs0, bufs1, counters
    {
      && Shaped(l, files, bufs0, bufs1) && files != [] && group.fileSize == l.size
      && |threads| == |files| && |counters.full| == 2
      && forall i :: 0 <= i < |files| ==> FileFits(i)
    }

    /** The state of the step machine that the memory stands for. */
    ghost function View(): Group
      requires |counters.full| == 2
      reads this`phase, this`drains, this`faults, files, counters, group
    {
      Group(seq(|files|, i requires 0 <= i < |files| reads files => files[i].view), counters.full[0], counters.full[1],
            group.xorSize, group.xorFlag, !group.correct, group.outFile, phase, drains, faults)
    }

    /** Where the consumer's loop is. */
    ghost function Position(): Point
      requires |counters.full| == 2
      reads this, files, counters, group
    {
      Point(View(), schedule, accepts)
    }

    /** The steps made so far and those the loop is still going to make. */
    ghost function AllSteps(): seq<Action>
      requires |counters.full| == 2
      reads this, files, counters, group
    {
      trace + Play(l, Position())
    }

    /** Where the loop is going to stop. */
    ghost function Stop(): Point
      requires |counters.full| == 2
      reads this, files, counters, group
    {
      End(l, Position())
    }

    ghost predicate Valid()
      reads this, files, bufs0, bufs1, counters, group
    {
      && Fits()
      && Runs(l, Initial(|files|), trace) && After(l, Initial(|files|), trace) == View()
    }

    constructor (l: Limits, n: nat, schedule: seq<seq<Action>>, accepts: seq<nat>)
      requires n >= 1
      ensures Valid() && phase == Testing(0) && trace == [] && |files| == n && this.l == l
      ensures Position() == Point(Initial(n), schedule, accepts)
      ensures fresh(files) && fresh(bufs0) && fresh(bufs1) && fresh(counters) && fresh(group)
    {
      var fs, b0, b1 := Allocate(l, n);
      var c := new Counters();
      var g := new FileGroup(l.size);
      this.l := l;
      files, bufs0, bufs1 := fs, b0, b1;
      counters, group := c, g;
      threads := seq(n, _ => Thread(NotStarted, [], false));
      this.schedule, this.accepts := schedule, accepts;
      phase, drains, faults, trace := Testing(0), [], [], [];
      new;
      forall i | 0 <= i < n ensures FileFits(i) {
      }
      assert View().files == Initial(n).files;
      assert View() == Initial(n);
    }

    lemma Reachable()
      requires Valid()
      ensures Invariant(l, View())
    {
      PipelineSafety.InitialInvariant(l, |files|);
      PipelineSafety.RunKeeps(l, Initial(|files|), trace);
    }

    /** What the consumer holds is settled. */
    lemma HeldIsSettled(i: nat, k: Index)
      requires Valid() && i < |files| && View().Holds(i, k)
      ensures files[i].view.Settled(k)
    {
      Reachable();
      assert View().files[i].Settled(k);
    }

    /** The memory has moved from `s` as `a` says. */
    ghost method Record(s: Group, a: Action)
      requires Fits() && Runs(l, Initial(|files|), trace) && After(l, Initial(|files|), trace) == s
      requires Enabled(l, s, a) && View() == Next(l, s, a)
      modifies this`trace
      ensures Valid() && trace == old(trace) + [a]
    {
      RunsSnoc(l, Initial(|files|), trace, a);
      trace := trace + [a];
    }

    // ----- The other threads -----

    /** The step has been made, if it could be. */
    ghost predicate Stepped(s: Group, t: Group, a: Action) {
      t == if Enabled(l, s, a) then Next(l, s, a) else s
    }

    /** File `i`'s thread makes move `m`; the other files do not notice. */
    method MakeMove(i: nat, m: Move)
      requires Fits() && i < |files| && FileFits(i) && CanMove(l, files[i].view, m)
      modifies this`threads, files[i], bufs0[i], bufs1[i], counters
      ensures Fits() && files[i].view == Moved(l, old(files[i].view), m)
      ensures forall j :: 0 <= j < |files| && j != i ==> files[j].view == old(files[j].view)
      ensures var pc := old(files[i].view.pc);
              counters.full == if m.Count? then old(counters.full)[pc.slot := old(counters.full)[pc.slot] + 1]
                               else old(counters.full)
    {
      var u := MoveFile(files[i], threads[i], m, counters);
      threads := threads[i := u];
      forall j | 0 <= j < |files| ensures FileFits(j) {
        if j != i { assert old(FileFits(j)); }
      }
    }

    /** ... if it can, and as a step of the run. */
    method FileStep(i: nat, m: Move)
      requires Valid() && i < |files|
      modifies this`threads, this`trace, files[i], bufs0[i], bufs1[i], counters
      ensures Valid() && old(trace) <= trace
      ensures trace == if CanMove(l, old(files[i].view), m) then old(trace) + [FileMoves(i, m)] else old(trace)
      ensures Stepped(old(View()), View(), FileMoves(i, m))
    {
      assert FileFits(i);
      var ok := Ready(files[i], threads[i], m);
      if ok {
        ghost var before := View();
        MakeMove(i, m);
        FileMoved(l, before, View(), i, m);
        Record(before, FileMoves(i, m));
      }
    }

    /** A peer fails: some thread sets the group's error flag. */
    method FailStep(i: nat)
      requires Valid() && i < |files|
      modifies this`faults, this`trace, group`correct
      ensures Valid() && trace == old(trace) + [PeerFails(i)]
      ensures Stepped(old(View()), View(), PeerFails(i))
    {
      ghost var before := View();
      group.correct := false;
      faults := faults + [PeerFailed(i)];
      assert View().files == before.files;
      Record(before, PeerFails(i));
    }

    /** One listed step, if it can be made. */
    method TryStep(a: Action)
      requires Valid()
      modifies this`threads, this`trace, this`faults, files, bufs0, bufs1, counters, group`correct
      ensures Valid()
      ensures if Enabled(l, old(View()), a) && !a.Consumer? then trace == old(trace) + [a] && View() == Next(l, old(View()), a)
              else trace == old(trace) && View() == old(View())
    {
      match a
      case FileMoves(i, m) =>
        if i < |files| {
          assert FileFits(i);
          FileStep(i, m);
        }
      case PeerFails(i) => if i < |files| { FailStep(i); }
      case Consumer(_) =>
    }

    /** Whatever the other threads do before the consumer's next access. */
    method Pause()
      requires Valid()
      modifies this`threads, this`trace, this`faults, this`schedule, files, bufs0, bufs1, counters, group`correct
      ensures Valid() && schedule == Tail(old(schedule))
      ensures trace == old(trace) + Made(l, old(View()), Head(old(schedule)))
      ensures View() == Paused(l, old(View()), Head(old(schedule)))
    {
      if schedule == [] {
        return;
      }
      var events := schedule[0];
      schedule := schedule[1..];
      assert events[0..] == events;
      for e := 0 to |events|
        invariant Valid() && schedule == old(schedule)[1..]
        invariant trace + Made(l, View(), events[e..]) == old(trace) + Made(l, old(View()), events)
        invariant Paused(l, View(), events[e..]) == Paused(l, old(View()), events)
      {
        ghost var s, t := View(), trace;
        assert events[e..][0] == events[e] && events[e..][1..] == events[e + 1..];
        TryStep(events[e]);
        Associate(t, [events[e]], Made(l, View(), events[e + 1..]));
      }
    }

    // ----- The consumer -----

    /** Is the slot full in every file? */
    method TestCounter(k: Index) returns (full: bool)
      requires Valid() && phase == Testing(k)
      modifies this`phase, this`trace
      ensures Valid() && trace == old(trace) + [Consumer(0)] && View() == Next(l, old(View()), Consumer(0))
      ensures phase == if full then Xoring(k) else if k == 0 then Testing(1) else LoopTest
    {
      ghost var before := View();
      full := counters.full[k] == |files|;
      phase := if full then Xoring(k) else if k == 0 then Testing(1) else LoopTest;
      assert View().files == before.files;
      Record(before, Consumer(0));
    }

    /** The bytes of slot `k` in every file, as the XOR routine finds them. */
    ghost function Bytes(k: Index): seq<seq<byte>>
      reads files
    {
      seq(|files|, i requires 0 <= i < |files| reads files => files[i].view.Get(k).bytes)
    }

    /** The arrays of slot `k`. */
    function Arrays(k: Index): (r: seq<array<byte>>) {
      if k == 0 then bufs0 else bufs1
    }

    lemma SlotHeld(i: nat, k: Index)
      requires Fits() && i < |files|
      ensures |files[i].bufSize| == 2 && files[i].bufSize[k] <= Arrays(k)[i].Length
      ensures Arrays(k)[i][..files[i].bufSize[k]] == Bytes(k)[i]
    {
      assert FileFits(i);
    }

    /** How much each file holds in slot `k`. */
    method Sizes(k: Index) returns (sizes: seq<nat>)
      requires Fits()
      ensures |sizes| == |files|
      ensures forall i :: 0 <= i < |files| ==> sizes[i] <= Arrays(k)[i].Length && Arrays(k)[i][..sizes[i]] == Bytes(k)[i]
    {
      sizes := [];
      for i := 0 to |files|
        invariant |sizes| == i
        invariant forall j :: 0 <= j < i ==> sizes[j] <= Arrays(k)[j].Length && Arrays(k)[j][..sizes[j]] == Bytes(k)[j]
      {
        SlotHeld(i, k);
        sizes := sizes + [files[i].bufSize[k]];
      }
    }

    /** The XOR routine on the N arrays of slot `k`: what it leaves in file 0's array and in the group. */
    method XorSlotArrays(k: Index, accepted: nat)
      requires Fits()
      modifies Arrays(k)[0], group
      ensures var r := XorOutcome(old(Bytes(k)), accepted);
              && |r.first| == |old(Bytes(k))[0]| <= Arrays(k)[0].Length && Arrays(k)[0][..|r.first|] == r.first
              && group.outFile == old(group.outFile) + r.emitted
              && group.correct == (old(group.correct) && r.ok)
              && group.xorSize == old(group.xorSize) + (if r.ok then |r.first| else 0)
              && group.xorFlag == (old(group.xorFlag) || (r.ok && group.xorSize == l.size))
    {
      var sizes := Sizes(k);
      XorArrays(group, Arrays(k), sizes, accepted, Bytes(k));
    }

    /** ... and the history with it. */
    ghost method OverwriteFirst(k: Index, bytes: seq<byte>)
      requires Shaped(l, files, bufs0, bufs1) && files != [] && group.fileSize == l.size
      requires |threads| == |files| && |counters.full| == 2
      requires forall j :: 1 <= j < |files| ==> FileFits(j)
      requires var f := files[0];
               && Sound(l, f.view) && f.view.Settled(k) && |bytes| == |f.view.Get(k).bytes|
               && f.inBuf0 != f.inBuf1 && f.view.copied == f.cpSize && f.view.fileIndex == f.fileIndex
               && f.HoldsSlot(Other(k), f.view.Get(Other(k))) && f.HoldsSlot(k, f.view.Get(k).(bytes := bytes))
               && Context(threads[0], f.view)
      modifies files[0]
      ensures Fits()
      ensures files[0].view == Overwritten(old(files[0].view), k, bytes)
      ensures forall j :: 1 <= j < |files| ==> files[j].view == old(files[j].view)
    {
      files[0].Overwrite(k, bytes);
      forall j | 0 <= j < |files| ensures FileFits(j) {
        if j > 0 { assert old(FileFits(j)); }
      }
    }

    /** The XOR routine; the history of file 0 does not follow yet, and no other file notices. */
    method XorFirst(k: Index, accepted: nat, ghost r: Outcome)
      requires Fits() && files[0].view.Settled(k) && r == XorOutcome(Bytes(k), accepted)
      modifies Arrays(k)[0], group
      ensures && group.outFile == old(group.outFile) + r.emitted
              && group.correct == (old(group.correct) && r.ok)
              && group.xorSize == old(group.xorSize) + (if r.ok then |r.first| else 0)
              && group.xorFlag == (old(group.xorFlag) || (r.ok && group.xorSize == l.size))
      ensures forall j :: 1 <= j < |files| ==> FileFits(j)
      ensures var f := files[0];
              && |r.first| == |f.view.Get(k).bytes|
              && f.HoldsSlot(Other(k), f.view.Get(Other(k))) && f.HoldsSlot(k, f.view.Get(k).(bytes := r.first))
    {
      assert FileFits(0) && files[0].HoldsSlot(Other(k), files[0].view.Get(Other(k)));
      XorSlotArrays(k, accepted);
      forall j | 1 <= j < |files| ensures FileFits(j) {
        assert old(FileFits(j));
      }
    }

    method XorFiles(k: Index, accepted: nat, ghost r: Outcome)
      requires Fits() && files[0].view.Settled(k) && r == XorOutcome(Bytes(k), accepted)
      modifies files[0], Arrays(k)[0], group
      ensures Fits()
      ensures && files[0].view == Overwritten(old(files[0].view), k, r.first)
              && group.outFile == old(group.outFile) + r.emitted
              && group.correct == (old(group.correct) && r.ok)
              && group.xorSize == old(group.xorSize) + (if r.ok then |r.first| else 0)
              && group.xorFlag == (old(group.xorFlag) || (r.ok && group.xorSize == l.size))
      ensures forall j :: 1 <= j < |files| ==> files[j].view == old(files[j].view)
    {
      assert FileFits(0);
      XorFirst(k, accepted, r);
      OverwriteFirst(k, r.first);
    }

    /** What the history keeps of an XOR call. */
    ghost method NoteDrain(k: Index, s: Group, accepted: nat, r: Outcome)
      requires Fits() && s.files != [] && s.phase == Xoring(k) && r == XorOutcome(s.Buffers(k), accepted)
      requires |files| == |s.files| && files[0].view == Overwritten(s.files[0], k, r.first)
      requires forall j :: 1 <= j < |files| ==> files[j].view == s.files[j]
      requires counters.full == [s.full0, s.full1] && drains == s.drains && faults == s.faults
      requires group.outFile == s.outFile + r.emitted && group.correct == (!s.failed && r.ok)
      requires group.xorSize == s.xorSize + (if r.ok then |r.first| else 0)
      requires group.xorFlag == (s.xorFlag || (r.ok && group.xorSize == l.size))
      modifies this`phase, this`drains, this`faults
      ensures Fits() && View() == Next(l, s, Consumer(accepted))
    {
      var bufs := s.Buffers(k);
      phase, drains := Resetting(k), drains + [Drain(k, bufs, r.emitted)];
      faults := faults + if r.ok then [] else if SizesMatch(bufs) then [WriteFailed] else [SizeMismatch];
      XorMoved(l, s, View(), k, accepted, r);
    }

    /** The XOR call, as a step. */
    method XorStep(k: Index, accepted: nat, ghost s: Group)
      requires Fits() && View() == s && phase == Xoring(k) && s.files[0].Settled(k)
      modifies this`phase, this`drains, this`faults, files[0], Arrays(k)[0], group
      ensures Fits() && View() == Next(l, s, Consumer(accepted))
    {
      assert s.Buffers(k) == Bytes(k);
      ghost var r := XorOutcome(s.Buffers(k), accepted);
      XorFiles(k, accepted, r);
      NoteDrain(k, s, accepted, r);
    }

    /** ... its result is ignored. */
    method XorSlot(k: Index)
      requires Valid() && phase == Xoring(k)
      modifies this`phase, this`drains, this`faults, this`trace, this`accepts, files[0], Arrays(k)[0], group
      ensures Valid() && phase == Resetting(k) && accepts == Tail(old(accepts))
      ensures var a := Consumer(Accepted(Xoring(k), old(accepts)));
              trace == old(trace) + [a] && View() == Next(l, old(View()), a)
    {
      ghost var s := View();
      var accepted := if accepts == [] then 0 else accepts[0];
      accepts := if accepts == [] then [] else accepts[1..];
      HeldIsSettled(0, k);
      XorStep(k, accepted, s);
      Record(s, Consumer(accepted));
    }

    method ResetCounter(k: Index)
      requires Valid() && phase == Resetting(k)
      modifies this`phase, this`trace, counters
      ensures Valid() && phase == Clearing(k, 0)
      ensures trace == old(trace) + [Consumer(0)] && View() == Next(l, old(View()), Consumer(0))
    {
      ghost var s := View();
      counters.full := counters.full[k := 0];
      phase := Clearing(k, 0);
      assert View().files == s.files;
      Record(s, Consumer(0));
    }

    /** File `i` gets slot `k` back. */
    method ClearStep(k: Index, i: nat, ghost s: Group)
      requires Fits() && View() == s && phase == Clearing(k, i) && i < |files| && s.files[i].Settled(k)
      modifies this`phase, files[i]
      ensures Fits() && View() == Next(l, s, Consumer(0))
    {
      assert FileFits(i);
      files[i].ClearFlag(k);
      phase := if i + 1 < |files| then Clearing(k, i + 1) else LoopTest;
      forall j | 0 <= j < |files| ensures FileFits(j) {
        if j != i { assert old(FileFits(j)); }
      }
      ClearMoved(l, s, View(), k, i);
    }

    method ClearSlot(k: Index, i: nat)
      requires Valid() && phase == Clearing(k, i) && i < |files|
      modifies this`phase, this`trace, files[i]
      ensures Valid() && trace == old(trace) + [Consumer(0)] && View() == Next(l, old(View()), Consumer(0))
      ensures phase == if i + 1 < |files| then Clearing(k, i + 1) else LoopTest
    {
      ghost var s := View();
      HeldIsSettled(i, k);
      ClearStep(k, i, s);
      Record(s, Consumer(0));
    }

    /** `p` was where the loop stood, `t` the trace; then the others came in, and then came one step of its own. */
    ghost predicate Accessed(p: Point, t: seq<Action>)
      requires |counters.full| == 2
      reads this, files, counters, group
    {
      !Stops(p) && Position() == Access(l, p) && trace == t + AccessSteps(l, p)
    }

    lemma AccessOwes(p: Point, t: seq<Action>)
      requires |counters.full| == 2 && Accessed(p, t)
      ensures AllSteps() == t + Play(l, p) && Stop() == End(l, p)
    {
      Associate(t, AccessSteps(l, p), Play(l, Position()));
    }

    method NextTest(k: Index) returns (full: bool)
      requires Valid() && phase == Testing(k) && (k == 0 ==> schedule != [])
      modifies this`phase, this`threads, this`trace, this`faults, this`schedule, files, bufs0, bufs1, counters, group`correct
      ensures Valid() && AllSteps() == old(AllSteps()) && Stop() == old(Stop()) && schedule == Tail(old(schedule))
      ensures phase == if full then Xoring(k) else if k == 0 then Testing(1) else LoopTest
    {
      ghost var p, t := Position(), trace;
      Pause();
      full := TestCounter(k);
      AccessOwes(p, t);
    }

    method NextXor(k: Index)
      requires Valid() && phase == Xoring(k)
      modifies this, files, bufs0, bufs1, counters, group
      ensures Valid() && AllSteps() == old(AllSteps()) && Stop() == old(Stop()) && schedule == Tail(old(schedule))
      ensures phase == Resetting(k)
    {
      ghost var p, t := Position(), trace;
      Pause();
      XorSlot(k);
      AccessOwes(p, t);
    }

    method NextReset(k: Index)
      requires Valid() && phase == Resetting(k)
      modifies this`phase, this`threads, this`trace, this`faults, this`schedule, files, bufs0, bufs1, counters, group`correct
      ensures Valid() && AllSteps() == old(AllSteps()) && Stop() == old(Stop()) && schedule == Tail(old(schedule))
      ensures phase == Clearing(k, 0)
    {
      ghost var p, t := Position(), trace;
      Pause();
      ResetCounter(k);
      AccessOwes(p, t);
    }

    method NextClear(k: Index, i: nat)
      requires Valid() && phase == Clearing(k, i) && i < |files|
      modifies this`phase, this`threads, this`trace, this`faults, this`schedule, files, bufs0, bufs1, counters, group`correct
      ensures Valid() && AllSteps() == old(AllSteps()) && Stop() == old(Stop()) && schedule == Tail(old(schedule))
      ensures phase == if i + 1 < |files| then Clearing(k, i + 1) else LoopTest
    {
      ghost var p, t := Position(), trace;
      Pause();
      ClearSlot(k, i);
      AccessOwes(p, t);
    }

    /** One drain: XOR, reset the counter, then clear the N flags. */
    method DrainSlot(k: Index)
      requires Valid() && phase == Xoring(k)
      modifies this, files, bufs0, bufs1, counters, group
      ensures Valid() && AllSteps() == old(AllSteps()) && Stop() == old(Stop()) && |schedule| <= |old(schedule)|
      ensures phase == LoopTest
    {
      NextXor(k);
      NextReset(k);
      for i := 0 to |files|
        invariant Valid() && AllSteps() == old(AllSteps()) && Stop() == old(Stop()) && |schedule| <= |old(schedule)|
        invariant phase == if i < |files| then Clearing(k, i) else LoopTest
      {
        NextClear(k, i);
      }
    }

    /** The loop's condition. */
    method LoopEnds() returns (ends: bool)
      requires Valid() && phase == LoopTest
      modifies this`phase, this`trace
      ensures Valid() && phase == if ends then Deciding else Testing(0)
      ensures trace == old(trace) + [Consumer(0)] && View() == Next(l, old(View()), Consumer(0))
    {
      ghost var s := View();
      ends := group.xorFlag || !group.correct;
      phase := if ends then Deciding else Testing(0);
      assert View().files == s.files;
      Record(s, Consumer(0));
    }

    method Decide() returns (verdict: Verdict)
      requires Valid() && phase == Deciding
      modifies this`phase, this`trace
      ensures Valid() && phase == Returned(verdict)
      ensures trace == old(trace) + [Consumer(0)] && View() == Next(l, old(View()), Consumer(0))
      ensures verdict.Right? <==> group.correct
    {
      ghost var s := View();
      Reachable();
      verdict := if !group.correct || l.size != group.xorSize then TransmissionError else Verdict.Right;
      phase := Returned(verdict);
      assert View().files == s.files;
      Record(s, Consumer(0));
    }

    /** The body of the loop: slot 0 if it is full everywhere, else slot 1 if it is, else sleep. */
    method TestAndDrain()
      requires Valid() && phase == Testing(0) && schedule != []
      modifies this, files, bufs0, bufs1, counters, group
      ensures Valid() && AllSteps() == old(AllSteps()) && Stop() == old(Stop()) && |schedule| < |old(schedule)|
      ensures phase == LoopTest
    {
      var full := NextTest(0);
      if full {
        DrainSlot(0);
      } else {
        full := NextTest(1);
        if full {
          DrainSlot(1);
        }
      }
    }

    /** The loop's condition, and the verdict if it ends. */
    method NextLoopTest() returns (ends: bool)
      requires Valid() && phase == LoopTest
      modifies this`phase, this`threads, this`trace, this`faults, this`schedule, files, bufs0, bufs1, counters, group`correct
      ensures Valid() && AllSteps() == old(AllSteps()) && Stop() == old(Stop()) && schedule == Tail(old(schedule))
      ensures phase == if ends then Deciding else Testing(0)
    {
      ghost var p, t := Position(), trace;
      Pause();
      ends := LoopEnds();
      AccessOwes(p, t);
    }

    /** What the verdict says of the group, or that there is none yet. */
    ghost predicate Judged(r: Option<Verdict>)
      requires Valid()
      reads this, files, bufs0, bufs1, counters, group
    {
      && phase == (if r.Some? then Returned(r.value) else Testing(0))
      && (r.Some? ==> (r.value.Right? <==> group.correct))
      && (r == Some(Verdict.Right) ==> group.xorSize == l.size && (|group.outFile| == l.size <==> AllWhole(drains)))
      && (r == Some(Verdict.Right) ==>
            forall streams :: Faithful(streams) ==> (group.outFile == XorAll(streams) <==> |group.outFile| == l.size))
    }

    /** After the loop. */
    method EndJudge() returns (verdict: Verdict)
      requires Valid() && phase == Deciding
      modifies this, files, bufs0, bufs1, counters, group
      ensures Valid() && AllSteps() == old(AllSteps()) && Stop() == old(Stop()) && schedule == Tail(old(schedule))
      ensures Judged(Some(verdict))
    {
      ghost var p, t := Position(), trace;
      Pause();
      verdict := Decide();
      AccessOwes(p, t);
      if group.correct { DecidedIsWhole(); }
    }

    /** Once round the loop. */
    method GoRound() returns (r: Option<Verdict>)
      requires Valid() && phase == Testing(0) && schedule != []
      modifies this, files, bufs0, bufs1, counters, group
      ensures Valid() && AllSteps() == old(AllSteps()) && Stop() == old(Stop()) && |schedule| < |old(schedule)|
      ensures Judged(r)
    {
      TestAndDrain();
      var ends := NextLoopTest();
      if !ends {
        return None;
      }
      var verdict := EndJudge();
      return Some(verdict);
    }

    /**
     * The consumer. The steps made are those of the schedule played against its loop, and it stops where
     * that stops: if the schedule leaves all files complete, with enough accesses to come, it returns
     * exactly if `Ending.ReturnsIff` says so. The verdict is RIGHT exactly when no error flag was set, and
     * then all `l.size` bytes were XORed, and are in the file unless an unchecked write lost some. None says
     * that the schedule ran out before the loop ended.
     */
    method JudgeXorCondition() returns (r: Option<Verdict>)
      requires Valid() && phase == Testing(0)
      modifies this, files, bufs0, bufs1, counters, group
      ensures Valid() && trace == old(trace + Play(l, Position())) && Position() == old(End(l, Position()))
      ensures if r.Some? then phase == Returned(r.value) else phase == Testing(0) && schedule == []
      ensures forall streams, n, q :: Settles(l, streams, old(Position()), n, q) ==> (r.Some? <==> Ending.WillReturn(q.state))
      ensures Judged(r)
    {
      ghost var start := Position();
      r := None;
      while schedule != [] && r == None
        invariant Valid() && AllSteps() == old(AllSteps()) && Stop() == old(Stop()) && Judged(r)
        decreases |schedule|
      {
        r := GoRound();
      }
      LoopStopped(start, r);
    }

    /** Where the loop stops it makes no more steps, and it has returned exactly where that is foreseen. */
    lemma LoopStopped(start: Point, r: Option<Verdict>)
      requires Valid() && Judged(r) && (schedule == [] || r.Some?) && Stop() == End(l, start)
      ensures AllSteps() == trace && Stop() == Position()
      ensures forall streams, n, q :: Settles(l, streams, start, n, q) ==> (r.Some? <==> Ending.WillReturn(q.state))
    {
      assert Stops(Position()) && trace + [] == trace;
      forall streams, n, q | Settles(l, streams, start, n, q) ensures r.Some? <==> Ending.WillReturn(q.state) {
        LoopReturnsIff(l, streams, start, n, q);
      }
    }

    /** The peers sent `streams`, whole or in part, and the consumer overtook nowhere. */
    ghost predicate Faithful(streams: seq<seq<byte>>)
      requires Valid()
      reads this, files, bufs0, bufs1, counters, group
      ensures Faithful(streams) ==> SameLength(streams) && |XorAll(streams)| == l.size
    {
      && Delivery.Streams(l, streams) && |streams| == |files|
      && Guarantees.DeliversRun(l, streams, Initial(|files|), trace) && Ordering.OvertakeFree(l, Initial(|files|), trace)
    }

    /**
     * At every moment without an error flag, the file holds the first `xorSize` bytes of the XOR, exactly
     * if no unchecked write was cut short.
     */
    lemma OutputSoFar(streams: seq<seq<byte>>)
      requires Valid() && Faithful(streams) && group.correct
      ensures group.xorSize <= l.size && (Delivery.HoldsXor(streams, group.xorSize, group.outFile) <==> AllWhole(drains))
    {
      Guarantees.OrderlyOutput(l, streams, trace);
      Reachable();
    }

    /** With no error flagged, a decided transfer has XORed everything, and is complete if the file is. */
    lemma DecidedIsWhole()
      requires Valid() && phase.Returned? && group.correct
      ensures group.xorSize == l.size && (|group.outFile| == l.size <==> AllWhole(drains))
      ensures forall streams :: Faithful(streams) ==> (group.outFile == XorAll(streams) <==> |group.outFile| == l.size)
    {
      Reachable();
      PipelineSafety.EmittedSize(drains);
      forall streams | Faithful(streams) ensures group.outFile == XorAll(streams) <==> |group.outFile| == l.size {
        OutputSoFar(streams);
      }
    }
  }

  method XorArrays(group: FileGroup, inBuf: seq<array<byte>>, sizes: seq<nat>, accepted: nat, ghost bytes: seq<seq<byte>>)
    requires inBuf != [] && Distinct(inBuf) && |sizes| == |inBuf| == |bytes|
    requires forall i :: 0 <= i < |inBuf| ==> sizes[i] <= inBuf[i].Length && inBuf[i][..sizes[i]] == bytes[i]
    modifies group, inBuf[0]
    ensures var r := XorOutcome(bytes, accepted);
            && |r.first| == sizes[0] && inBuf[0][..sizes[0]] == r.first
            && group.outFile == old(group.outFile) + r.emitted
            && group.correct == (old(group.correct) && r.ok)
            && group.xorSize == old(group.xorSize) + (if r.ok then |r.first| else 0)
            && group.xorFlag == (old(group.xorFlag) || (r.ok && group.xorSize == group.fileSize))
  {
    assert bytes == seq(|inBuf|, i requires 0 <= i < |inBuf| reads inBuf => inBuf[i][..sizes[i]]);
    var ret := group.Xor(inBuf, sizes, accepted);
  }
}
