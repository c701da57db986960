/**
 * When does a transfer return? Once every file is complete only the consumer is left to move. Unless a
 * fault is on record or everything has been XORed, it returns if and only if all files have sealed
 * equally many chunks into each slot; otherwise it polls for ever.
 */
module Ending {
  import Arithmetic
  import opened Bytes
  import opened Slots
  import BufXor
  import opened Pipeline
  import PipelineSafety
  import Ordering
  import opened Delivery
  import Completion
  import Guarantees

  /** Every file has been received and every call is over. */
  ghost predicate AllComplete(l: Limits, streams: seq<seq<byte>>, s: Group) {
    && Invariant(l, s) && Delivered(l, streams, s)
    && forall i :: 0 <= i < |s.files| ==> s.files[i].pc.Idle? && s.files[i].fed == streams[i]
  }

  /** Peers deliver, and none fails. */
  ghost predicate Undisturbed(l: Limits, streams: seq<seq<byte>>, s: Group, acts: seq<Action>) {
    Runs(l, s, acts) && Guarantees.DeliversRun(l, streams, s, acts) && Guarantees.NothingFails(acts)
  }

  /** All files have sealed equally many chunks into each slot. */
  ghost predicate SameSlots(s: Group) {
    forall i, j, k: Index :: 0 <= i < |s.files| && 0 <= j < |s.files| ==>
      |InSlot(s.files[i].sealed, k)| == |InSlot(s.files[j].sealed, k)|
  }

  /** The same slots wait in all files. */
  ghost predicate SameWaiting(s: Group) {
    forall i, j, k: Index :: 0 <= i < |s.files| && 0 <= j < |s.files| ==> |Unread(s, i, k)| == |Unread(s, j, k)|
  }

  // ----- What waits -----

  lemma {:induction false} TakenAlike(drains: seq<Drain>, k: Index, i: nat, j: nat)
    requires forall d :: 0 <= d < |drains| ==> i < |drains[d].inputs| && j < |drains[d].inputs|
    ensures |Taken(drains, k, i)| == |Taken(drains, k, j)|
  {
    if drains != [] { TakenAlike(drains[..|drains| - 1], k, i, j); }
  }

  /** The XOR calls took equally many chunks from all files, so what waits tells. */
  lemma SlotsWait(l: Limits, s: Group)
    requires AllHandedOff(s) && OutputAccounted(l, s)
    ensures SameSlots(s) <==> SameWaiting(s)
  {
    forall i, j, k: Index | 0 <= i < |s.files| && 0 <= j < |s.files|
      ensures |InSlot(s.files[i].sealed, k)| - |InSlot(s.files[j].sealed, k)| == |Unread(s, i, k)| - |Unread(s, j, k)|
    {
      assert HandedOff(s, i, k) && HandedOff(s, j, k);
      TakenAlike(s.drains, k, i, j);
    }
  }

  /** ceil(size/cap) chunks in all: so many taken, the rest waiting. */
  lemma WaitingCount(l: Limits, streams: seq<seq<byte>>, s: Group, i: nat)
    requires AllComplete(l, streams, s) && i < |s.files|
    ensures |s.drains| + |Unread(s, i, 0)| + |Unread(s, i, 1)| == Generations(l)
    ensures |Concat(Contents(s.files[i].sealed))| == l.size
  {
    var p := s.files[i];
    assert Sound(l, p) && FullChunks(l, streams[i], p);
    FinishedCount(l, streams[i], p);
    Ordering.DrainsBehind(l, s, i);
  }

  lemma FilesAgree(l: Limits, streams: seq<seq<byte>>, s: Group, i: nat, j: nat, k: Index)
    requires AllComplete(l, streams, s) && i < |s.files| && j < |s.files|
    requires |Unread(s, i, k)| == |Unread(s, j, k)|
    ensures |Unread(s, i, Other(k))| == |Unread(s, j, Other(k))|
  {
    WaitingCount(l, streams, s, i);
    WaitingCount(l, streams, s, j);
  }

  /** If the files agree on one slot, they agree on the other. */
  lemma OneSlotDecides(l: Limits, streams: seq<seq<byte>>, s: Group, k: Index, n: nat)
    requires AllComplete(l, streams, s)
    requires forall i :: 0 <= i < |s.files| ==> |Unread(s, i, k)| == n
    ensures SameSlots(s)
  {
    forall i, j, q: Index | 0 <= i < |s.files| && 0 <= j < |s.files| ensures |Unread(s, i, q)| == |Unread(s, j, q)| {
      FilesAgree(l, streams, s, i, j, k);
      assert q == k || q == Other(k);
    }
    assert SameWaiting(s);
    SlotsWait(l, s);
  }

  lemma {:induction false} SizeBySlot(chunks: seq<Chunk>)
    ensures |Concat(InSlot(chunks, 0))| + |Concat(InSlot(chunks, 1))| == |Concat(Contents(chunks))|
  {
    if chunks != [] {
      var init, c := chunks[..|chunks| - 1], chunks[|chunks| - 1];
      SizeBySlot(init);
      assert chunks == init + [c];
      ContentsAppend(init, c);
      ConcatAppend(InSlot(init, c.slot), c.bytes);
    }
  }

  lemma {:induction false} ReadBySlot(drains: seq<Drain>)
    requires forall d :: 0 <= d < |drains| ==> drains[d].inputs != []
    ensures |Concat(Taken(drains, 0, 0))| + |Concat(Taken(drains, 1, 0))| == ReadSize(drains)
  {
    if drains != [] {
      var init, d := drains[..|drains| - 1], drains[|drains| - 1];
      ReadBySlot(init);
      ConcatAppend(Taken(init, d.slot, 0), d.inputs[0]);
    }
  }

  lemma ConcatTwo(a: seq<seq<byte>>, b: seq<seq<byte>>)
    requires |b| <= 1
    ensures |Concat(a + b)| == |Concat(a)| + |Concat(b)|
  {
    if b == [] {
      assert a + b == a;
    } else {
      assert b == [b[0]];
      ConcatAppend(a, b[0]);
      ConcatOne(b[0]);
    }
  }

  /** What was read of file 0 and what waits of it. */
  lemma ReadOrWaiting(l: Limits, s: Group)
    requires AllHandedOff(s) && OutputAccounted(l, s) && s.files != []
    ensures ReadSize(s.drains) + |Concat(Unread(s, 0, 0))| + |Concat(Unread(s, 0, 1))| ==
            |Concat(Contents(s.files[0].sealed))|
  {
    assert HandedOff(s, 0, 0) && HandedOff(s, 0, 1);
    ConcatTwo(Taken(s.drains, 0, 0), Unread(s, 0, 0));
    ConcatTwo(Taken(s.drains, 1, 0), Unread(s, 0, 1));
    SizeBySlot(s.files[0].sealed);
    ReadBySlot(s.drains);
  }

  lemma {:induction false} InSlotFilled(chunks: seq<Chunk>, k: Index)
    requires forall g :: 0 <= g < |chunks| ==> chunks[g].bytes != []
    ensures forall m :: 0 <= m < |InSlot(chunks, k)| ==> InSlot(chunks, k)[m] != []
  {
    if chunks != [] { InSlotFilled(chunks[..|chunks| - 1], k); }
  }

  /** No slot waits empty. */
  lemma WaitingFilled(l: Limits, stream: seq<byte>, s: Group, i: nat, k: Index)
    requires AllHandedOff(s) && i < |s.files| && FullChunks(l, stream, s.files[i])
    ensures Unread(s, i, k) != [] ==> |Concat(Unread(s, i, k))| > 0
  {
    var waits := Unread(s, i, k);
    assert HandedOff(s, i, k);
    InSlotFilled(s.files[i].sealed, k);
    if waits != [] {
      assert InSlot(s.files[i].sealed, k)[|Taken(s.drains, k, i)|] == waits[0];
      assert waits == [waits[0]];
      ConcatOne(waits[0]);
    }
  }

  /** Everything has been read exactly if nothing waits in file 0. */
  lemma AllRead(l: Limits, streams: seq<seq<byte>>, s: Group)
    requires AllComplete(l, streams, s)
    ensures ReadSize(s.drains) == l.size <==> Unread(s, 0, 0) == [] && Unread(s, 0, 1) == []
  {
    WaitingCount(l, streams, s, 0);
    ReadOrWaiting(l, s);
    WaitingFilled(l, streams[0], s, 0, 0);
    WaitingFilled(l, streams[0], s, 0, 1);
  }

  // ----- Only the consumer moves -----

  lemma OnlyConsumer(l: Limits, streams: seq<seq<byte>>, s: Group, a: Action)
    requires AllComplete(l, streams, s) && Enabled(l, s, a) && Delivers(l, streams, s, a) && !a.PeerFails?
    ensures a.Consumer?
  {
  }

  lemma StaysComplete(l: Limits, streams: seq<seq<byte>>, s: Group, accepted: nat)
    requires AllComplete(l, streams, s) && !s.phase.Returned?
    ensures AllComplete(l, streams, Consumed(l, s, accepted))
    ensures SameSlots(Consumed(l, s, accepted)) <==> SameSlots(s)
  {
    PipelineSafety.StepKeeps(l, s, Consumer(accepted));
    StepKeepsDelivered(l, streams, s, Consumer(accepted));
    Ordering.ConsumerLeavesThreads(l, s, accepted);
  }

  // ----- Polling for ever -----

  /** What the consumer XORs it takes from all files. */
  lemma XoringIsSame(l: Limits, streams: seq<seq<byte>>, s: Group)
    requires AllComplete(l, streams, s) && s.phase.Xoring?
    ensures SameSlots(s)
  {
    forall i | 0 <= i < |s.files| ensures |Unread(s, i, s.phase.slot)| == 1 {
      assert s.Holds(i, s.phase.slot);
    }
    OneSlotDecides(l, streams, s, s.phase.slot, 1);
  }

  /** Nothing is over, and the files disagree. */
  ghost predicate Undecided(l: Limits, streams: seq<seq<byte>>, s: Group) {
    AllComplete(l, streams, s) && !s.failed && !s.xorFlag && !SameSlots(s)
  }

  lemma StaysUndecided(l: Limits, streams: seq<seq<byte>>, s: Group, accepted: nat)
    requires Undecided(l, streams, s) && !s.phase.Returned?
    ensures Undecided(l, streams, Consumed(l, s, accepted))
  {
    StaysComplete(l, streams, s, accepted);
    if s.phase.Xoring? {
      XoringIsSame(l, streams, s);
    } else {
      FlagsStand(l, s, accepted);
    }
  }

  /** Only the XOR call changes the flags. */
  lemma FlagsStand(l: Limits, s: Group, accepted: nat)
    requires s.files != [] && !s.phase.Returned?
    ensures var t := Consumed(l, s, accepted);
            if s.phase.Xoring? then (s.failed ==> t.failed) && (s.xorFlag ==> t.xorFlag)
            else t.failed == s.failed && t.xorFlag == s.xorFlag
  {
  }

  lemma {:induction false} PollsForEver(l: Limits, streams: seq<seq<byte>>, s: Group, acts: seq<Action>)
    requires Undecided(l, streams, s) && Undisturbed(l, streams, s, acts)
    ensures !After(l, s, acts).phase.Returned?
    decreases |acts|
  {
    if acts != [] {
      var a := acts[0];
      assert a in acts;
      OnlyConsumer(l, streams, s, a);
      StaysUndecided(l, streams, s, a.accepted);
      PollsForEver(l, streams, Next(l, s, a), acts[1..]);
    }
  }

  // ----- Returning -----

  ghost predicate WillReturn(s: Group) {
    s.failed || s.xorFlag || SameSlots(s)
  }

  function FullSlot(s: Group): Index {
    if s.full0 == |s.files| then 0 else 1
  }

  /** Where the consumer is in its round. */
  function Rank(s: Group): nat {
    var n := |s.files|;
    match s.phase
    case Returned(_) => 0
    case Deciding => 1
    case Xoring(_) => 1
    case Resetting(_) => n + 5
    case Clearing(_, next) => if next <= n then n - next + 4 else 4
    case Testing(k) => if s.failed || s.xorFlag then 4 - k else 2 + Completion.TestsAway(s.phase, FullSlot(s))
    case LoopTest => if s.failed || s.xorFlag then 2 else 2 + Completion.TestsAway(s.phase, FullSlot(s))
  }

  /** A bound on the steps until the return. */
  ghost function EndWork(l: Limits, s: Group): nat
    requires l.cap > 0
  {
    Arithmetic.Times(|s.files| + 5, Generations(l) - |s.drains|) + Rank(s)
  }

  lemma AllWaitCounted(l: Limits, s: Group, k: Index)
    requires CountersAgree(s) && (s.phase.Testing? || s.phase.LoopTest?)
    requires forall i :: 0 <= i < |s.files| ==> s.files[i].pc.Idle? && |Unread(s, i, k)| == 1
    ensures s.Full(k) == |s.files|
  {
    forall i | 0 <= i < |s.files| ensures CountBits(s, k)[i] {
      assert |Unread(s, i, k)| == 1;
    }
    TallyExtremes(CountBits(s, k));
  }

  /** As long as not everything has been XORed, some counter reads N. */
  lemma SomeFull(l: Limits, streams: seq<seq<byte>>, s: Group)
    requires AllComplete(l, streams, s) && SameSlots(s) && !s.failed && !s.xorFlag
    requires s.phase.Testing? || s.phase.LoopTest?
    ensures s.Full(FullSlot(s)) == |s.files|
  {
    SlotsWait(l, s);
    if Unread(s, 0, 0) == [] && Unread(s, 0, 1) == [] {
      AllRead(l, streams, s);
      assert false;
    }
    var k: Index := if Unread(s, 0, 0) != [] then 0 else 1;
    assert forall i :: 0 <= i < |s.files| ==> |Unread(s, i, k)| == |Unread(s, 0, k)|;
    AllWaitCounted(l, s, k);
  }

  /** Then the consumer gets nearer to its end with every step. */
  lemma EndStep(l: Limits, streams: seq<seq<byte>>, s: Group, accepted: nat)
    requires AllComplete(l, streams, s) && WillReturn(s) && !s.phase.Returned?
    ensures AllComplete(l, streams, Consumed(l, s, accepted)) && WillReturn(Consumed(l, s, accepted))
    ensures EndWork(l, Consumed(l, s, accepted)) < EndWork(l, s)
  {
    StaysComplete(l, streams, s, accepted);
    FlagsStand(l, s, accepted);
    if s.phase.Xoring? {
      SomethingWaits(l, streams, s);
      XoringRank(l, s, accepted);
    } else {
      if !s.failed && !s.xorFlag && (s.phase.Testing? || s.phase.LoopTest?) { SomeFull(l, streams, s); }
      RankFalls(l, s, accepted);
    }
  }

  lemma SomethingWaits(l: Limits, streams: seq<seq<byte>>, s: Group)
    requires AllComplete(l, streams, s) && s.phase.Xoring?
    ensures |s.drains| < Generations(l)
  {
    assert s.Holds(0, s.phase.slot);
    WaitingCount(l, streams, s, 0);
  }

  lemma XoringRank(l: Limits, s: Group, accepted: nat)
    requires l.cap > 0 && s.files != [] && s.phase.Xoring? && |s.drains| < Generations(l)
    ensures EndWork(l, Consumed(l, s, accepted)) < EndWork(l, s)
  {
    var t := Consumed(l, s, accepted);
    assert |t.files| == |s.files| && |t.drains| == |s.drains| + 1;
  }

  lemma RankFalls(l: Limits, s: Group, accepted: nat)
    requires l.cap > 0 && s.files != [] && !s.phase.Returned? && !s.phase.Xoring? && HeldSettled(s)
    requires s.phase.Testing? || s.phase.LoopTest? ==> s.failed || s.xorFlag || s.Full(FullSlot(s)) == |s.files|
    ensures EndWork(l, Consumed(l, s, accepted)) < EndWork(l, s)
  {
    var t := Consumed(l, s, accepted);
    assert |t.files| == |s.files| && t.drains == s.drains;
  }

  lemma {:induction false} EndsSoon(l: Limits, streams: seq<seq<byte>>, s: Group, acts: seq<Action>)
    requires AllComplete(l, streams, s) && WillReturn(s) && Undisturbed(l, streams, s, acts)
    ensures |acts| + EndWork(l, After(l, s, acts)) <= EndWork(l, s)
    decreases |acts|
  {
    if acts != [] {
      var a := acts[0];
      assert a in acts;
      OnlyConsumer(l, streams, s, a);
      EndStep(l, streams, s, a.accepted);
      EndsSoon(l, streams, Next(l, s, a), acts[1..]);
    }
  }

  lemma ConsumerFirst(l: Limits, streams: seq<seq<byte>>, s: Group, accepted: nat, rest: seq<Action>)
    requires s.files != [] && !s.phase.Returned? && Undisturbed(l, streams, Consumed(l, s, accepted), rest)
    ensures Undisturbed(l, streams, s, [Consumer(accepted)] + rest)
    ensures After(l, s, [Consumer(accepted)] + rest) == After(l, Consumed(l, s, accepted), rest)
  {
    assert ([Consumer(accepted)] + rest)[1..] == rest;
  }

  /** The consumer alone goes on, the file taking all it is given. */
  lemma {:induction false} RunToEnd(l: Limits, streams: seq<seq<byte>>, s: Group) returns (acts: seq<Action>)
    requires AllComplete(l, streams, s) && WillReturn(s)
    ensures Undisturbed(l, streams, s, acts) && After(l, s, acts).phase.Returned?
    decreases EndWork(l, s)
  {
    if s.phase.Returned? {
      acts := [];
    } else {
      EndStep(l, streams, s, 0);
      var rest := RunToEnd(l, streams, Consumed(l, s, 0));
      ConsumerFirst(l, streams, s, 0, rest);
      acts := [Consumer(0)] + rest;
    }
  }

  /**
   * From a state of any run in which every file is complete: the transfer can still return without
   * another failure if and only if a fault is on record, or everything has been XORed, or all files have
   * sealed equally many chunks into each slot.
   */
  lemma ReturnsIff(l: Limits, streams: seq<seq<byte>>, s: Group)
    requires AllComplete(l, streams, s)
    ensures WillReturn(s) <==> exists acts :: Undisturbed(l, streams, s, acts) && After(l, s, acts).phase.Returned?
  {
    if WillReturn(s) {
      var acts := RunToEnd(l, streams, s);
    } else {
      forall acts | Undisturbed(l, streams, s, acts) ensures !After(l, s, acts).phase.Returned? {
        PollsForEver(l, streams, s, acts);
      }
    }
  }

  /**
   * ... and if it can, it does: every continuation is bounded, whatever the file accepts, and until the
   * return the consumer can go on.
   */
  lemma ReturnsInTime(l: Limits, streams: seq<seq<byte>>, s: Group, acts: seq<Action>)
    requires AllComplete(l, streams, s) && WillReturn(s) && Undisturbed(l, streams, s, acts)
    ensures |acts| <= EndWork(l, s)
    ensures After(l, s, acts).phase.Returned? || Enabled(l, After(l, s, acts), Consumer(0))
  {
    EndsSoon(l, streams, s, acts);
    PipelineSafety.RunKeeps(l, s, acts);
  }

  lemma FlagTells(s: Group, i: nat, k: Index)
    requires i < |s.files| && (s.phase.Testing? || s.phase.LoopTest?)
    ensures |Unread(s, i, k)| == if s.files[i].Get(k).flag.Sealed? then 1 else 0
  {
  }

  /** The condition on flags, while the consumer polls: each slot is sealed in all files or in none. */
  lemma SameFlags(l: Limits, s: Group)
    requires Invariant(l, s) && (s.phase.Testing? || s.phase.LoopTest?)
    ensures SameSlots(s) <==>
            forall i, j, k: Index :: 0 <= i < |s.files| && 0 <= j < |s.files| ==>
              (s.files[i].Get(k).flag.Sealed? <==> s.files[j].Get(k).flag.Sealed?)
  {
    SlotsWait(l, s);
    forall i, j, k: Index | 0 <= i < |s.files| && 0 <= j < |s.files|
      ensures |Unread(s, i, k)| == |Unread(s, j, k)| <==>
              (s.files[i].Get(k).flag.Sealed? <==> s.files[j].Get(k).flag.Sealed?)
    {
      FlagTells(s, i, k);
      FlagTells(s, j, k);
    }
  }

  // ----- Returning RIGHT -----

  ghost function Lengths(parts: seq<seq<byte>>): (r: seq<nat>)
    ensures |r| == |parts|
  {
    seq(|parts|, g requires 0 <= g < |parts| => |parts[g]|)
  }

  /** The same slots wait in all files, with equally many bytes. */
  ghost predicate SameSizes(s: Group) {
    forall i, j, k: Index :: 0 <= i < |s.files| && 0 <= j < |s.files| ==> Lengths(Unread(s, i, k)) == Lengths(Unread(s, j, k))
  }

  lemma SameSizesSameSlots(l: Limits, s: Group)
    requires AllHandedOff(s) && OutputAccounted(l, s) && SameSizes(s)
    ensures SameSlots(s)
  {
    forall i, j, k: Index | 0 <= i < |s.files| && 0 <= j < |s.files| ensures |Unread(s, i, k)| == |Unread(s, j, k)| {
      assert |Unread(s, i, k)| == |Lengths(Unread(s, i, k))|;
    }
    assert SameWaiting(s);
    SlotsWait(l, s);
  }

  /** Outside the XOR call, the consumer neither takes nor leaves anything waiting. */
  lemma UnreadStands(l: Limits, s: Group, accepted: nat, i: nat, k: Index)
    requires s.files != [] && HeldSettled(s) && !s.phase.Returned? && !s.phase.Xoring? && i < |s.files|
    ensures |Consumed(l, s, accepted).files| == |s.files|
    ensures Unread(Consumed(l, s, accepted), i, k) == Unread(s, i, k)
  {
  }

  /** The XOR call takes slot `k`. */
  lemma UnreadAfterXor(l: Limits, s: Group, accepted: nat, i: nat, k: Index)
    requires s.files != [] && HeldSettled(s) && s.phase.Xoring? && i < |s.files|
    ensures |Consumed(l, s, accepted).files| == |s.files|
    ensures Unread(Consumed(l, s, accepted), i, k) == if k == s.phase.slot then [] else Unread(s, i, k)
    ensures k == s.phase.slot ==> Unread(s, i, k) == [s.Buffers(k)[i]]
  {
    assert s.Holds(i, s.phase.slot);
    PipelineSafety.XorTouchesBytesOnly(l, s, accepted, i, k);
  }

  /** The size check looks at what waits in slot `k`. */
  lemma SizesXored(l: Limits, s: Group, accepted: nat)
    requires s.files != [] && HeldSettled(s) && s.phase.Xoring?
    ensures |Consumed(l, s, accepted).files| == |s.files|
    ensures SameSizes(s) <==> SameSizes(Consumed(l, s, accepted)) && BufXor.SizesMatch(s.Buffers(s.phase.slot))
  {
    var t, bufs := Consumed(l, s, accepted), s.Buffers(s.phase.slot);
    forall i, k: Index | 0 <= i < |s.files|
      ensures Lengths(Unread(s, i, k)) == if k == s.phase.slot then [|bufs[i]|] else Lengths(Unread(t, i, k))
      ensures k == s.phase.slot ==> Lengths(Unread(t, i, k)) == []
    {
      UnreadAfterXor(l, s, accepted, i, k);
    }
    if SameSizes(s) {
      forall i | 0 <= i < |bufs| ensures |bufs[i]| == |bufs[0]| {
        assert Lengths(Unread(s, i, s.phase.slot)) == Lengths(Unread(s, 0, s.phase.slot));
        assert [|bufs[i]|][0] == [|bufs[0]|][0];
      }
    }
  }

  lemma SizesStand(l: Limits, s: Group, accepted: nat)
    requires s.files != [] && HeldSettled(s) && !s.phase.Returned? && !s.phase.Xoring?
    ensures SameSizes(Consumed(l, s, accepted)) <==> SameSizes(s)
  {
    forall i, k: Index | 0 <= i < |s.files|
      ensures |Consumed(l, s, accepted).files| == |s.files|
      ensures Unread(Consumed(l, s, accepted), i, k) == Unread(s, i, k)
    {
      UnreadStands(l, s, accepted, i, k);
    }
  }

  /** No fault on record, and none to come if the file takes what it is given. */
  ghost predicate Sane(s: Group) {
    !s.failed && SameSizes(s)
  }

  function WholeCall(s: Group): nat {
    if s.phase.Xoring? && s.files != [] then |s.Buffers(s.phase.slot)[0]| else 0
  }

  /** One step: from a sane state a whole call leads to one, and no step leads back to one. */
  lemma SaneStep(l: Limits, s: Group, accepted: nat)
    requires s.files != [] && HeldSettled(s) && !s.phase.Returned?
    ensures Sane(Consumed(l, s, accepted)) ==> Sane(s)
    ensures Sane(s) && accepted == WholeCall(s) ==> Sane(Consumed(l, s, accepted))
  {
    FlagsStand(l, s, accepted);
    if s.phase.Xoring? {
      SizesXored(l, s, accepted);
      MismatchFails(l, s, accepted);
    } else {
      SizesStand(l, s, accepted);
    }
  }

  lemma MismatchFails(l: Limits, s: Group, accepted: nat)
    requires s.files != [] && s.phase.Xoring?
    ensures !Consumed(l, s, accepted).failed ==> !s.failed && BufXor.SizesMatch(s.Buffers(s.phase.slot))
    ensures !s.failed && BufXor.SizesMatch(s.Buffers(s.phase.slot)) && accepted == WholeCall(s) ==> !Consumed(l, s, accepted).failed
  {
  }

  /** When everything has been XORed, nothing waits anywhere. */
  lemma OverIsSane(l: Limits, streams: seq<seq<byte>>, s: Group)
    requires AllComplete(l, streams, s) && s.xorFlag && !s.failed
    ensures Sane(s)
  {
    AllRead(l, streams, s);
    WaitingCount(l, streams, s, 0);
    forall i, k: Index | 0 <= i < |s.files| ensures Unread(s, i, k) == [] {
      WaitingCount(l, streams, s, i);
    }
  }

  /** Past returning RIGHT. */
  ghost predicate Spoilt(l: Limits, streams: seq<seq<byte>>, s: Group) {
    AllComplete(l, streams, s) && !Sane(s) && s.phase != Returned(Right)
  }

  lemma StaysSpoilt(l: Limits, streams: seq<seq<byte>>, s: Group, accepted: nat)
    requires Spoilt(l, streams, s) && !s.phase.Returned?
    ensures Spoilt(l, streams, Consumed(l, s, accepted))
  {
    StaysComplete(l, streams, s, accepted);
    SaneStep(l, s, accepted);
    if Consumed(l, s, accepted).phase == Returned(Right) {
      RightMeans(l, s, accepted);
      OverIsSane(l, streams, s);
    }
  }

  lemma RightMeans(l: Limits, s: Group, accepted: nat)
    requires s.files != [] && !s.phase.Returned? && EndAccounted(l, s)
    requires Consumed(l, s, accepted).phase == Returned(Right)
    ensures !s.failed && s.xorFlag
  {
  }

  lemma {:induction false} NeverRight(l: Limits, streams: seq<seq<byte>>, s: Group, acts: seq<Action>)
    requires Spoilt(l, streams, s) && Undisturbed(l, streams, s, acts)
    ensures After(l, s, acts).phase != Returned(Right)
    decreases |acts|
  {
    if acts != [] {
      var a := acts[0];
      assert a in acts;
      OnlyConsumer(l, streams, s, a);
      StaysSpoilt(l, streams, s, a.accepted);
      NeverRight(l, streams, Next(l, s, a), acts[1..]);
    }
  }

  lemma {:induction false} RunToRight(l: Limits, streams: seq<seq<byte>>, s: Group) returns (acts: seq<Action>)
    requires AllComplete(l, streams, s) && Sane(s)
    ensures Undisturbed(l, streams, s, acts) && After(l, s, acts).phase == Returned(Right)
    decreases EndWork(l, s)
  {
    if s.phase.Returned? {
      acts := [];
    } else {
      var a := Consumer(WholeCall(s));
      SameSizesSameSlots(l, s);
      EndStep(l, streams, s, a.accepted);
      SaneStep(l, s, a.accepted);
      var rest := RunToRight(l, streams, Next(l, s, a));
      ConsumerFirst(l, streams, s, a.accepted, rest);
      acts := [a] + rest;
    }
  }

  /**
   * ... and it can still return RIGHT if and only if no fault is on record and what waits in each slot is
   * equally long in all files.
   */
  lemma ReturnsRightIff(l: Limits, streams: seq<seq<byte>>, s: Group)
    requires AllComplete(l, streams, s) && !s.phase.Returned?
    ensures !s.failed && SameSizes(s) <==>
            exists acts :: Undisturbed(l, streams, s, acts) && After(l, s, acts).phase == Returned(Right)
  {
    if Sane(s) {
      var acts := RunToRight(l, streams, s);
    } else {
      forall acts | Undisturbed(l, streams, s, acts) ensures After(l, s, acts).phase != Returned(Right) {
        NeverRight(l, streams, s, acts);
      }
    }
  }
}
