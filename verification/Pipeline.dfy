/**
 * N producers and one consumer over the shared file group, one atomic access per step. The shared
 * counter's increment is one step. Nothing here restricts the order of steps.
 */
module Pipeline {
  import opened Bytes
  import opened Slots
  import BufXor

  datatype Verdict = Right | TransmissionError

  /** Where the consumer is: testing counter `slot`, inside the XOR, resetting, clearing flags, deciding. */
  datatype Phase =
    | Testing(slot: Index)
    | Xoring(slot: Index)
    | Resetting(slot: Index)
    | Clearing(slot: Index, next: nat)
    | LoopTest
    | Deciding
    | Returned(verdict: Verdict)

  datatype Fault = SizeMismatch | WriteFailed | PeerFailed(file: nat)

  /** One XOR call: the slot, what the N buffers held, and what went to the output file. */
  datatype Drain = Drain(slot: Index, inputs: seq<seq<byte>>, emitted: seq<byte>)

  /** `drains` and `faults` are history. */
  datatype Group = Group(
    files: seq<Producer>,
    full0: nat, full1: nat,
    xorSize: nat, xorFlag: bool, failed: bool,
    outFile: seq<byte>,
    phase: Phase,
    drains: seq<Drain>, faults: seq<Fault>
  ) {
    function Full(k: Index): nat {
      if k == 0 then full0 else full1
    }

    function WithFull(k: Index, n: nat): Group {
      if k == 0 then this.(full0 := n) else this.(full1 := n)
    }

    function Buffers(k: Index): (r: seq<seq<byte>>)
      ensures |r| == |files|
    {
      seq(|files|, i requires 0 <= i < |files| => files[i].Get(k).bytes)
    }

    /** The consumer has taken slot `k` and not yet given file `i`'s buffer back. */
    predicate Holds(i: nat, k: Index) {
      match phase
      case Xoring(s) => s == k
      case Resetting(s) => s == k
      case Clearing(s, next) => s == k && next <= i
      case _ => false
    }

    /** The consumer has already XORed slot `k` of file `i` but not yet cleared its flag. */
    predicate Spent(i: nat, k: Index) {
      Holds(i, k) && !phase.Xoring?
    }

    /** File `i` has sealed slot `k` and counted it, and the counter has not been reset since. */
    predicate Counted(i: nat, k: Index)
      requires i < |files|
    {
      files[i].Settled(k) && !(phase.Clearing? && phase.slot == k && phase.next <= i)
    }

    function LastDrained(): Index {
      if drains == [] then 1 else drains[|drains| - 1].slot
    }
  }

  datatype Action =
    | FileMoves(file: nat, move: Move)
    | PeerFails(file: nat)
    | Consumer(accepted: nat)

  function Initial(n: nat): Group {
    Group(seq(n, _ => FRESH), 0, 0, 0, false, false, [], Testing(0), [], [])
  }

  ghost predicate Enabled(l: Limits, s: Group, a: Action) {
    match a
    case FileMoves(i, m) => i < |s.files| && CanMove(l, s.files[i], m) && Bounded(l, s.files[i])
    case PeerFails(i) => i < |s.files|
    case Consumer(_) => !s.phase.Returned? && s.files != []
  }

  ghost function Next(l: Limits, s: Group, a: Action): Group
    requires Enabled(l, s, a)
  {
    match a
    case FileMoves(i, m) =>
      var p := s.files[i];
      var t := s.(files := s.files[i := Moved(l, p, m)]);
      if m.Count? then t.WithFull(p.pc.slot, s.Full(p.pc.slot) + 1) else t
    case PeerFails(i) => s.(failed := true, faults := s.faults + [PeerFailed(i)])
    case Consumer(accepted) => Consumed(l, s, accepted)
  }

  ghost function Consumed(l: Limits, s: Group, accepted: nat): Group
    requires s.files != [] && !s.phase.Returned?
  {
    match s.phase
    case Testing(k) =>
      s.(phase := if s.Full(k) == |s.files| then Xoring(k) else if k == 0 then Testing(1) else LoopTest)
    case Xoring(k) => Xored(l, s, k, accepted)
    case Resetting(k) => s.WithFull(k, 0).(phase := Clearing(k, 0))
    case Clearing(k, j) =>
      s.(files := if j < |s.files| then s.files[j := Cleared(s.files[j], k)] else s.files,
         phase := if j + 1 < |s.files| then Clearing(k, j + 1) else LoopTest)
    case LoopTest => s.(phase := if s.xorFlag || s.failed then Deciding else Testing(0))
    case Deciding =>
      s.(phase := Returned(if s.failed || l.size != s.xorSize then TransmissionError else Right))
  }

  /** The XOR call; its return value is ignored by the caller, which resets and clears all the same. */
  ghost function Xored(l: Limits, s: Group, k: Index, accepted: nat): Group
    requires s.files != []
  {
    var bufs := s.Buffers(k);
    var r := BufXor.XorOutcome(bufs, accepted);
    var size := s.xorSize + if r.ok then |bufs[0]| else 0;
    s.(files := s.files[0 := Overwritten(s.files[0], k, r.first)],
       outFile := s.outFile + r.emitted,
       xorSize := size,
       xorFlag := s.xorFlag || (r.ok && size == l.size),
       failed := s.failed || !r.ok,
       faults := s.faults + (if r.ok then [] else if BufXor.SizesMatch(bufs) then [WriteFailed] else [SizeMismatch]),
       drains := s.drains + [Drain(k, bufs, r.emitted)],
       phase := Resetting(k))
  }

  /** `acts` can be taken one after the other from `s`. */
  ghost predicate Runs(l: Limits, s: Group, acts: seq<Action>)
    decreases |acts|
  {
    acts == [] || (Enabled(l, s, acts[0]) && Runs(l, Next(l, s, acts[0]), acts[1..]))
  }

  ghost function After(l: Limits, s: Group, acts: seq<Action>): Group
    requires Runs(l, s, acts)
    decreases |acts|
  {
    if acts == [] then s else After(l, Next(l, s, acts[0]), acts[1..])
  }

  // ----- Counting producers -----

  ghost function Tally(bits: seq<bool>): (n: nat)
    ensures n <= |bits|
  {
    if bits == [] then 0 else Tally(bits[..|bits| - 1]) + if bits[|bits| - 1] then 1 else 0
  }

  lemma {:induction false} TallyUpdate(bits: seq<bool>, m: nat, b: bool)
    requires m < |bits|
    ensures Tally(bits[m := b]) == Tally(bits) - (if bits[m] then 1 else 0) + if b then 1 else 0
  {
    var init := bits[..|bits| - 1];
    if m == |bits| - 1 {
      assert bits[m := b][..|bits| - 1] == init;
    } else {
      assert bits[m := b][..|bits| - 1] == init[m := b];
      TallyUpdate(init, m, b);
    }
  }

  lemma {:induction false} TallyExtremes(bits: seq<bool>)
    ensures Tally(bits) == |bits| <==> forall i :: 0 <= i < |bits| ==> bits[i]
    ensures Tally(bits) == 0 <==> forall i :: 0 <= i < |bits| ==> !bits[i]
  {
    if bits != [] {
      TallyExtremes(bits[..|bits| - 1]);
      assert forall i :: 0 <= i < |bits| - 1 ==> bits[..|bits| - 1][i] == bits[i];
    }
  }

  ghost function CountBits(s: Group, k: Index): (r: seq<bool>)
    ensures |r| == |s.files|
  {
    seq(|s.files|, i requires 0 <= i < |s.files| => s.Counted(i, k))
  }

  // ----- Slots sealed and slots consumed -----

  /** What the XOR calls on slot `k` took from file `i`, in order. */
  ghost function Taken(drains: seq<Drain>, k: Index, i: nat): seq<seq<byte>> {
    if drains == [] then []
    else
      var rest, d := Taken(drains[..|drains| - 1], k, i), drains[|drains| - 1];
      if d.slot == k && i < |d.inputs| then rest + [d.inputs[i]] else rest
  }

  ghost function Emitted(drains: seq<Drain>): seq<byte> {
    if drains == [] then [] else Emitted(drains[..|drains| - 1]) + drains[|drains| - 1].emitted
  }

  /** The sealed slot that no XOR call has read yet. */
  ghost function Unread(s: Group, i: nat, k: Index): seq<seq<byte>>
    requires i < |s.files|
  {
    if s.files[i].Get(k).flag.Sealed? && !s.Spent(i, k) then [s.files[i].Get(k).bytes] else []
  }

  /** Exactly-once hand-off: every slot content sealed has been consumed once, in order, or is waiting. */
  ghost predicate HandedOff(s: Group, i: nat, k: Index)
    requires i < |s.files|
  {
    InSlot(s.files[i].sealed, k) == Taken(s.drains, k, i) + Unread(s, i, k)
  }

  // ----- The invariant -----

  ghost predicate ProducersSound(l: Limits, s: Group) {
    s.files != [] && forall i :: 0 <= i < |s.files| ==> Sound(l, s.files[i])
  }

  ghost predicate CountersAgree(s: Group) {
    forall k: Index :: s.Full(k) == Tally(CountBits(s, k))
  }

  /** Whatever the consumer holds is sealed, counted, and its producer is done with it. */
  ghost predicate HeldSettled(s: Group) {
    && (forall i, k: Index :: 0 <= i < |s.files| && s.Holds(i, k) ==> s.files[i].Settled(k))
    && (s.phase.Clearing? ==> s.phase.next < |s.files|)
    && (s.phase.Resetting? || s.phase.Clearing? ==> s.drains != [] && s.LastDrained() == s.phase.slot)
  }

  ghost predicate AllHandedOff(s: Group) {
    forall i, k: Index :: 0 <= i < |s.files| ==> HandedOff(s, i, k)
  }

  /** What was written is the start of the XOR of what was read. */
  ghost predicate GoodDrain(d: Drain) {
    SameLength(d.inputs) && d.emitted <= XorAll(d.inputs)
  }

  /** The unchecked write of the last bytes lost none of them. */
  ghost predicate Whole(d: Drain) {
    d.inputs != [] ==> |d.emitted| >= |d.inputs[0]|
  }

  ghost predicate AllWhole(drains: seq<Drain>) {
    forall d :: 0 <= d < |drains| ==> Whole(drains[d])
  }

  /** How many bytes of each file the XOR calls read. */
  ghost function ReadSize(drains: seq<Drain>): nat {
    if drains == [] then 0
    else
      var d := drains[|drains| - 1];
      ReadSize(drains[..|drains| - 1]) + if d.inputs == [] then 0 else |d.inputs[0]|
  }

  /**
   * The output file is what the XOR calls emitted. Without a fault each of them emitted the start of the
   * XOR of what it read, and `xor_size` counts what they read.
   */
  ghost predicate OutputAccounted(l: Limits, s: Group) {
    && s.outFile == Emitted(s.drains)
    && (forall d :: 0 <= d < |s.drains| ==> |s.drains[d].inputs| == |s.files|)
    && (s.failed <==> s.faults != [])
    && (!s.failed ==> s.xorSize == ReadSize(s.drains))
    && (!s.failed ==> forall d :: 0 <= d < |s.drains| ==> GoodDrain(s.drains[d]))
  }

  /** The end is reached with the whole size XORed, or with a fault on record. */
  ghost predicate EndAccounted(l: Limits, s: Group) {
    && (s.xorFlag ==> s.xorSize == l.size && !s.phase.Testing? && !s.phase.Xoring?)
    && (!s.failed && s.xorSize == l.size && l.size > 0 ==> s.xorFlag)
    && (s.phase.Deciding? ==> s.xorFlag || s.failed)
    && (s.phase.Returned? ==> if s.phase.verdict.Right? then s.xorSize == l.size else s.failed)
  }

  ghost predicate Invariant(l: Limits, s: Group) {
    && ProducersSound(l, s)
    && CountersAgree(s)
    && HeldSettled(s)
    && AllHandedOff(s)
    && OutputAccounted(l, s)
    && EndAccounted(l, s)
  }
}
