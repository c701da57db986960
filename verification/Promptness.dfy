/**
 * Prompt runs: three scheduling hypotheses, and why they rule out both races.
 */
module Promptness {
  import Bytes
  import opened Slots
  import opened Pipeline
  import Alignment
  import opened Delivery

  /** Between sealing a slot, or starting a poll, and the end of the two reopen tests. */
  predicate InWindow(p: Producer) {
    p.pc.Counting? || p.pc.Reopening?
  }

  /** In the middle of a fragment with no slot to write to. */
  predicate Waiting(p: Producer) {
    (p.pc.Loop? || p.pc.Reopening?) && !p.HasOpen()
  }

  predicate Draining(s: Group) {
    s.phase.Xoring? || s.phase.Resetting? || s.phase.Clearing?
  }

  predicate AnyFull(s: Group) {
    s.full0 == |s.files| || s.full1 == |s.files|
  }

  predicate HasEmpty(p: Producer) {
    p.slot0.flag.Empty? || p.slot1.flag.Empty?
  }

  /** (H1) Sealing, counting and the reopen tests are one step: nobody else moves in a window. */
  ghost predicate WindowsAtomic(s: Group, a: Action) {
    forall j :: 0 <= j < |s.files| && InWindow(s.files[j]) ==> a.FileMoves? && a.file == j
  }

  /** (H2) A full counter is drained before any producer seals again. */
  predicate SealsAfterDrain(s: Group, a: Action) {
    a.FileMoves? && a.move.Seal? ==> !AnyFull(s) && !Draining(s)
  }

  /** (H3) Before a drain starts, every waiting producer has polled: no free slot is left unclaimed. */
  ghost predicate PolledBeforeDrain(s: Group, a: Action) {
    a.Consumer? && s.phase.Testing? && s.Full(s.phase.slot) == |s.files| ==>
      forall i :: 0 <= i < |s.files| && Waiting(s.files[i]) ==> !HasEmpty(s.files[i])
  }

  ghost predicate Prompt(s: Group, a: Action) {
    WindowsAtomic(s, a) && SealsAfterDrain(s, a) && PolledBeforeDrain(s, a)
  }

  /** A thread without a slot to write to has part of its fragment stored already. */
  predicate Carrying(p: Producer) {
    Waiting(p) ==> p.split
  }

  ghost predicate AllCarrying(s: Group) {
    forall i :: 0 <= i < |s.files| ==> Carrying(s.files[i])
  }

  /** What promptness buys for one file. */
  ghost predicate FilePrompt(s: Group, i: nat)
    requires i < |s.files|
  {
    var p := s.files[i];
    && (Waiting(p) ==> p.slot0.flag.Sealed? || p.slot1.flag.Sealed?)
    && (forall k: Index :: Waiting(p) && s.Holds(i, k) ==> p.Get(Other(k)).flag.Sealed?)
    && (p.pc.Counting? ==> !AnyFull(s) && !Draining(s))
    && Carrying(p)
  }

  ghost predicate PromptState(s: Group) {
    && (forall i :: 0 <= i < |s.files| ==> FilePrompt(s, i))
    && (forall i, j :: 0 <= i < |s.files| && 0 <= j < |s.files| && InWindow(s.files[i]) && InWindow(s.files[j]) ==> i == j)
    && !(s.full0 == |s.files| && s.full1 == |s.files|)
  }

  /** No race is possible from here. */
  lemma PromptHasNoRace(l: Limits, s: Group, a: Action)
    requires PromptState(s) && Enabled(l, s, a)
    ensures !Alignment.Race(s, a)
  {
    if a.FileMoves? { assert FilePrompt(s, a.file); }
  }

  // ----- Preservation -----

  lemma MoverStaysPrompt(l: Limits, streams: seq<seq<Bytes.byte>>, s: Group, i: nat, m: Move)
    requires Invariant(l, s) && Delivered(l, streams, s) && PromptState(s)
    requires Enabled(l, s, FileMoves(i, m)) && Delivers(l, streams, s, FileMoves(i, m))
    requires Prompt(s, FileMoves(i, m))
    ensures FilePrompt(Next(l, s, FileMoves(i, m)), i)
  {
    assert FilePrompt(s, i) && Sound(l, s.files[i]) && FullChunks(l, streams[i], s.files[i]);
    match m
    case Count => CountStaysPrompt(l, s, i);
    case Reopen => ReopenStaysPrompt(l, s, i);
    case _ => OtherMoveStaysPrompt(l, streams[i], s, i, m);
  }

  lemma OtherMoveStaysPrompt(l: Limits, stream: seq<Bytes.byte>, s: Group, i: nat, m: Move)
    requires Enabled(l, s, FileMoves(i, m)) && !m.Count? && !m.Reopen?
    requires Sound(l, s.files[i]) && FullChunks(l, stream, s.files[i]) && MoveDelivers(l, stream, s.files[i], m)
    requires FilePrompt(s, i) && SealsAfterDrain(s, FileMoves(i, m))
    ensures FilePrompt(Next(l, s, FileMoves(i, m)), i)
  {
    var t := Next(l, s, FileMoves(i, m));
    assert t.files[i] == Moved(l, s.files[i], m) && t == s.(files := t.files);
    assert forall k: Index :: t.Holds(i, k) == s.Holds(i, k);
  }

  lemma CountStaysPrompt(l: Limits, s: Group, i: nat)
    requires Enabled(l, s, FileMoves(i, Count)) && Sound(l, s.files[i]) && FilePrompt(s, i)
    ensures FilePrompt(Next(l, s, FileMoves(i, Count)), i)
  {
    var t := Next(l, s, FileMoves(i, Count));
    assert forall k: Index :: !t.Holds(i, k);
  }

  lemma ReopenStaysPrompt(l: Limits, s: Group, i: nat)
    requires Enabled(l, s, FileMoves(i, Reopen)) && Sound(l, s.files[i]) && FilePrompt(s, i)
    ensures FilePrompt(Next(l, s, FileMoves(i, Reopen)), i)
  {
    var p, t := s.files[i], Next(l, s, FileMoves(i, Reopen));
    var q := t.files[i];
    if !q.HasOpen() {
      assert q.slot0 == p.slot0 && q.slot1 == p.slot1;
    }
    assert forall k: Index :: t.Holds(i, k) == s.Holds(i, k);
  }

  lemma OthersStayPrompt(l: Limits, s: Group, i: nat, m: Move, j: nat)
    requires Enabled(l, s, FileMoves(i, m)) && Prompt(s, FileMoves(i, m))
    requires j < |s.files| && j != i && FilePrompt(s, j)
    ensures FilePrompt(Next(l, s, FileMoves(i, m)), j)
    ensures !InWindow(Next(l, s, FileMoves(i, m)).files[j])
  {
    var t := Next(l, s, FileMoves(i, m));
    assert t.files[j] == s.files[j];
    assert forall k: Index :: t.Holds(j, k) == s.Holds(j, k);
  }

  lemma OneCounterFull(l: Limits, s: Group, i: nat, m: Move)
    requires Enabled(l, s, FileMoves(i, m)) && FilePrompt(s, i) && !(s.full0 == |s.files| && s.full1 == |s.files|)
    ensures var t := Next(l, s, FileMoves(i, m)); !(t.full0 == |t.files| && t.full1 == |t.files|)
  {
  }

  lemma ProducerStaysPrompt(l: Limits, streams: seq<seq<Bytes.byte>>, s: Group, i: nat, m: Move)
    requires Invariant(l, s) && Delivered(l, streams, s) && PromptState(s)
    requires Enabled(l, s, FileMoves(i, m)) && Delivers(l, streams, s, FileMoves(i, m))
    requires Prompt(s, FileMoves(i, m))
    ensures PromptState(Next(l, s, FileMoves(i, m)))
  {
    var t := Next(l, s, FileMoves(i, m));
    assert |t.files| == |s.files|;
    assert FilePrompt(s, i);
    OneCounterFull(l, s, i, m);
    MoverStaysPrompt(l, streams, s, i, m);
    forall j | 0 <= j < |s.files| ensures FilePrompt(t, j) && (j != i ==> !InWindow(t.files[j])) {
      if j != i { assert FilePrompt(s, j); OthersStayPrompt(l, s, i, m, j); }
    }
  }

  /** Only the drained slot of the file at hand changes, if any. */
  lemma ConsumerChanges(l: Limits, s: Group, accepted: nat, i: nat)
    requires s.files != [] && HeldSettled(s) && !s.phase.Returned? && i < |s.files|
    ensures var p, t := s.files[i], Consumed(l, s, accepted);
            && |t.files| == |s.files| && t.files[i].pc == p.pc
            && (match s.phase
                case Xoring(k) => p.Settled(k) && (t.files[i] == p || exists b :: t.files[i] == Overwritten(p, k, b))
                case Clearing(k, j) => if i == j then p.Settled(k) && s.Holds(i, k) && t.files[i] == Cleared(p, k) else t.files[i] == p
                case _ => t.files[i] == p)
  {
    match s.phase
    case Xoring(k) => assert s.Holds(i, k);
    case Clearing(k, j) => assert i == j ==> s.Holds(i, k);
    case _ =>
  }

  lemma ConsumerStaysPrompt(l: Limits, s: Group, accepted: nat, i: nat)
    requires s.files != [] && HeldSettled(s) && !s.phase.Returned? && i < |s.files|
    requires FilePrompt(s, i) && Prompt(s, Consumer(accepted)) && Sound(l, s.files[i])
    ensures FilePrompt(Consumed(l, s, accepted), i)
    ensures !InWindow(Consumed(l, s, accepted).files[i])
  {
    var t := Consumed(l, s, accepted);
    ConsumerChanges(l, s, accepted, i);
    HoldsAfter(l, s, accepted, i);
    assert !InWindow(s.files[i]);
    if s.phase.Xoring? {
      OverwrittenStaysPrompt(s, t, i, s.phase.slot);
    } else if s.phase.Clearing? && s.phase.next == i {
      ClearedStaysPrompt(s, t, i, s.phase.slot);
    } else {
      UntouchedStaysPrompt(s, t, i);
    }
  }

  /** A file outside every window: a drain that starts finds it polled. */
  lemma UntouchedStaysPrompt(s: Group, t: Group, i: nat)
    requires i < |s.files| && i < |t.files| && t.files[i] == s.files[i] && FilePrompt(s, i) && !InWindow(s.files[i])
    requires forall k: Index :: t.Holds(i, k) ==> s.Holds(i, k) || (Waiting(s.files[i]) ==> !HasEmpty(s.files[i]))
    ensures FilePrompt(t, i)
  {
    var p := s.files[i];
    forall k: Index | Waiting(p) && t.Holds(i, k) ensures p.Get(Other(k)).flag.Sealed? {
      if !s.Holds(i, k) { assert p.slot0.flag.Sealed? && p.slot1.flag.Sealed?; }
    }
  }

  lemma OverwrittenStaysPrompt(s: Group, t: Group, i: nat, k: Index)
    requires i < |s.files| && i < |t.files| && FilePrompt(s, i) && s.files[i].Settled(k)
    requires t.files[i] == s.files[i] || exists b :: t.files[i] == Overwritten(s.files[i], k, b)
    requires !InWindow(s.files[i]) && forall q: Index :: t.Holds(i, q) ==> s.Holds(i, q)
    ensures FilePrompt(t, i)
  {
  }

  lemma ClearedStaysPrompt(s: Group, t: Group, i: nat, k: Index)
    requires i < |s.files| && i < |t.files| && FilePrompt(s, i) && s.files[i].Settled(k) && s.Holds(i, k)
    requires t.files[i] == Cleared(s.files[i], k)
    requires !InWindow(s.files[i]) && forall q: Index :: !t.Holds(i, q)
    ensures FilePrompt(t, i)
  {
  }

  lemma HoldsAfter(l: Limits, s: Group, accepted: nat, i: nat)
    requires s.files != [] && !s.phase.Returned? && i < |s.files|
    ensures forall k: Index :: Consumed(l, s, accepted).Holds(i, k) ==>
              s.Holds(i, k) || (s.phase == Testing(k) && s.Full(k) == |s.files|)
    ensures s.phase.Clearing? && s.phase.next == i ==> forall k: Index :: !Consumed(l, s, accepted).Holds(i, k)
  {
  }

  lemma StepStaysPrompt(l: Limits, streams: seq<seq<Bytes.byte>>, s: Group, a: Action)
    requires Invariant(l, s) && Delivered(l, streams, s) && PromptState(s)
    requires Enabled(l, s, a) && Delivers(l, streams, s, a) && Prompt(s, a)
    ensures PromptState(Next(l, s, a))
  {
    match a
    case FileMoves(i, m) => ProducerStaysPrompt(l, streams, s, i, m);
    case PeerFails(_) => FailStaysPrompt(l, s, a);
    case Consumer(accepted) =>
      var t := Next(l, s, a);
      assert |t.files| == |s.files|;
      forall i | 0 <= i < |s.files| ensures FilePrompt(t, i) && !InWindow(t.files[i]) {
        assert FilePrompt(s, i);
        ConsumerStaysPrompt(l, s, accepted, i);
      }
  }

  lemma FailStaysPrompt(l: Limits, s: Group, a: Action)
    requires PromptState(s) && Enabled(l, s, a) && a.PeerFails?
    ensures PromptState(Next(l, s, a))
  {
    var t := Next(l, s, a);
    forall i | 0 <= i < |t.files| ensures FilePrompt(t, i) {
      assert FilePrompt(s, i);
      assert forall k: Index :: t.Holds(i, k) == s.Holds(i, k);
    }
  }
}
