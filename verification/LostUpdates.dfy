/**
 * Runs in which increments are taken apart. Updates get lost, but a counter never reads too much:
 * everything about ownership, conservation and order stays true, and only the return can get lost with
 * them.
 */
module LostUpdates {
  import opened Wrappers
  import opened Bytes
  import opened Slots
  import opened Pipeline
  import PipelineSafety
  import opened Ordering
  import Delivery
  import Ending
  import opened Increments

  // ----- What stays true -----

  /** What the invariant says of a state, counters aside. */
  ghost predicate Safe(l: Limits, s: Group, k: Index) {
    && s.Full(k) <= Settlers(s, k) <= |s.files|
    && (s.Full(k) == |s.files| ==> forall i :: 0 <= i < |s.files| ==> s.Counted(i, k))
    && (forall i :: 0 <= i < |s.files| ==> HandedOff(s, i, k) && Sound(l, s.files[i]))
    && OutputAccounted(l, s) && EndAccounted(l, s)
  }

  lemma FullIsSettled(s: Group, k: Index)
    requires s.Full(k) <= Settlers(s, k)
    ensures Settlers(s, k) <= |s.files|
    ensures s.Full(k) == |s.files| ==> forall i :: 0 <= i < |s.files| ==> s.Counted(i, k)
  {
    TallyExtremes(CountBits(s, k));
    if s.Full(k) == |s.files| {
      forall i | 0 <= i < |s.files| ensures s.Counted(i, k) { assert CountBits(s, k)[i]; }
    }
  }

  lemma InvariantIsSafe(l: Limits, s: Group, k: Index)
    requires Invariant(l, Corrected(s)) && s.Full(k) <= Settlers(s, k)
    ensures Safe(l, s, k)
  {
    FullIsSettled(s, k);
    forall i | 0 <= i < |s.files| ensures HandedOff(s, i, k) { assert HandedOff(Corrected(s), i, k); }
    assert forall i :: 0 <= i < |s.files| ==> Sound(l, Corrected(s).files[i]);
  }

  /**
   * With increments taken apart, in every run: a counter never exceeds the number of files that have
   * sealed and counted the slot, so it reads N only if all have; what was sealed into a slot is what the
   * XOR calls took and then what waits; and no byte fed is lost.
   */
  lemma SafeWithLostUpdates(l: Limits, n: nat, acts: seq<LooseStep>, k: Index)
    requires n >= 1 && LooseRuns(l, LooseInitial(n), acts)
    ensures |LooseAfter(l, LooseInitial(n), acts).group.files| == n && Safe(l, LooseAfter(l, LooseInitial(n), acts).group, k)
  {
    LooseStart(l, n);
    LooseRunKeeps(l, LooseInitial(n), acts);
    InvariantIsSafe(l, LooseAfter(l, LooseInitial(n), acts).group, k);
  }

  predicate LooseOvertake(s: Loose, a: LooseStep) {
    a.Whole? && Overtake(s.group, a.action)
  }

  ghost predicate LooseOvertakeFree(l: Limits, s: Loose, acts: seq<LooseStep>)
    requires LooseRuns(l, s, acts)
    decreases |acts|
  {
    acts != [] ==> !LooseOvertake(s, acts[0]) && LooseOvertakeFree(l, LooseNext(l, s, acts[0]), acts[1..])
  }

  /** Order does not depend on the counters. */
  lemma SameOrder(s: Group, t: Group)
    requires t == s.(full0 := t.full0, full1 := t.full1)
    ensures InOrder(t) <==> InOrder(s)
  {
    forall i | 0 <= i < |s.files| ensures FileInOrder(t, t.files[i]) <==> FileInOrder(s, s.files[i]) {
    }
  }

  lemma MissKeepsOrder(l: Limits, s: Group, a: Action)
    requires Enabled(l, s, a) && Missed(s, Corrected(s), a)
    ensures InOrder(Next(l, s, a)) <==> InOrder(s)
  {
    var t := Next(l, s, a);
    forall i | 0 <= i < |s.files| ensures FileInOrder(t, t.files[i]) <==> FileInOrder(s, s.files[i]) {
    }
  }

  lemma WholeOrder(l: Limits, s: Group, a: Action)
    requires Invariant(l, Corrected(s)) && Enabled(l, s, a)
    requires Behind(s)
    ensures InOrder(s) ==> (InOrder(Next(l, s, a)) <==> !Overtake(s, a))
    ensures !InOrder(s) ==> !InOrder(Next(l, s, a))
  {
    var c := Corrected(s);
    SameOrder(s, c);
    if Missed(s, c, a) {
      MissKeepsOrder(l, s, a);
    } else {
      StepCorrected(l, s, a);
      SameOrder(Next(l, s, a), Next(l, c, a));
      assert Overtake(c, a) <==> Overtake(s, a);
      if InOrder(c) { OrderStep(l, c, a); } else { DisorderStays(l, c, a); }
    }
  }

  lemma LooseOrderStep(l: Limits, s: Loose, a: LooseStep)
    requires LooseInvariant(l, s) && LooseEnabled(l, s, a)
    ensures InOrder(s.group) ==> (InOrder(LooseNext(l, s, a).group) <==> !LooseOvertake(s, a))
    ensures !InOrder(s.group) ==> !InOrder(LooseNext(l, s, a).group)
  {
    match a
    case Load(_) =>
    case Store(i) =>
      WholeOrder(l, s.group, FileMoves(i, Count));
      SameOrder(Next(l, s.group, FileMoves(i, Count)), LooseNext(l, s, a).group);
    case Whole(b) => WholeOrder(l, s.group, b);
  }

  lemma {:induction false} LooseOrder(l: Limits, s: Loose, acts: seq<LooseStep>)
    requires LooseInvariant(l, s) && LooseRuns(l, s, acts)
    ensures InOrder(LooseAfter(l, s, acts).group) <==> InOrder(s.group) && LooseOvertakeFree(l, s, acts)
    decreases |acts|
  {
    if acts != [] {
      LooseOrderStep(l, s, acts[0]);
      LooseStepKeeps(l, s, acts[0]);
      LooseOrder(l, LooseNext(l, s, acts[0]), acts[1..]);
    }
  }

  /** ... and the XOR calls are in order if and only if none overtakes, updates lost or not. */
  lemma OrderWithLostUpdates(l: Limits, n: nat, acts: seq<LooseStep>)
    requires n >= 1 && LooseRuns(l, LooseInitial(n), acts)
    ensures InOrder(LooseAfter(l, LooseInitial(n), acts).group) <==> LooseOvertakeFree(l, LooseInitial(n), acts)
  {
    LooseStart(l, n);
    LooseOrder(l, LooseInitial(n), acts);
  }

  // ----- When the counters are right -----

  ghost predicate Exact(s: Group) {
    forall k: Index :: s.Full(k) == Settlers(s, k)
  }

  lemma WholeStaysExact(l: Limits, s: Group, a: Action)
    requires Invariant(l, Corrected(s)) && Exact(s) && Enabled(l, s, a)
    ensures Exact(Next(l, s, a))
  {
    forall k: Index ensures Next(l, s, a).Full(k) == Settlers(Next(l, s, a), k) {
      SettlersAfter(l, s, a, k);
      CountsAfter(l, s, a, k);
    }
  }

  lemma ExactAfter(s: Group, t: Group, k: Index)
    requires Exact(s) && Settlers(t, k) == Settlers(s, k) + 1
    requires t.Full(Other(k)) == s.Full(Other(k)) && Settlers(t, Other(k)) == Settlers(s, Other(k))
    ensures Exact(t) <==> t.Full(k) == s.Full(k) + 1
  {
    assert s.Full(k) == Settlers(s, k) && s.Full(Other(k)) == Settlers(s, Other(k));
    forall q: Index ensures t.Full(q) == Settlers(t, q) <==> (q == k ==> t.Full(k) == s.Full(k) + 1) {
      assert q == k || q == Other(k);
    }
  }

  lemma StoreBoth(l: Limits, s: Group, i: nat, n: nat)
    requires Invariant(l, Corrected(s)) && Behind(s) && Enabled(l, s, FileMoves(i, Count))
    ensures var t, k := AfterStore(l, s, i, n), s.files[i].pc.slot;
            && t.Full(k) == n && Settlers(t, k) == Settlers(s, k) + 1
            && t.Full(Other(k)) == s.Full(Other(k)) && Settlers(t, Other(k)) == Settlers(s, Other(k))
  {
    var k := s.files[i].pc.slot;
    StoreSettles(l, s, i, n, k);
    StoreSettles(l, s, i, n, Other(k));
    AfterStoreFields(l, s, i, n, k);
    AfterStoreFields(l, s, i, n, Other(k));
  }

  lemma ExactStore(l: Limits, s: Group, i: nat, v: nat)
    requires Invariant(l, Corrected(s)) && Exact(s) && Enabled(l, s, FileMoves(i, Count))
    ensures Exact(AfterStore(l, s, i, v + 1)) <==> v == s.Full(s.files[i].pc.slot)
  {
    var k := s.files[i].pc.slot;
    StoreBoth(l, s, i, v + 1);
    ExactAfter(s, AfterStore(l, s, i, v + 1), k);
  }

  lemma ExactStoreStep(l: Limits, s: Loose, i: nat, t: Group)
    requires Invariant(l, Corrected(s.group)) && Exact(s.group) && LooseEnabled(l, s, Store(i))
    requires t == LooseNext(l, s, Store(i)).group
    ensures Exact(t) <==> !Stale(s, Store(i))
  {
    var v := s.loads[i].value;
    StoreIs(l, s, i);
    ExactStore(l, s.group, i, v);
    assert t == AfterStore(l, s.group, i, v + 1);
  }

  lemma ExactStep(l: Limits, s: Loose, a: LooseStep)
    requires LooseInvariant(l, s) && Exact(s.group) && LooseEnabled(l, s, a)
    ensures Exact(LooseNext(l, s, a).group) <==> !Stale(s, a)
  {
    match a
    case Load(_) => assert LooseNext(l, s, a).group == s.group;
    case Store(i) => ExactStoreStep(l, s, i, LooseNext(l, s, a).group);
    case Whole(b) =>
      WholeStaysExact(l, s.group, b);
      assert LooseNext(l, s, a).group == Next(l, s.group, b);
  }

  ghost predicate ExactThroughout(l: Limits, s: Loose, acts: seq<LooseStep>)
    requires LooseRuns(l, s, acts)
    decreases |acts|
  {
    Exact(s.group) && (acts != [] ==> ExactThroughout(l, LooseNext(l, s, acts[0]), acts[1..]))
  }

  ghost predicate NothingStale(l: Limits, s: Loose, acts: seq<LooseStep>)
    requires LooseRuns(l, s, acts)
    decreases |acts|
  {
    acts != [] ==> !Stale(s, acts[0]) && NothingStale(l, LooseNext(l, s, acts[0]), acts[1..])
  }

  /** The run with each increment as one step, where it is stored. */
  function Atomic(acts: seq<LooseStep>): seq<Action>
    decreases |acts|
  {
    if acts == [] then []
    else
      (match acts[0]
       case Load(_) => []
       case Store(i) => [FileMoves(i, Count)]
       case Whole(b) => [b])
      + Atomic(acts[1..])
  }

  lemma AtomicStep(l: Limits, s: Loose, a: LooseStep)
    requires LooseEnabled(l, s, a) && !a.Load? && !Stale(s, a)
    ensures var b := if a.Store? then FileMoves(a.file, Count) else a.action;
            Enabled(l, s.group, b) && LooseNext(l, s, a).group == Next(l, s.group, b)
  {
  }

  lemma {:induction false} ExactRun(l: Limits, s: Loose, acts: seq<LooseStep>)
    requires LooseInvariant(l, s) && Exact(s.group) && LooseRuns(l, s, acts)
    ensures ExactThroughout(l, s, acts) <==> NothingStale(l, s, acts)
    decreases |acts|
  {
    if acts != [] {
      ExactStep(l, s, acts[0]);
      LooseStepKeeps(l, s, acts[0]);
      if !Stale(s, acts[0]) { ExactRun(l, LooseNext(l, s, acts[0]), acts[1..]); }
    }
  }

  lemma {:induction false} AtomicRun(l: Limits, s: Loose, acts: seq<LooseStep>)
    requires LooseRuns(l, s, acts) && NothingStale(l, s, acts)
    ensures Runs(l, s.group, Atomic(acts)) && After(l, s.group, Atomic(acts)) == LooseAfter(l, s, acts).group
    decreases |acts|
  {
    if acts != [] {
      var a, rest := acts[0], acts[1..];
      AtomicRun(l, LooseNext(l, s, a), rest);
      if a.Load? {
        assert Atomic(acts) == Atomic(rest);
      } else {
        AtomicStep(l, s, a);
        assert Atomic(acts)[1..] == Atomic(rest);
      }
    }
  }

  /**
   * The counters read what they should throughout a run if and only if every store finds the counter at
   * the value that was loaded; then the run is one of `Pipeline`, with each increment where it is stored.
   */
  lemma AtomicIffNothingStale(l: Limits, n: nat, acts: seq<LooseStep>)
    requires n >= 1 && LooseRuns(l, LooseInitial(n), acts)
    ensures ExactThroughout(l, LooseInitial(n), acts) <==> NothingStale(l, LooseInitial(n), acts)
    ensures NothingStale(l, LooseInitial(n), acts) ==>
              && Runs(l, Initial(n), Atomic(acts))
              && After(l, Initial(n), Atomic(acts)) == LooseAfter(l, LooseInitial(n), acts).group
  {
    LooseStart(l, n);
    PipelineSafety.InitialInvariant(l, n);
    assert Exact(Initial(n));
    ExactRun(l, LooseInitial(n), acts);
    if NothingStale(l, LooseInitial(n), acts) { AtomicRun(l, LooseInitial(n), acts); }
  }

  // ----- Every run of the pipeline is such a run -----

  /** Peers deliver, and none fails. */
  ghost predicate LooseUndisturbed(l: Limits, streams: seq<seq<byte>>, s: Loose, acts: seq<LooseStep>)
    decreases |acts|
  {
    acts == [] ||
    (&& LooseEnabled(l, s, acts[0])
     && (acts[0].Whole? ==> Delivery.Delivers(l, streams, s.group, acts[0].action) && !acts[0].action.PeerFails?)
     && LooseUndisturbed(l, streams, LooseNext(l, s, acts[0]), acts[1..]))
  }

  lemma {:induction false} UndisturbedRuns(l: Limits, streams: seq<seq<byte>>, s: Loose, acts: seq<LooseStep>)
    requires LooseUndisturbed(l, streams, s, acts)
    ensures LooseRuns(l, s, acts)
    decreases |acts|
  {
    if acts != [] { UndisturbedRuns(l, streams, LooseNext(l, s, acts[0]), acts[1..]); }
  }

  ghost predicate LooseWalk(l: Limits, streams: seq<seq<byte>>, s: Loose, acts: seq<LooseStep>, t: Loose) {
    LooseUndisturbed(l, streams, s, acts) && LooseRuns(l, s, acts) && LooseAfter(l, s, acts) == t
  }

  ghost predicate LoosePath(l: Limits, streams: seq<seq<byte>>, s: Loose, t: Loose) {
    exists acts :: LooseWalk(l, streams, s, acts, t)
  }

  lemma LooseStepThen(l: Limits, streams: seq<seq<byte>>, s: Loose, a: LooseStep, t: Loose)
    requires LooseEnabled(l, s, a) && LoosePath(l, streams, LooseNext(l, s, a), t)
    requires a.Whole? ==> Delivery.Delivers(l, streams, s.group, a.action) && !a.action.PeerFails?
    ensures LoosePath(l, streams, s, t)
  {
    var rest :| LooseWalk(l, streams, LooseNext(l, s, a), rest, t);
    assert ([a] + rest)[1..] == rest;
    assert LooseWalk(l, streams, s, [a] + rest, t);
  }

  lemma LooseHere(l: Limits, streams: seq<seq<byte>>, s: Loose)
    ensures LoosePath(l, streams, s, s)
  {
    assert LooseWalk(l, streams, s, [], s);
  }

  /** Nobody comes in between: load and store are one increment. */
  lemma LoadAndStore(l: Limits, s: Group, i: nat)
    requires Enabled(l, s, FileMoves(i, Count))
    ensures var s0 := Loose(s, Unloaded(|s.files|));
            && LooseEnabled(l, s0, Load(i)) && LooseEnabled(l, LooseNext(l, s0, Load(i)), Store(i))
            && LooseNext(l, LooseNext(l, s0, Load(i)), Store(i)) == Loose(Next(l, s, FileMoves(i, Count)), Unloaded(|s.files|))
  {
    var s0 := Loose(s, Unloaded(|s.files|));
    assert LooseNext(l, s0, Load(i)).loads[i := None] == s0.loads;
  }

  lemma {:induction false} Loosen(l: Limits, streams: seq<seq<byte>>, s: Group, acts: seq<Action>, t: Group, u: Loose)
    requires Ending.Undisturbed(l, streams, s, acts) && After(l, s, acts) == t
    requires LoosePath(l, streams, Loose(t, Unloaded(|s.files|)), u)
    ensures LoosePath(l, streams, Loose(s, Unloaded(|s.files|)), u)
    decreases |acts|
  {
    if acts != [] {
      var a, s0 := acts[0], Loose(s, Unloaded(|s.files|));
      assert a in acts;
      SealedOnlyGrows(l, s, a);
      Loosen(l, streams, Next(l, s, a), acts[1..], t, u);
      if AddsOne(a) {
        LoadAndStore(l, s, a.file);
        LooseStepThen(l, streams, LooseNext(l, s0, Load(a.file)), Store(a.file), u);
        LooseStepThen(l, streams, s0, Load(a.file), u);
      } else {
        LooseStepThen(l, streams, s0, Whole(a), u);
      }
    }
  }
}
