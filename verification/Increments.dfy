/**
 * The increment of a shared counter taken apart: a thread loads the counter and later stores it back, one
 * higher, and others may come in between. What every step of such a run keeps.
 */
module Increments {
  import opened Wrappers
  import opened Slots
  import opened Pipeline
  import PipelineSafety
  import opened Ordering

  /** What each thread has loaded and not yet stored. */
  datatype Loose = Loose(group: Group, loads: seq<Option<nat>>)

  datatype LooseStep =
    | Load(file: nat)
    | Store(file: nat)
    | Whole(action: Action)

  predicate AddsOne(a: Action) {
    a.FileMoves? && a.move.Count?
  }

  ghost predicate LooseEnabled(l: Limits, s: Loose, a: LooseStep) {
    && |s.loads| == |s.group.files|
    && match a
       case Load(i) => i < |s.loads| && s.group.files[i].pc.Counting? && s.loads[i].None?
       case Store(i) => i < |s.loads| && s.loads[i].Some? && Enabled(l, s.group, FileMoves(i, Count))
       case Whole(b) => Enabled(l, s.group, b) && !AddsOne(b)
  }

  ghost function LooseNext(l: Limits, s: Loose, a: LooseStep): Loose
    requires LooseEnabled(l, s, a)
  {
    match a
    case Load(i) => s.(loads := s.loads[i := Some(s.group.Full(s.group.files[i].pc.slot))])
    case Store(i) =>
      Loose(AfterStore(l, s.group, i, s.loads[i].value + 1), s.loads[i := None])
    case Whole(b) => s.(group := Next(l, s.group, b))
  }

  ghost predicate LooseRuns(l: Limits, s: Loose, acts: seq<LooseStep>)
    decreases |acts|
  {
    acts == [] || (LooseEnabled(l, s, acts[0]) && LooseRuns(l, LooseNext(l, s, acts[0]), acts[1..]))
  }

  ghost function LooseAfter(l: Limits, s: Loose, acts: seq<LooseStep>): Loose
    requires LooseRuns(l, s, acts)
    decreases |acts|
  {
    if acts == [] then s else LooseAfter(l, LooseNext(l, s, acts[0]), acts[1..])
  }

  /** Nobody has loaded anything. */
  function Unloaded(n: nat): (r: seq<Option<nat>>)
    ensures |r| == n
  {
    seq(n, _ => None)
  }

  function LooseInitial(n: nat): Loose {
    Loose(Initial(n), Unloaded(n))
  }

  // ----- The counters there should be -----

  ghost function Settlers(s: Group, k: Index): nat {
    Tally(CountBits(s, k))
  }

  /** The group with the counters as they would be if nothing got lost. */
  ghost function Corrected(s: Group): Group {
    s.(full0 := Settlers(s, 0), full1 := Settlers(s, 1))
  }

  lemma SameSettlers(s: Group, t: Group)
    requires t == s.(full0 := t.full0, full1 := t.full1)
    ensures forall k: Index :: CountBits(t, k) == CountBits(s, k)
    ensures Corrected(t) == Corrected(s)
  {
    forall k: Index ensures CountBits(t, k) == CountBits(s, k) {
      assert forall i :: 0 <= i < |s.files| ==> t.Counted(i, k) == s.Counted(i, k);
    }
  }

  /** The pipeline's invariant but for the counters, which may have fallen behind, as may what was loaded. */
  ghost predicate LooseInvariant(l: Limits, s: Loose) {
    && |s.loads| == |s.group.files| && Invariant(l, Corrected(s.group))
    && Behind(s.group)
    && forall i :: 0 <= i < |s.loads| && s.loads[i].Some? ==>
         s.group.files[i].pc.Counting? && s.loads[i].value <= Settlers(s.group, s.group.files[i].pc.slot)
  }

  /** A counter that should read N, and does not, is tested. */
  predicate Missed(s: Group, c: Group, a: Action) {
    a.Consumer? && s.phase.Testing? && s.Full(s.phase.slot) != |s.files| && c.Full(s.phase.slot) == |s.files|
  }

  /** What a step does to the true counts. */
  lemma CountsAfter(l: Limits, c: Group, a: Action, k: Index)
    requires Enabled(l, c, a)
    ensures Next(l, c, a).Full(k) ==
            if AddsOne(a) && c.files[a.file].pc.slot == k then c.Full(k) + 1
            else if a.Consumer? && c.phase == Resetting(k) then 0
            else c.Full(k)
  {
  }

  /** Unless a full counter is missed, the step is the one the true counters allow. */
  lemma StepCorrected(l: Limits, s: Group, a: Action)
    requires Invariant(l, Corrected(s)) && Enabled(l, s, a) && !Missed(s, Corrected(s), a)
    requires Behind(s)
    ensures Enabled(l, Corrected(s), a)
    ensures var t, u := Next(l, Corrected(s), a), Next(l, s, a);
            Invariant(l, t) && t == u.(full0 := t.full0, full1 := t.full1) && Corrected(u) == t
  {
    var c := Corrected(s);
    SameSettlers(s, c);
    var t, u := Next(l, c, a), Next(l, s, a);
    PipelineSafety.StepKeeps(l, c, a);
    SameFields(l, s, c, a);
    SameSettlers(u, t);
    assert t.Full(0) == Settlers(t, 0) && t.Full(1) == Settlers(t, 1);
  }

  /** The counters show in a step only when one is tested. */
  lemma SameFields(l: Limits, s: Group, c: Group, a: Action)
    requires c == s.(full0 := c.full0, full1 := c.full1) && Enabled(l, s, a)
    requires a.Consumer? && s.phase.Testing? ==>
               (s.Full(s.phase.slot) == |s.files| <==> c.Full(s.phase.slot) == |s.files|)
    ensures var t, u := Next(l, c, a), Next(l, s, a); t == u.(full0 := t.full0, full1 := t.full1)
  {
    if a.Consumer? && s.phase.Xoring? {
      SameXored(l, s, c, s.phase.slot, a.accepted);
    } else if a.Consumer? {
      SameConsumed(l, s, c, a.accepted);
    }
  }

  lemma SameXored(l: Limits, s: Group, c: Group, k: Index, accepted: nat)
    requires c == s.(full0 := c.full0, full1 := c.full1) && s.files != []
    ensures var t, u := Xored(l, c, k, accepted), Xored(l, s, k, accepted); t == u.(full0 := t.full0, full1 := t.full1)
  {
    assert c.Buffers(k) == s.Buffers(k);
  }

  lemma SameConsumed(l: Limits, s: Group, c: Group, accepted: nat)
    requires c == s.(full0 := c.full0, full1 := c.full1) && s.files != [] && !s.phase.Returned? && !s.phase.Xoring?
    requires s.phase.Testing? ==> (s.Full(s.phase.slot) == |s.files| <==> c.Full(s.phase.slot) == |s.files|)
    ensures var t, u := Consumed(l, c, accepted), Consumed(l, s, accepted); t == u.(full0 := t.full0, full1 := t.full1)
  {
  }

  /** Missing it is one more poll. */
  lemma MissKeeps(l: Limits, s: Group, a: Action)
    requires Invariant(l, Corrected(s)) && Enabled(l, s, a) && Missed(s, Corrected(s), a)
    ensures Invariant(l, Corrected(Next(l, s, a)))
    ensures forall k: Index :: Settlers(Next(l, s, a), k) == Settlers(s, k)
  {
    var c, t := Corrected(s), Next(l, s, a);
    var d := c.(phase := t.phase);
    SameSettlers(s, c);
    PipelineSafety.QuietStepKeeps(c, d);
    SameSettlers(d, t);
    assert d.Full(0) == Settlers(d, 0) && d.Full(1) == Settlers(d, 1);
    assert Corrected(t) == d;
  }

  lemma StepSettlers(l: Limits, s: Group, a: Action, k: Index)
    requires Invariant(l, Corrected(s)) && Enabled(l, s, a) && !Missed(s, Corrected(s), a)
    requires Behind(s)
    ensures Enabled(l, Corrected(s), a)
    ensures Invariant(l, Corrected(Next(l, s, a))) && Settlers(Next(l, s, a), k) == Next(l, Corrected(s), a).Full(k)
  {
    StepCorrected(l, s, a);
    FullOfCorrected(Next(l, s, a), k);
  }

  lemma FullOfCorrected(s: Group, k: Index)
    ensures Corrected(s).Full(k) == Settlers(s, k)
  {
  }

  /** How the number of files that settled slot `k` changes. */
  ghost function Resettled(s: Group, a: Action, k: Index): nat
    requires a.FileMoves? ==> a.file < |s.files|
  {
    if AddsOne(a) && s.files[a.file].pc.Counting? && s.files[a.file].pc.slot == k then Settlers(s, k) + 1
    else if a.Consumer? && s.phase == Resetting(k) then 0
    else Settlers(s, k)
  }

  lemma SettlersAfter(l: Limits, s: Group, a: Action, k: Index)
    requires Invariant(l, Corrected(s)) && Enabled(l, s, a)
    requires Behind(s)
    ensures Invariant(l, Corrected(Next(l, s, a))) && Settlers(Next(l, s, a), k) == Resettled(s, a, k)
  {
    if Missed(s, Corrected(s), a) {
      MissKeeps(l, s, a);
    } else {
      StepSettlers(l, s, a, k);
      CountsAfter(l, Corrected(s), a, k);
      FullOfCorrected(s, k);
    }
  }

  // ----- Every step -----

  /** Who is counting stays where it is until it stores, and no slot being counted is reset. */
  lemma CountingStands(l: Limits, s: Group, a: Action, i: nat)
    requires Invariant(l, Corrected(s)) && Enabled(l, s, a) && !AddsOne(a)
    requires i < |s.files| && s.files[i].pc.Counting?
    ensures |Next(l, s, a).files| == |s.files| && Next(l, s, a).files[i].pc == s.files[i].pc
    ensures !(a.Consumer? && s.phase == Resetting(s.files[i].pc.slot))
  {
    if a.Consumer? {
      ConsumerLeavesThreads(l, s, a.accepted);
      assert s.phase.Resetting? ==> Corrected(s).Holds(i, s.phase.slot);
    } else {
      PipelineSafety.FileAfter(l, s, a, i);
    }
  }

  lemma WholeKeeps(l: Limits, s: Loose, a: Action)
    requires LooseInvariant(l, s) && LooseEnabled(l, s, Whole(a))
    ensures LooseInvariant(l, LooseNext(l, s, Whole(a)))
  {
    var g, t := s.group, Next(l, s.group, a);
    forall k: Index ensures Invariant(l, Corrected(t)) && t.Full(k) <= Settlers(t, k) {
      SettlersAfter(l, g, a, k);
      CountsAfter(l, g, a, k);
    }
    SealedOnlyGrows(l, g, a);
    forall i | 0 <= i < |s.loads| && s.loads[i].Some?
      ensures t.files[i].pc.Counting? && s.loads[i].value <= Settlers(t, t.files[i].pc.slot)
    {
      CountingStands(l, g, a, i);
      SettlersAfter(l, g, a, g.files[i].pc.slot);
    }
  }

  /** The group after thread `i` has stored `n`. */
  ghost function AfterStore(l: Limits, s: Group, i: nat, n: nat): Group
    requires Enabled(l, s, FileMoves(i, Count))
  {
    Next(l, s, FileMoves(i, Count)).WithFull(s.files[i].pc.slot, n)
  }

  lemma AfterStoreFields(l: Limits, s: Group, i: nat, n: nat, k: Index)
    requires Enabled(l, s, FileMoves(i, Count))
    ensures AfterStore(l, s, i, n).Full(k) == if s.files[i].pc.slot == k then n else s.Full(k)
    ensures AfterStore(l, s, i, n).files == s.files[i := Moved(l, s.files[i], Count)]
  {
  }

  /** Storing counts the file, whatever it stores. */
  lemma StoreSettles(l: Limits, s: Group, i: nat, n: nat, k: Index)
    requires Invariant(l, Corrected(s)) && Enabled(l, s, FileMoves(i, Count))
    requires Behind(s)
    ensures Invariant(l, Corrected(AfterStore(l, s, i, n)))
    ensures Settlers(AfterStore(l, s, i, n), k) == Settlers(s, k) + if s.files[i].pc.slot == k then 1 else 0
  {
    var u := Next(l, s, FileMoves(i, Count));
    SettlersAfter(l, s, FileMoves(i, Count), k);
    SameSettlers(u, AfterStore(l, s, i, n));
  }

  /** The counters may have fallen behind. */
  ghost predicate Behind(s: Group) {
    forall k: Index :: s.Full(k) <= Settlers(s, k)
  }

  lemma StoreStaysBehind(l: Limits, s: Group, i: nat, v: nat)
    requires Invariant(l, Corrected(s)) && Enabled(l, s, FileMoves(i, Count)) && Behind(s)
    requires v <= Settlers(s, s.files[i].pc.slot)
    ensures Behind(AfterStore(l, s, i, v + 1))
  {
    var t := AfterStore(l, s, i, v + 1);
    forall k: Index ensures t.Full(k) <= Settlers(t, k) {
      StoreSettles(l, s, i, v + 1, k);
      AfterStoreFields(l, s, i, v + 1, k);
    }
  }

  /** The other threads' loads are as good as before. */
  lemma OtherLoads(l: Limits, s: Group, i: nat, n: nat, j: nat, v: nat)
    requires Invariant(l, Corrected(s)) && Enabled(l, s, FileMoves(i, Count)) && Behind(s)
    requires j < |s.files| && j != i && s.files[j].pc.Counting? && v <= Settlers(s, s.files[j].pc.slot)
    ensures |AfterStore(l, s, i, n).files| == |s.files| && AfterStore(l, s, i, n).files[j] == s.files[j]
    ensures v <= Settlers(AfterStore(l, s, i, n), s.files[j].pc.slot)
  {
    AfterStoreFields(l, s, i, n, 0);
    StoreSettles(l, s, i, n, s.files[j].pc.slot);
  }

  /** The counter is no longer what the thread loaded: somebody's update gets lost. */
  predicate Stale(s: Loose, a: LooseStep) {
    && a.Store? && a.file < |s.loads| == |s.group.files| && s.loads[a.file].Some? && s.group.files[a.file].pc.Counting?
    && s.loads[a.file].value != s.group.Full(s.group.files[a.file].pc.slot)
  }

  lemma StoreIs(l: Limits, s: Loose, i: nat)
    requires LooseEnabled(l, s, Store(i))
    ensures LooseNext(l, s, Store(i)).group == AfterStore(l, s.group, i, s.loads[i].value + 1)
    ensures Stale(s, Store(i)) <==> s.loads[i].value != s.group.Full(s.group.files[i].pc.slot)
  {
  }

  lemma StoreKeeps(l: Limits, s: Loose, i: nat)
    requires LooseInvariant(l, s) && LooseEnabled(l, s, Store(i))
    ensures LooseInvariant(l, LooseNext(l, s, Store(i)))
  {
    var g, n, t := s.group, s.loads[i].value + 1, LooseNext(l, s, Store(i));
    StoreIs(l, s, i);
    StoreSettles(l, g, i, n, 0);
    StoreStaysBehind(l, g, i, n - 1);
    AfterStoreFields(l, g, i, n, 0);
    forall j | 0 <= j < |t.loads| && t.loads[j].Some?
      ensures t.group.files[j].pc.Counting? && t.loads[j].value <= Settlers(t.group, t.group.files[j].pc.slot)
    {
      OtherLoads(l, g, i, n, j, s.loads[j].value);
    }
  }

  lemma LooseStepKeeps(l: Limits, s: Loose, a: LooseStep)
    requires LooseInvariant(l, s) && LooseEnabled(l, s, a)
    ensures LooseInvariant(l, LooseNext(l, s, a))
  {
    match a
    case Load(_) =>
    case Store(i) => StoreKeeps(l, s, i);
    case Whole(b) => WholeKeeps(l, s, b);
  }

  lemma LooseStart(l: Limits, n: nat)
    requires n >= 1
    ensures LooseInvariant(l, LooseInitial(n))
  {
    PipelineSafety.InitialInvariant(l, n);
    assert Corrected(Initial(n)) == Initial(n);
  }

  lemma {:induction false} LooseRunKeeps(l: Limits, s: Loose, acts: seq<LooseStep>)
    requires LooseInvariant(l, s) && LooseRuns(l, s, acts)
    ensures LooseInvariant(l, LooseAfter(l, s, acts))
    ensures |LooseAfter(l, s, acts).group.files| == |s.group.files|
    decreases |acts|
  {
    if acts != [] {
      LooseStepKeeps(l, s, acts[0]);
      LooseRunKeeps(l, LooseNext(l, s, acts[0]), acts[1..]);
    }
  }
}
