/**
 * What else can go wrong, with one slot per file: a file that is short and reported RIGHT, a file cut
 * into a piece too many, and a transfer that never returns because an increment got lost.
 */
module Shortfalls {
  import Wrappers
  import opened Bytes
  import opened Slots
  import opened Pipeline
  import opened Delivery
  import opened LateFragments
  import Guarantees
  import opened ThreadRuns
  import opened GroupRuns
  import opened Increments
  import opened LostUpdates

  function AllInOneSlot(streams: seq<seq<byte>>): (r: seq<Producer>)
    requires forall i :: 0 <= i < |streams| ==> streams[i] != []
    ensures |r| == |streams|
  {
    seq(|streams|, i requires 0 <= i < |streams| => InOneSlot(streams[i]))
  }

  /** Every file is received into slot 0 and counted; the consumer has not begun. */
  function AllReceived(streams: seq<seq<byte>>): Group
    requires forall i :: 0 <= i < |streams| ==> streams[i] != []
  {
    Initial(|streams|).(files := AllInOneSlot(streams), full0 := |streams|)
  }

  lemma ReceiveAll(l: Limits, streams: seq<seq<byte>>)
    requires Streams(l, streams) && l.size <= l.cap
    ensures Path(l, streams, Initial(|streams|), AllReceived(streams))
  {
    var s0, done := Initial(|streams|), AllInOneSlot(streams);
    forall i | 0 <= i < |streams| ensures Reaches(l, streams[i], s0.files[i], done[i], Bit(true), Bit(false)) {
      ReachInOneSlot(l, streams[i]);
    }
    LiftAll(l, streams, s0, done, 0, |streams|, true, false);
    assert AllAdvanced(s0, done, 0, |streams|, true, false).files == done;
  }

  // ----- RIGHT, but short -----

  /**
   * For any N streams that fit into a slot and whose length is not a multiple of four, and for up to
   * size mod 4 bytes, there is a run without faults that returns RIGHT with the output file that many
   * bytes short: the unchecked write of the last bytes is cut.
   */
  lemma RightButShort(l: Limits, streams: seq<seq<byte>>, lost: nat) returns (t: Group)
    requires Streams(l, streams) && l.size <= l.cap && 1 <= lost <= l.size % 4
    ensures SameLength(streams) && Path(l, streams, Initial(|streams|), t)
    ensures t.phase == Returned(Right) && t.faults == []
    ensures |XorAll(streams)| == l.size && t.outFile == XorAll(streams)[..l.size - lost]
  {
    var s := AllReceived(streams);
    ReceiveAll(l, streams);
    assert s.Buffers(0) == streams;
    var out := XorAll(streams)[..l.size - lost];
    DrainAndEnd(l, streams, s, 0, out);
    t := DrainedTo(l, s, 0, out).(phase := Returned(Right));
    PathThen(l, streams, Initial(|streams|), s, t);
  }

  // ----- A piece too many -----

  /** A run in which file 0 gets `n` late fragments. */
  ghost predicate Straying(l: Limits, streams: seq<seq<byte>>, s: Group, acts: seq<Action>, t: Group, n: nat) {
    && Runs(l, s, acts) && SpellsRun(l, streams, s, acts) && After(l, s, acts) == t
    && LateFeeds(l, s, acts, 0) == n
  }

  ghost predicate Strays(l: Limits, streams: seq<seq<byte>>, s: Group, t: Group, n: nat) {
    exists acts :: Straying(l, streams, s, acts, t, n)
  }

  lemma {:induction false} StrayingThen(l: Limits, streams: seq<seq<byte>>, s: Group, a: seq<Action>, t: Group, m: nat,
                                        b: seq<Action>, u: Group, n: nat)
    requires Straying(l, streams, s, a, t, m) && Straying(l, streams, t, b, u, n)
    ensures Straying(l, streams, s, a + b, u, m + n)
    decreases |a|
  {
    if a == [] {
      assert a + b == b;
    } else {
      StrayingThen(l, streams, Next(l, s, a[0]), a[1..], t, m - LateHere(l, s, a[0], 0), b, u, n);
      assert (a + b)[1..] == a[1..] + b;
    }
  }

  lemma StraysThen(l: Limits, streams: seq<seq<byte>>, s: Group, t: Group, m: nat, u: Group, n: nat)
    requires Strays(l, streams, s, t, m) && Strays(l, streams, t, u, n)
    ensures Strays(l, streams, s, u, m + n)
  {
    var a :| Straying(l, streams, s, a, t, m);
    var b :| Straying(l, streams, t, b, u, n);
    StrayingThen(l, streams, s, a, t, m, b, u, n);
  }

  /** Peers that deliver send no late fragment. */
  lemma {:induction false} DeliveryIsInTime(l: Limits, streams: seq<seq<byte>>, s: Group, acts: seq<Action>)
    requires Runs(l, s, acts) && Guarantees.DeliversRun(l, streams, s, acts)
    ensures Straying(l, streams, s, acts, After(l, s, acts), 0)
    decreases |acts|
  {
    if acts != [] { DeliveryIsInTime(l, streams, Next(l, s, acts[0]), acts[1..]); }
  }

  lemma StrayMove(l: Limits, streams: seq<seq<byte>>, s: Group, m: Move)
    requires s.files != [] && streams != [] && CanMove(l, s.files[0], m) && Bounded(l, s.files[0])
    requires MoveSpells(streams[0], s.files[0], m)
    ensures Strays(l, streams, s, Next(l, s, FileMoves(0, m)), if IsLate(l, s.files[0], m) then 1 else 0)
  {
    var a := FileMoves(0, m);
    assert [a][1..] == [];
    assert Straying(l, streams, Next(l, s, a), [], Next(l, s, a), 0);
    assert Straying(l, streams, s, [a], Next(l, s, a), LateHere(l, s, a, 0));
  }

  /** File 0 stands at `p`. */
  function At(s: Group, p: Producer): Group
    requires s.files != []
  {
    s.(files := s.files[0 := p])
  }

  /** One move of file 0's thread, from `p` to `q`. */
  lemma StrayTo(l: Limits, streams: seq<seq<byte>>, s: Group, p: Producer, m: Move, q: Producer)
    requires s.files != [] && streams != [] && CanMove(l, p, m) && Bounded(l, p) && MoveSpells(streams[0], p, m)
    requires Moved(l, p, m) == q && !m.Count?
    ensures Strays(l, streams, At(s, p), At(s, q), if IsLate(l, p, m) then 1 else 0)
  {
    StrayMove(l, streams, At(s, p), m);
    assert s.files[0 := p][0 := q] == s.files[0 := q];
  }

  /** The late fragment arrives, finds no slot, and reopens slot 1. */
  lemma LateArrives(l: Limits, streams: seq<seq<byte>>, s: Group, p: Producer)
    requires Streams(l, streams) && s.files != [] && l.size <= l.cap && p == InOneSlot(streams[0])
    ensures Strays(l, streams, At(s, p), At(s, p.(fragment := [], slot1 := Slot(Writable, []), pc := Loop)), 1)
  {
    var p1 := p.(fragment := [], pc := Loop);
    var p2, p3 := p1.(pc := Reopening(0)), p1.(pc := Reopening(1));
    assert p.fed + [] == p.fed;
    StrayTo(l, streams, s, p, Feed([]), p1);
    StrayTo(l, streams, s, p1, Wait, p2);
    StraysThen(l, streams, At(s, p), At(s, p1), 1, At(s, p2), 0);
    StrayTo(l, streams, s, p2, Reopen, p3);
    StraysThen(l, streams, At(s, p), At(s, p2), 1, At(s, p3), 0);
    var p4 := p1.(slot1 := Slot(Writable, []));
    StrayTo(l, streams, s, p3, Reopen, p4);
    StraysThen(l, streams, At(s, p), At(s, p3), 1, At(s, p4), 0);
  }

  /** Nothing is stored, the file counts as complete once more, and the empty slot is sealed. */
  lemma LateSealed(l: Limits, streams: seq<seq<byte>>, s: Group, p: Producer) returns (t: Group)
    requires Streams(l, streams) && s.files != [] && l.size <= l.cap && p == InOneSlot(streams[0])
    ensures Strays(l, streams, At(s, p.(fragment := [], slot1 := Slot(Writable, []), pc := Loop)), t, 0)
    ensures t.files != [] && t.files[0].pc.Idle? && t.files[0].fed == streams[0]
  {
    var p4 := p.(fragment := [], slot1 := Slot(Writable, []), pc := Loop);
    var p5 := p4.(pc := Sealing(1, true));
    assert [] + p4.Rest() == [];
    StrayTo(l, streams, s, p4, Fill, p5);
    var p6 := Moved(l, p5, Seal);
    StrayTo(l, streams, s, p5, Seal, p6);
    StraysThen(l, streams, At(s, p4), At(s, p5), 0, At(s, p6), 0);
    StrayMove(l, streams, At(s, p6), Count);
    t := Next(l, At(s, p6), FileMoves(0, Count));
    StraysThen(l, streams, At(s, p4), At(s, p6), 0, t, 0);
  }

  /**
   * For any N streams that fit into a slot there is a run in which one late fragment comes for file 0,
   * and file 0 is cut into one piece more than ceil(size/cap).
   */
  lemma PieceTooMany(l: Limits, streams: seq<seq<byte>>) returns (acts: seq<Action>)
    requires Streams(l, streams) && l.size <= l.cap
    ensures Runs(l, Initial(|streams|), acts) && SpellsRun(l, streams, Initial(|streams|), acts)
    ensures LateFeeds(l, Initial(|streams|), acts, 0) == 1
    ensures var t := After(l, Initial(|streams|), acts);
            && t.files != [] && t.files[0].pc.Idle? && t.files[0].fed == streams[0]
            && |t.files[0].sealed| == Generations(l) + 1
  {
    var s0, s, p := Initial(|streams|), AllReceived(streams), InOneSlot(streams[0]);
    ReceiveAll(l, streams);
    var first :| Walk(l, streams, s0, first, s);
    DeliveryIsInTime(l, streams, s0, first);
    assert At(s, p) == s by { assert s.files[0 := p] == s.files; }
    var open := At(s, p.(fragment := [], slot1 := Slot(Writable, []), pc := Loop));
    LateArrives(l, streams, s, p);
    StraysThen(l, streams, s0, s, 0, open, 1);
    var t := LateSealed(l, streams, s, p);
    StraysThen(l, streams, s0, open, 1, t, 0);
    acts :| Straying(l, streams, s0, acts, t, 1);
    ExactPieces(l, streams, acts, 0);
  }

  // ----- An increment lost -----

  /** Files 0 and 1 are about to count, the others have counted. */
  function TwoToCount(streams: seq<seq<byte>>): (r: seq<Producer>)
    requires forall i :: 0 <= i < |streams| ==> streams[i] != []
    ensures |r| == |streams|
  {
    seq(|streams|, i requires 0 <= i < |streams| => if i < 2 then AboutToCount(streams[i]) else InOneSlot(streams[i]))
  }

  function AllButTwoCounted(streams: seq<seq<byte>>): Group
    requires |streams| >= 2 && forall i :: 0 <= i < |streams| ==> streams[i] != []
  {
    Initial(|streams|).(files := TwoToCount(streams), full0 := |streams| - 2)
  }

  lemma TwoReach(l: Limits, streams: seq<seq<byte>>)
    requires Streams(l, streams) && l.size <= l.cap && |streams| >= 2
    ensures forall i :: 0 <= i < 2 ==> Reaches(l, streams[i], FRESH, TwoToCount(streams)[i], 0, 0)
    ensures forall i :: 2 <= i < |streams| ==> Reaches(l, streams[i], FRESH, TwoToCount(streams)[i], 1, 0)
  {
    forall i | 0 <= i < 2 ensures Reaches(l, streams[i], FRESH, TwoToCount(streams)[i], 0, 0) {
      ReachAboutToCount(l, streams[i]);
    }
    forall i | 2 <= i < |streams| ensures Reaches(l, streams[i], FRESH, TwoToCount(streams)[i], 1, 0) {
      ReachInOneSlot(l, streams[i]);
    }
  }

  lemma TwoThenTheRest(streams: seq<seq<byte>>)
    requires |streams| >= 2 && forall i :: 0 <= i < |streams| ==> streams[i] != []
    ensures var to, n := TwoToCount(streams), |streams|;
            var s := AllAdvanced(Initial(n), to, 0, 2, false, false);
            && |s.files| == n && (forall i :: 2 <= i < n ==> s.files[i] == FRESH)
            && AllAdvanced(s, to, 2, n, true, false) == AllButTwoCounted(streams)
  {
    var to, n := TwoToCount(streams), |streams|;
    var s := AllAdvanced(Initial(n), to, 0, 2, false, false);
    assert s.files[..2] + to[2..n] + s.files[n..] == to;
  }

  lemma ReachTwoToCount(l: Limits, streams: seq<seq<byte>>)
    requires Streams(l, streams) && l.size <= l.cap && |streams| >= 2
    ensures Path(l, streams, Initial(|streams|), AllButTwoCounted(streams))
  {
    var s0, to, n := Initial(|streams|), TwoToCount(streams), |streams|;
    var s := AllAdvanced(s0, to, 0, 2, false, false);
    TwoReach(l, streams);
    TwoThenTheRest(streams);
    LiftAll(l, streams, s0, to, 0, 2, false, false);
    LiftAll(l, streams, s, to, 2, n, true, false);
    PathThen(l, streams, s0, s, AllButTwoCounted(streams));
  }

  /** All files received and counted, and the counter one short. */
  function OneShort(streams: seq<seq<byte>>): Loose
    requires streams != [] && forall i :: 0 <= i < |streams| ==> streams[i] != []
  {
    Loose(AllReceived(streams).(full0 := |streams| - 1), Unloaded(|streams|))
  }

  /** Both load before either stores. */
  lemma LoadLoadStoreStore(l: Limits, streams: seq<seq<byte>>)
    requires Streams(l, streams) && l.size <= l.cap && |streams| >= 2
    ensures LoosePath(l, streams, Loose(AllButTwoCounted(streams), Unloaded(|streams|)), OneShort(streams))
  {
    var v := |streams| - 2;
    var s0 := Loose(AllButTwoCounted(streams), Unloaded(|streams|));
    var s1 := LooseNext(l, s0, Load(0));
    var s2 := LooseNext(l, s1, Load(1));
    assert s2.loads[0] == s2.loads[1] == Wrappers.Some(v);
    var s3 := LooseNext(l, s2, Store(0));
    var s4 := LooseNext(l, s3, Store(1));
    assert s4.group.full0 == v + 1 && s4.loads == Unloaded(|streams|);
    assert s4.group.files == AllInOneSlot(streams);
    assert s4 == OneShort(streams);
    LooseHere(l, streams, s4);
    LooseStepThen(l, streams, s3, Store(1), s4);
    LooseStepThen(l, streams, s2, Store(0), s4);
    LooseStepThen(l, streams, s1, Load(1), s4);
    LooseStepThen(l, streams, s0, Load(0), s4);
  }

  /** Every file is complete, neither counter reads N, and the consumer only polls. */
  ghost predicate Hanging(l: Limits, s: Group) {
    && (forall i :: 0 <= i < |s.files| ==> s.files[i].pc.Idle? && |s.files[i].fed| >= l.size)
    && s.full0 != |s.files| && s.full1 != |s.files| && !s.xorFlag && !s.failed
    && (s.phase.Testing? || s.phase.LoopTest?)
  }

  lemma {:induction false} HangsForEver(l: Limits, streams: seq<seq<byte>>, s: Loose, acts: seq<LooseStep>)
    requires Hanging(l, s.group) && LooseUndisturbed(l, streams, s, acts) && LooseRuns(l, s, acts)
    ensures Hanging(l, LooseAfter(l, s, acts).group)
    decreases |acts|
  {
    if acts != [] {
      assert acts[0].Whole? && acts[0].action.Consumer?;
      HangsForEver(l, streams, LooseNext(l, s, acts[0]), acts[1..]);
    }
  }

  /**
   * For any two or more streams that fit into a slot there is a run without faults in which two threads
   * load a counter before either stores it. All files are complete and have sealed the same slot, and the
   * consumer polls for ever.
   */
  lemma HangsAfterLostUpdate(l: Limits, streams: seq<seq<byte>>) returns (t: Loose)
    requires Streams(l, streams) && l.size <= l.cap && |streams| >= 2
    ensures LoosePath(l, streams, LooseInitial(|streams|), t)
    ensures forall i :: 0 <= i < |t.group.files| ==>
              i < |streams| && t.group.files[i].fed == streams[i] && t.group.files[i].sealed == [Chunk(0, streams[i])]
    ensures forall acts :: LooseUndisturbed(l, streams, t, acts) && LooseRuns(l, t, acts) ==>
              !LooseAfter(l, t, acts).group.phase.Returned?
  {
    var s0, s := Initial(|streams|), AllButTwoCounted(streams);
    t := OneShort(streams);
    ReachTwoToCount(l, streams);
    var acts :| Walk(l, streams, s0, acts, s);
    LoadLoadStoreStore(l, streams);
    Loosen(l, streams, s0, acts, s, t);
    forall acts | LooseUndisturbed(l, streams, t, acts) && LooseRuns(l, t, acts)
      ensures !LooseAfter(l, t, acts).group.phase.Returned?
    {
      HangsForEver(l, streams, t, acts);
    }
  }
}
