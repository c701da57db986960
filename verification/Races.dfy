/**
 * What goes wrong when the order of steps is not restricted: for any number of files, any slot
 * capacity, bytes arriving one at a time, no peer failing and every write complete, there are runs that
 * end RIGHT with generations exchanged, runs that end RIGHT with different generations XORed together,
 * and runs that can never end.
 */
module Races {
  import opened Bytes
  import opened Slots
  import opened Pipeline
  import opened Delivery
  import Guarantees
  import opened ThreadRuns
  import opened GroupRuns
  import PipelineSafety
  import Progress
  import opened Ending

  // ----- From the start to the first drain -----

  /** Slot `k` of every file holds bytes `lo` to `hi` of its stream. */
  ghost predicate SlotHolds(s: Group, k: Index, streams: seq<seq<byte>>, lo: nat, hi: nat)
    requires lo <= hi && forall i :: 0 <= i < |streams| ==> hi <= |streams[i]|
  {
    |s.files| == |streams| && forall i :: 0 <= i < |streams| ==> s.files[i].Get(k).bytes == streams[i][lo..hi]
  }

  lemma HeldXor(s: Group, k: Index, streams: seq<seq<byte>>, lo: nat, hi: nat)
    requires SameLength(streams) && lo <= hi <= |streams[0]|
    requires SlotHolds(s, k, streams, lo, hi)
    ensures SameLength(s.Buffers(k)) && |s.Buffers(k)[0]| == hi - lo
    ensures XorAll(s.Buffers(k)) == XorAll(streams)[lo..hi]
  {
    assert s.Buffers(k) == Slices(streams, lo, hi);
    XorOfSlices(streams, lo, hi);
  }

  /** Slot 0 of every file has been given back; `left` is what lies there. */
  function Released(to: seq<Producer>, left: seq<seq<byte>>): (r: seq<Producer>)
    requires |left| == |to|
    ensures |r| == |to|
  {
    seq(|to|, i requires 0 <= i < |to| => to[i].Put(0, Slot(Empty, left[i])))
  }

  function Left(s: Group, k: Index, first: seq<byte>): (r: seq<seq<byte>>)
    ensures |r| == |s.files|
  {
    seq(|s.files|, i requires 0 <= i < |s.files| => if i == 0 then first else s.files[i].Get(k).bytes)
  }

  /** Generation 0 has been drained, and everybody stands where `files` says. */
  ghost predicate OneDrained(l: Limits, streams: seq<seq<byte>>, t: Group, files: seq<Producer>, b1: bool)
    requires SameLength(streams) && l.cap <= |streams[0]|
  {
    && t.files == files && t.phase == Testing(0) && t.full0 == 0 && t.full1 == CountIf(b1, |streams|)
    && t.xorSize == l.cap && !t.xorFlag && !t.failed && t.faults == [] && t.outFile == XorAll(streams)[..l.cap]
  }

  lemma FirstFull(l: Limits, streams: seq<seq<byte>>, s: Group, b1: bool) returns (left: seq<seq<byte>>)
    requires Streams(l, streams) && l.cap < l.size && |s.files| == |streams|
    requires s == Initial(|streams|).(files := s.files, full0 := |streams|, full1 := CountIf(b1, |streams|))
    requires SlotHolds(s, 0, streams, 0, l.cap)
    ensures SameLength(streams) && |left| == |streams| && forall i :: 0 <= i < |left| ==> |left[i]| == l.cap
    ensures ReadyToDrain(s, 0)
    ensures OneDrained(l, streams, Drained(l, s, 0).(phase := Testing(0)), Released(s.files, left), b1)
    ensures Path(l, streams, s, Drained(l, s, 0).(phase := Testing(0)))
  {
    HeldXor(s, 0, streams, 0, l.cap);
    DrainAndLoop(l, streams, s, 0);
    left := Left(s, 0, XorAll(s.Buffers(0)));
    assert Drained(l, s, 0).files == Released(s.files, left);
    assert XorAll(streams)[0..l.cap] == XorAll(streams)[..l.cap];
  }

  /** All threads run to where `to` says; then generation 0 is drained. */
  lemma FirstDrain(l: Limits, streams: seq<seq<byte>>, to: seq<Producer>, b1: bool) returns (t: Group, left: seq<seq<byte>>)
    requires Streams(l, streams) && l.cap < l.size && |to| == |streams|
    requires forall i :: 0 <= i < |streams| ==> Reaches(l, streams[i], FRESH, to[i], 1, Bit(b1))
    requires forall i :: 0 <= i < |streams| ==> to[i].slot0.bytes == streams[i][..l.cap]
    ensures SameLength(streams) && |left| == |streams| && forall i :: 0 <= i < |left| ==> |left[i]| == l.cap
    ensures Path(l, streams, Initial(|streams|), t) && OneDrained(l, streams, t, Released(to, left), b1)
  {
    var n, s0 := |streams|, Initial(|streams|);
    var s := AllAdvanced(s0, to, 0, n, true, b1);
    LiftAll(l, streams, s0, to, 0, n, true, b1);
    assert s.files == to;
    forall i | 0 <= i < n ensures s.files[i].Get(0).bytes == streams[i][0..l.cap] {
    }
    left := FirstFull(l, streams, s, b1);
    t := Drained(l, s, 0).(phase := Testing(0));
    PathThen(l, streams, s0, s, t);
  }

  // ----- Generations exchanged -----

  function AllBothSealed(streams: seq<seq<byte>>, cap: nat): seq<Producer>
    requires forall i :: 0 <= i < |streams| ==> 2 * cap < |streams[i]|
  {
    seq(|streams|, i requires 0 <= i < |streams| => BothSealed(streams[i], cap))
  }

  function AllInTurn(streams: seq<seq<byte>>, cap: nat): seq<Producer>
    requires forall i :: 0 <= i < |streams| ==> 2 * cap < |streams[i]|
  {
    seq(|streams|, i requires 0 <= i < |streams| => InTurnDone(streams[i], cap))
  }

  /** What slot `k` of each file holds. */
  function BytesOf(files: seq<Producer>, k: Index): (r: seq<seq<byte>>)
    ensures |r| == |files|
  {
    seq(|files|, i requires 0 <= i < |files| => files[i].Get(k).bytes)
  }

  /** All threads run to the end of their files; then the consumer drains slot 0 and slot 1. */
  lemma RefillAndEnd(l: Limits, streams: seq<seq<byte>>, s: Group, at: seq<Producer>, done: seq<Producer>, b1: bool)
    returns (t: Group)
    requires Streams(l, streams) && |at| == |done| == |streams| && l.size == 3 * l.cap
    requires OneDrained(l, streams, s, at, !b1)
    requires forall i :: 0 <= i < |streams| ==> Reaches(l, streams[i], at[i], done[i], 1, Bit(b1))
    requires forall k: Index, i :: 0 <= i < |streams| ==> |BytesOf(done, k)[i]| == l.cap
    ensures SameLength(BytesOf(done, 0)) && SameLength(BytesOf(done, 1))
    ensures t.outFile == XorAll(streams)[..l.cap] + XorAll(BytesOf(done, 0)) + XorAll(BytesOf(done, 1))
    ensures Path(l, streams, s, t) && t.phase == Returned(Right) && t.faults == []
  {
    var u := AllAdvanced(s, done, 0, |streams|, true, b1);
    LiftAll(l, streams, s, done, 0, |streams|, true, b1);
    assert u.files == done;
    assert u.Buffers(0) == BytesOf(done, 0) && u.Buffers(1) == BytesOf(done, 1);
    t := DrainBoth(l, streams, u);
    PathThen(l, streams, s, u, t);
  }

  lemma AllReachBothSealed(l: Limits, streams: seq<seq<byte>>)
    requires Streams(l, streams) && l.size == 3 * l.cap
    ensures forall i :: 0 <= i < |streams| ==> Reaches(l, streams[i], FRESH, AllBothSealed(streams, l.cap)[i], 1, 1)
    ensures forall i :: 0 <= i < |streams| ==> AllBothSealed(streams, l.cap)[i].slot0.bytes == streams[i][..l.cap]
  {
    forall i | 0 <= i < |streams| ensures Reaches(l, streams[i], FRESH, AllBothSealed(streams, l.cap)[i], 1, 1) {
      ReachBothSealed(l, streams[i]);
    }
  }

  lemma AllReachInTurn(l: Limits, streams: seq<seq<byte>>, left: seq<seq<byte>>)
    requires Streams(l, streams) && l.size == 3 * l.cap && |left| == |streams|
    requires forall i :: 0 <= i < |left| ==> |left[i]| == l.cap
    ensures forall i :: 0 <= i < |streams| ==>
              Reaches(l, streams[i], Released(AllBothSealed(streams, l.cap), left)[i], AllInTurn(streams, l.cap)[i], 1, 0)
  {
    forall i | 0 <= i < |streams|
      ensures Reaches(l, streams[i], Released(AllBothSealed(streams, l.cap), left)[i], AllInTurn(streams, l.cap)[i], 1, 0)
    {
      ThirdIntoSlot0(l, streams[i], left[i]);
    }
  }

  lemma InTurnBytes(l: Limits, streams: seq<seq<byte>>)
    requires Streams(l, streams) && l.size == 3 * l.cap
    ensures BytesOf(AllInTurn(streams, l.cap), 0) == Slices(streams, 2 * l.cap, 3 * l.cap)
    ensures BytesOf(AllInTurn(streams, l.cap), 1) == Slices(streams, l.cap, 2 * l.cap)
  {
    assert forall i :: 0 <= i < |streams| ==> streams[i][2 * l.cap..] == streams[i][2 * l.cap..3 * l.cap];
  }

  /**
   * For any N streams of three slots each there is a run, delivering them byte by byte with nothing
   * failing and every write complete, that ends RIGHT with the second and third part of the XOR
   * exchanged: all threads seal twice, and refill slot 0 before the consumer turns to slot 1.
   */
  lemma RightButReordered(l: Limits, streams: seq<seq<byte>>) returns (t: Group)
    requires Streams(l, streams) && l.size == 3 * l.cap
    ensures SameLength(streams) && Path(l, streams, Initial(|streams|), t)
    ensures t.phase == Returned(Right) && t.faults == []
    ensures var total, cap := XorAll(streams), l.cap;
            |total| == 3 * cap && t.outFile == total[..cap] + total[2 * cap..3 * cap] + total[cap..2 * cap]
  {
    var cap := l.cap;
    var both, done := AllBothSealed(streams, cap), AllInTurn(streams, cap);
    AllReachBothSealed(l, streams);
    var s, left := FirstDrain(l, streams, both, true);
    AllReachInTurn(l, streams, left);
    InTurnBytes(l, streams);
    t := RefillAndEnd(l, streams, s, Released(both, left), done, false);
    PathThen(l, streams, Initial(|streams|), s, t);
    XorOfSlices(streams, 2 * cap, 3 * cap);
    XorOfSlices(streams, cap, 2 * cap);
  }

  // ----- Generations mixed -----

  function OneLate(streams: seq<seq<byte>>, cap: nat): seq<Producer>
    requires forall i :: 0 <= i < |streams| ==> cap < |streams[i]|
  {
    seq(|streams|, i requires 0 <= i < |streams| => if i == 0 then AfterFirst(streams[i], cap) else OnTime(streams[i], cap))
  }

  function OneLateDone(streams: seq<seq<byte>>, cap: nat): seq<Producer>
    requires forall i :: 0 <= i < |streams| ==> 2 * cap < |streams[i]|
  {
    seq(|streams|, i requires 0 <= i < |streams| => if i == 0 then LatePollDone(streams[i], cap) else InTurnDone(streams[i], cap))
  }

  lemma ReachOneLate(l: Limits, streams: seq<seq<byte>>)
    requires Streams(l, streams) && l.cap < l.size
    ensures forall i :: 0 <= i < |streams| ==> Reaches(l, streams[i], FRESH, OneLate(streams, l.cap)[i], 1, 0)
    ensures forall i :: 0 <= i < |streams| ==> OneLate(streams, l.cap)[i].slot0.bytes == streams[i][..l.cap]
  {
    forall i | 0 <= i < |streams| ensures Reaches(l, streams[i], FRESH, OneLate(streams, l.cap)[i], 1, 0) {
      if i == 0 { FirstGeneration(l, streams[i]); } else { ReachOnTime(l, streams[i]); }
    }
  }

  /** Bytes `a` on of file 0, bytes `b` on of all others. */
  function Mixed(streams: seq<seq<byte>>, a: nat, b: nat, n: nat): (r: seq<seq<byte>>)
    requires forall i :: 0 <= i < |streams| ==> a + n <= |streams[i]| && b + n <= |streams[i]|
    ensures |r| == |streams| && forall i :: 0 <= i < |r| ==> |r[i]| == n
  {
    seq(|streams|, i requires 0 <= i < |streams| => if i == 0 then streams[i][a..a + n] else streams[i][b..b + n])
  }

  function Part(s: seq<byte>, at: nat, n: nat): (r: seq<byte>)
    requires at + n <= |s|
    ensures |r| == n
  {
    s[at..at + n]
  }

  /** Mixing differs from the parity by what the two generations of file 0 differ by. */
  lemma MixedXor(streams: seq<seq<byte>>, a: nat, b: nat, n: nat)
    requires SameLength(streams) && a + n <= |streams[0]| && b + n <= |streams[0]|
    ensures SameLength(Mixed(streams, a, b, n))
    ensures XorAll(Mixed(streams, a, b, n)) ==
            Xor(Part(XorAll(streams), b, n), Xor(Part(streams[0], b, n), Part(streams[0], a, n)))
  {
    var cut := Slices(streams, b, b + n);
    assert Mixed(streams, a, b, n) == cut[0 := streams[0][a..a + n]];
    XorOfSlices(streams, b, b + n);
    InputReplaced(cut, 0, streams[0][a..a + n]);
  }

  lemma AllReachOneLateDone(l: Limits, streams: seq<seq<byte>>, left: seq<seq<byte>>)
    requires Streams(l, streams) && l.size == 3 * l.cap && |left| == |streams|
    requires forall i :: 0 <= i < |left| ==> |left[i]| == l.cap
    ensures forall i :: 0 <= i < |streams| ==>
              Reaches(l, streams[i], Released(OneLate(streams, l.cap), left)[i], OneLateDone(streams, l.cap)[i], 1, 1)
  {
    forall i | 0 <= i < |streams|
      ensures Reaches(l, streams[i], Released(OneLate(streams, l.cap), left)[i], OneLateDone(streams, l.cap)[i], 1, 1)
    {
      if i == 0 { RestAfterLatePoll(l, streams[i], left[i]); } else { RestInTurn(l, streams[i], left[i]); }
    }
  }

  lemma MixedBytes(l: Limits, streams: seq<seq<byte>>)
    requires Streams(l, streams) && l.size == 3 * l.cap
    ensures BytesOf(OneLateDone(streams, l.cap), 0) == Mixed(streams, l.cap, 2 * l.cap, l.cap)
    ensures BytesOf(OneLateDone(streams, l.cap), 1) == Mixed(streams, 2 * l.cap, l.cap, l.cap)
  {
    assert forall i :: 0 <= i < |streams| ==> streams[i][2 * l.cap..] == streams[i][2 * l.cap..2 * l.cap + l.cap];
  }

  /** What is in the file instead of the XOR of the streams. */
  function MixedOutput(total: seq<byte>, f: seq<byte>, cap: nat): seq<byte>
    requires |total| == |f| == 3 * cap
  {
    total[..cap]
    + Xor(Part(total, 2 * cap, cap), Xor(Part(f, 2 * cap, cap), Part(f, cap, cap)))
    + Xor(Part(total, cap, cap), Xor(Part(f, cap, cap), Part(f, 2 * cap, cap)))
  }

  lemma MixedTotals(l: Limits, streams: seq<seq<byte>>)
    requires Streams(l, streams) && l.size == 3 * l.cap
    ensures var done := OneLateDone(streams, l.cap);
            && SameLength(streams) && SameLength(BytesOf(done, 0)) && SameLength(BytesOf(done, 1))
            && XorAll(streams)[..l.cap] + XorAll(BytesOf(done, 0)) + XorAll(BytesOf(done, 1)) ==
               MixedOutput(XorAll(streams), streams[0], l.cap)
  {
    MixedBytes(l, streams);
    MixedXor(streams, l.cap, 2 * l.cap, l.cap);
    MixedXor(streams, 2 * l.cap, l.cap, l.cap);
  }

  /**
   * For any two or more streams of three slots each there is a run, as undisturbed as before, that ends
   * RIGHT after XORing different generations together: file 0 polls late, once. The second and third
   * part written are not parts of the XOR at all, but off by the difference between file 0's own second
   * and third part.
   */
  lemma RightButMixed(l: Limits, streams: seq<seq<byte>>) returns (t: Group)
    requires Streams(l, streams) && |streams| >= 2 && l.size == 3 * l.cap
    ensures SameLength(streams) && Path(l, streams, Initial(|streams|), t)
    ensures t.phase == Returned(Right) && t.faults == []
    ensures t.outFile == MixedOutput(XorAll(streams), streams[0], l.cap)
  {
    var cap := l.cap;
    var at, done := OneLate(streams, cap), OneLateDone(streams, cap);
    ReachOneLate(l, streams);
    var s, left := FirstDrain(l, streams, at, false);
    AllReachOneLateDone(l, streams, left);
    MixedBytes(l, streams);
    t := RefillAndEnd(l, streams, s, Released(at, left), done, true);
    PathThen(l, streams, Initial(|streams|), s, t);
    MixedTotals(l, streams);
  }

  // ----- No way on -----

  function OneLateStuck(streams: seq<seq<byte>>, cap: nat, left: seq<seq<byte>>): seq<Producer>
    requires |left| == |streams| && forall i :: 0 <= i < |streams| ==> cap < |streams[i]|
  {
    seq(|streams|, i requires 0 <= i < |streams| =>
      if i == 0 then Complete(streams[i], cap, 0, Slot(Empty, []), [Chunk(0, streams[i][..cap])])
      else Complete(streams[i], cap, 1, Slot(Empty, left[i]), [Chunk(0, streams[i][..cap])]))
  }

  lemma AllReachStuck(l: Limits, streams: seq<seq<byte>>, left: seq<seq<byte>>)
    requires Streams(l, streams) && l.size == 2 * l.cap && |left| == |streams|
    requires forall i :: 0 <= i < |left| ==> |left[i]| == l.cap
    ensures var at, done := Released(OneLate(streams, l.cap), left), OneLateStuck(streams, l.cap, left);
            && Reaches(l, streams[0], at[0], done[0], 1, 0)
            && forall i :: 1 <= i < |streams| ==> Reaches(l, streams[i], at[i], done[i], 0, 1)
  {
    var at, done := Released(OneLate(streams, l.cap), left), OneLateStuck(streams, l.cap, left);
    SecondAfterLatePoll(l, streams[0], left[0]);
    forall i | 1 <= i < |streams| ensures Reaches(l, streams[i], at[i], done[i], 0, 1) {
      SecondInTurn(l, streams[i], left[i]);
    }
  }

  lemma AllButFirst(at: seq<Producer>, done: seq<Producer>)
    requires |at| == |done| > 0 && at[0] == done[0]
    ensures at[..1] + done[1..|at|] + at[|at|..] == done
  {
  }

  /** File 0 runs to its end, then the others run to theirs. */
  lemma RunToStuck(l: Limits, streams: seq<seq<byte>>, s: Group, left: seq<seq<byte>>) returns (t: Group)
    requires Streams(l, streams) && |streams| >= 2 && l.size == 2 * l.cap && |left| == |streams|
    requires forall i :: 0 <= i < |left| ==> |left[i]| == l.cap
    requires s.files == Released(OneLate(streams, l.cap), left) && s.full0 == s.full1 == 0
    ensures Path(l, streams, s, t) && t.files == OneLateStuck(streams, l.cap, left)
    ensures t == s.(files := t.files, full0 := 1, full1 := |streams| - 1)
  {
    var done, n := OneLateStuck(streams, l.cap, left), |streams|;
    AllReachStuck(l, streams, left);
    var u := Advanced(s, 0, done[0], 1, 0);
    Lift(l, streams, s, 0, done[0], 1, 0);
    forall i | 1 <= i < n ensures Reaches(l, streams[i], u.files[i], done[i], Bit(false), Bit(true)) {
      assert u.files[i] == s.files[i];
    }
    LiftAll(l, streams, u, done, 1, n, false, true);
    t := AllAdvanced(u, done, 1, n, false, true);
    AllButFirst(u.files, done);
    PathThen(l, streams, s, u, t);
  }

  lemma WalksAreSound(l: Limits, streams: seq<seq<byte>>, s: Group, t: Group)
    requires Invariant(l, s) && Delivered(l, streams, s) && Path(l, streams, s, t)
    ensures Invariant(l, t) && Delivered(l, streams, t)
  {
    var acts :| Walk(l, streams, s, acts, t);
    PipelineSafety.RunKeeps(l, s, acts);
    Guarantees.RunDelivers(l, streams, s, acts);
  }

  lemma InSlotOfTwo(a: Chunk, b: Chunk, k: Index)
    ensures |InSlot([a, b], k)| == (if a.slot == k then 1 else 0) + if b.slot == k then 1 else 0
  {
    assert [a, b][..1] == [a] && [a][..0] == [];
    assert |InSlot([a], k)| == if a.slot == k then 1 else 0;
  }

  /** File 0 sealed nothing into slot 1, the others did. */
  lemma StuckDiffers(l: Limits, streams: seq<seq<byte>>, left: seq<seq<byte>>, t: Group)
    requires Streams(l, streams) && |streams| >= 2 && l.size == 2 * l.cap && |left| == |streams|
    requires t.files == OneLateStuck(streams, l.cap, left)
    ensures !SameSlots(t)
  {
    var a, b, cap := streams[0], streams[1], l.cap;
    assert t.files[0].sealed == [Chunk(0, a[..cap]), Chunk(0, a[cap..])];
    assert t.files[1].sealed == [Chunk(0, b[..cap]), Chunk(1, b[cap..])];
    InSlotOfTwo(Chunk(0, a[..cap]), Chunk(0, a[cap..]), 1);
    InSlotOfTwo(Chunk(0, b[..cap]), Chunk(1, b[cap..]), 1);
  }

  lemma StuckIsComplete(l: Limits, streams: seq<seq<byte>>, left: seq<seq<byte>>, t: Group)
    requires Streams(l, streams) && l.size == 2 * l.cap && |left| == |streams|
    requires t.files == OneLateStuck(streams, l.cap, left) && Path(l, streams, Initial(|streams|), t)
    ensures AllComplete(l, streams, t)
  {
    Progress.InitialReached(l, streams);
    WalksAreSound(l, streams, Initial(|streams|), t);
  }

  /**
   * For any two or more streams of two slots each there is a run, as undisturbed as before, after which
   * every file is complete and the consumer polls for ever: file 0 polled late, once, so its second
   * generation waits in slot 0 and all others wait in slot 1. It is an instance of `Ending.ReturnsIff`.
   */
  lemma NeverReturns(l: Limits, streams: seq<seq<byte>>) returns (t: Group)
    requires Streams(l, streams) && |streams| >= 2 && l.size == 2 * l.cap
    ensures Path(l, streams, Initial(|streams|), t)
    ensures AllComplete(l, streams, t) && !WillReturn(t)
    ensures forall acts :: Undisturbed(l, streams, t, acts) ==> !After(l, t, acts).phase.Returned?
  {
    ReachOneLate(l, streams);
    var s, left := FirstDrain(l, streams, OneLate(streams, l.cap), false);
    t := RunToStuck(l, streams, s, left);
    PathThen(l, streams, Initial(|streams|), s, t);
    StuckIsComplete(l, streams, left, t);
    StuckDiffers(l, streams, left, t);
    ReturnsIff(l, streams, t);
  }
}
