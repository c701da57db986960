/**
 * Runs of the whole group, put together from runs of single threads and drains of the consumer. Peers
 * deliver byte by byte and none fails.
 */
module GroupRuns {
  import opened Bytes
  import opened Slots
  import opened BufXor
  import opened Pipeline
  import Delivery
  import Guarantees
  import opened ThreadRuns

  // ----- Runs of the group -----

  predicate OneByte(a: Action) {
    a.FileMoves? && a.move.Feed? ==> |a.move.bytes| == 1
  }

  /** A run in which peers deliver `streams` byte by byte and nothing fails. */
  ghost predicate Walk(l: Limits, streams: seq<seq<byte>>, s: Group, acts: seq<Action>, t: Group) {
    && Runs(l, s, acts) && Guarantees.DeliversRun(l, streams, s, acts) && After(l, s, acts) == t
    && Guarantees.NothingFails(acts) && forall a :: a in acts ==> OneByte(a)
  }

  ghost predicate Path(l: Limits, streams: seq<seq<byte>>, s: Group, t: Group) {
    exists acts :: Walk(l, streams, s, acts, t)
  }

  lemma {:induction false} WalkThen(l: Limits, streams: seq<seq<byte>>, s: Group, a: seq<Action>, t: Group, b: seq<Action>, u: Group)
    requires Walk(l, streams, s, a, t) && Walk(l, streams, t, b, u)
    ensures Walk(l, streams, s, a + b, u)
    decreases |a|
  {
    if a == [] {
      assert a + b == b;
    } else {
      WalkThen(l, streams, Next(l, s, a[0]), a[1..], t, b, u);
      assert (a + b)[1..] == a[1..] + b;
    }
  }

  lemma PathThen(l: Limits, streams: seq<seq<byte>>, s: Group, t: Group, u: Group)
    requires Path(l, streams, s, t) && Path(l, streams, t, u)
    ensures Path(l, streams, s, u)
  {
    var a :| Walk(l, streams, s, a, t);
    var b :| Walk(l, streams, t, b, u);
    WalkThen(l, streams, s, a, t, b, u);
  }

  lemma PathHere(l: Limits, streams: seq<seq<byte>>, s: Group)
    ensures Path(l, streams, s, s)
  {
    assert Walk(l, streams, s, [], s);
  }

  lemma PathStep(l: Limits, streams: seq<seq<byte>>, s: Group, a: Action)
    requires Enabled(l, s, a) && Delivery.Delivers(l, streams, s, a) && OneByte(a) && !a.PeerFails?
    ensures Path(l, streams, s, Next(l, s, a))
  {
    var t := Next(l, s, a);
    assert [a][1..] == [];
    assert Walk(l, streams, t, [], t);
    assert Walk(l, streams, s, [a], t);
  }

  // ----- Threads -----

  /** File `i` is at `q`, and the counters have grown. */
  function Advanced(s: Group, i: nat, q: Producer, c0: nat, c1: nat): Group
    requires i < |s.files|
  {
    s.(files := s.files[i := q], full0 := s.full0 + c0, full1 := s.full1 + c1)
  }

  lemma AdvancedTwice(s: Group, i: nat, p: Producer, a0: nat, a1: nat, q: Producer, b0: nat, b1: nat)
    requires i < |s.files|
    ensures Advanced(Advanced(s, i, p, a0, a1), i, q, b0, b1) == Advanced(s, i, q, a0 + b0, a1 + b1)
  {
    assert s.files[i := p][i := q] == s.files[i := q];
  }

  lemma OneMove(l: Limits, streams: seq<seq<byte>>, s: Group, i: nat, m: Move)
    requires i < |s.files| && i < |streams|
    requires CanMove(l, s.files[i], m) && Bounded(l, s.files[i]) && Arrives(l, streams[i], s.files[i], m)
    ensures Path(l, streams, s, Advanced(s, i, Moved(l, s.files[i], m), CountsHere(s.files[i], m, 0), CountsHere(s.files[i], m, 1)))
  {
    PathStep(l, streams, s, FileMoves(i, m));
    assert Next(l, s, FileMoves(i, m)) ==
           Advanced(s, i, Moved(l, s.files[i], m), CountsHere(s.files[i], m, 0), CountsHere(s.files[i], m, 1));
  }

  /** A thread's run happens in the group, everybody else standing still. */
  lemma {:induction false} LiftMoves(l: Limits, streams: seq<seq<byte>>, s: Group, i: nat, moves: seq<Move>, q: Producer, c0: nat, c1: nat)
    requires i < |s.files| && i < |streams| && Leads(l, streams[i], s.files[i], moves, q, c0, c1)
    ensures Path(l, streams, s, Advanced(s, i, q, c0, c1))
    decreases |moves|
  {
    if moves == [] {
      assert s.files[i := s.files[i]] == s.files;
      PathHere(l, streams, s);
    } else {
      var p, m := s.files[i], moves[0];
      var next, a0, a1 := Moved(l, p, m), CountsHere(p, m, 0), CountsHere(p, m, 1);
      var t := Advanced(s, i, next, a0, a1);
      OneMove(l, streams, s, i, m);
      assert Leads(l, streams[i], next, moves[1..], q, c0 - a0, c1 - a1);
      LiftMoves(l, streams, t, i, moves[1..], q, c0 - a0, c1 - a1);
      AdvancedTwice(s, i, next, a0, a1, q, c0 - a0, c1 - a1);
      PathThen(l, streams, s, t, Advanced(s, i, q, c0, c1));
    }
  }

  lemma Lift(l: Limits, streams: seq<seq<byte>>, s: Group, i: nat, q: Producer, c0: nat, c1: nat)
    requires i < |s.files| && i < |streams| && Reaches(l, streams[i], s.files[i], q, c0, c1)
    ensures Path(l, streams, s, Advanced(s, i, q, c0, c1))
  {
    var moves :| Leads(l, streams[i], s.files[i], moves, q, c0, c1);
    LiftMoves(l, streams, s, i, moves, q, c0, c1);
  }

  function CountIf(b: bool, n: nat): nat {
    if b then n else 0
  }

  function Bit(b: bool): nat {
    CountIf(b, 1)
  }

  /** Files `lo` to `hi` are where `to` says, each having counted slot 0 if `b0` and slot 1 if `b1`. */
  function AllAdvanced(s: Group, to: seq<Producer>, lo: nat, hi: nat, b0: bool, b1: bool): Group
    requires lo <= hi <= |s.files| == |to|
  {
    s.(files := s.files[..lo] + to[lo..hi] + s.files[hi..],
       full0 := s.full0 + CountIf(b0, hi - lo), full1 := s.full1 + CountIf(b1, hi - lo))
  }

  lemma OneMoreAdvanced(s: Group, to: seq<Producer>, lo: nat, hi: nat, b0: bool, b1: bool)
    requires lo < hi <= |s.files| == |to|
    ensures AllAdvanced(s, to, lo, hi - 1, b0, b1).files[hi - 1] == s.files[hi - 1]
    ensures Advanced(AllAdvanced(s, to, lo, hi - 1, b0, b1), hi - 1, to[hi - 1], Bit(b0), Bit(b1)) ==
            AllAdvanced(s, to, lo, hi, b0, b1)
  {
    var before := s.files[..lo] + to[lo..hi - 1] + s.files[hi - 1..];
    assert before[hi - 1 := to[hi - 1]] == s.files[..lo] + to[lo..hi] + s.files[hi..];
  }

  /** One thread after the other. */
  lemma {:induction false} LiftAll(l: Limits, streams: seq<seq<byte>>, s: Group, to: seq<Producer>, lo: nat, hi: nat, b0: bool, b1: bool)
    requires lo <= hi <= |s.files| == |to| == |streams|
    requires forall i :: lo <= i < hi ==> Reaches(l, streams[i], s.files[i], to[i], Bit(b0), Bit(b1))
    ensures Path(l, streams, s, AllAdvanced(s, to, lo, hi, b0, b1))
    decreases hi - lo
  {
    if lo == hi {
      assert s.files[..lo] + to[lo..lo] + s.files[lo..] == s.files;
      PathHere(l, streams, s);
    } else {
      var t := AllAdvanced(s, to, lo, hi - 1, b0, b1);
      LiftAll(l, streams, s, to, lo, hi - 1, b0, b1);
      OneMoreAdvanced(s, to, lo, hi, b0, b1);
      Lift(l, streams, t, hi - 1, to[hi - 1], Bit(b0), Bit(b1));
      PathThen(l, streams, s, t, AllAdvanced(s, to, lo, hi, b0, b1));
    }
  }

  // ----- The consumer -----

  /** File `i` after slot `k` was XORed and given back; `first` is what the XOR left in file 0. */
  function GivenBack(p: Producer, i: nat, k: Index, first: seq<byte>): Producer {
    p.Put(k, Slot(Empty, if i == 0 then first else p.Get(k).bytes))
  }

  function AllGivenBack(files: seq<Producer>, k: Index, first: seq<byte>): (r: seq<Producer>)
    ensures |r| == |files|
  {
    seq(|files|, i requires 0 <= i < |files| => GivenBack(files[i], i, k, first))
  }

  ghost predicate ReadyToDrain(s: Group, k: Index) {
    s.files != [] && s.Full(k) == |s.files| && SameLength(s.Buffers(k)) && !s.failed
  }

  /** The file takes all whole words of `total`, and perhaps not all of the bytes after them. */
  predicate Takes(total: seq<byte>, out: seq<byte>) {
    out <= total && |out| >= |total| / 4 * 4
  }

  /** After the XOR call, which got `out` into the file. */
  ghost function AfterXor(l: Limits, s: Group, k: Index, out: seq<byte>): Group
    requires ReadyToDrain(s, k)
  {
    var total := XorAll(s.Buffers(k));
    s.(files := s.files[0 := Overwritten(s.files[0], k, total)],
       outFile := s.outFile + out, xorSize := s.xorSize + |total|,
       xorFlag := s.xorFlag || s.xorSize + |total| == l.size,
       drains := s.drains + [Drain(k, s.Buffers(k), out)], phase := Resetting(k))
  }

  /** The group after slot `k` was drained, at the loop test. */
  ghost function DrainedTo(l: Limits, s: Group, k: Index, out: seq<byte>): Group
    requires ReadyToDrain(s, k)
  {
    AfterXor(l, s, k, out).WithFull(k, 0).(files := AllGivenBack(s.files, k, XorAll(s.Buffers(k))), phase := LoopTest)
  }

  /** ... all of the XOR having been written. */
  ghost function Drained(l: Limits, s: Group, k: Index): Group
    requires ReadyToDrain(s, k)
  {
    DrainedTo(l, s, k, XorAll(s.Buffers(k)))
  }

  lemma XorCall(l: Limits, s: Group, k: Index, out: seq<byte>)
    requires s.phase == Xoring(k) && ReadyToDrain(s, k) && Takes(XorAll(s.Buffers(k)), out)
    ensures Next(l, s, Consumer(|out|)) == AfterXor(l, s, k, out)
  {
    var total := XorAll(s.Buffers(k));
    assert SizesMatch(s.Buffers(k)) && out == total[..|out|];
    assert XorOutcome(s.Buffers(k), |out|) == Outcome(true, total, out);
    assert s.faults + [] == s.faults;
  }

  lemma TestAndXor(l: Limits, streams: seq<seq<byte>>, s: Group, k: Index, out: seq<byte>)
    requires s.phase == Testing(k) && ReadyToDrain(s, k) && Takes(XorAll(s.Buffers(k)), out)
    ensures Path(l, streams, s, AfterXor(l, s, k, out))
  {
    var s1 := s.(phase := Xoring(k));
    assert s1.Buffers(k) == s.Buffers(k);
    XorCall(l, s1, k, out);
    PathStep(l, streams, s, Consumer(0));
    PathStep(l, streams, s1, Consumer(|out|));
    PathThen(l, streams, s, s1, AfterXor(l, s, k, out));
  }

  lemma ClearOne(l: Limits, streams: seq<seq<byte>>, s: Group, k: Index, j: nat)
    requires s.phase == Clearing(k, j) && j < |s.files|
    ensures Path(l, streams, s, s.(files := s.files[j := Cleared(s.files[j], k)],
                                   phase := if j + 1 < |s.files| then Clearing(k, j + 1) else LoopTest))
  {
    PathStep(l, streams, s, Consumer(0));
  }

  lemma OneMoreCleared(files: seq<Producer>, k: Index, j: nat)
    requires j < |files|
    ensures var next := files[j := Cleared(files[j], k)];
            next[..j + 1] + AllCleared(next, k)[j + 1..] == files[..j] + AllCleared(files, k)[j..]
  {
  }

  /** The flags from `j` on, one by one. */
  lemma {:induction false} ClearPath(l: Limits, streams: seq<seq<byte>>, s: Group, k: Index, j: nat)
    requires s.phase == Clearing(k, j) && j < |s.files|
    ensures Path(l, streams, s, s.(files := s.files[..j] + AllCleared(s.files, k)[j..], phase := LoopTest))
    decreases |s.files| - j
  {
    var t := s.(files := s.files[j := Cleared(s.files[j], k)],
                phase := if j + 1 < |s.files| then Clearing(k, j + 1) else LoopTest);
    ClearOne(l, streams, s, k, j);
    OneMoreCleared(s.files, k, j);
    if j + 1 < |s.files| {
      ClearPath(l, streams, t, k, j + 1);
      PathThen(l, streams, s, t, s.(files := s.files[..j] + AllCleared(s.files, k)[j..], phase := LoopTest));
    } else {
      assert t.files == t.files[..j + 1] + AllCleared(t.files, k)[j + 1..];
    }
  }

  function AllCleared(files: seq<Producer>, k: Index): (r: seq<Producer>)
    ensures |r| == |files|
  {
    seq(|files|, i requires 0 <= i < |files| => Cleared(files[i], k))
  }

  lemma ResetAndClear(l: Limits, streams: seq<seq<byte>>, s: Group, k: Index)
    requires s.phase == Resetting(k) && s.files != []
    ensures Path(l, streams, s, s.WithFull(k, 0).(files := AllCleared(s.files, k), phase := LoopTest))
  {
    var t := s.WithFull(k, 0).(phase := Clearing(k, 0));
    PathStep(l, streams, s, Consumer(0));
    ClearPath(l, streams, t, k, 0);
    assert t.files[..0] + AllCleared(t.files, k)[0..] == AllCleared(s.files, k);
    PathThen(l, streams, s, t, t.(files := AllCleared(s.files, k), phase := LoopTest));
  }

  /** Test, XOR, reset, clear. */
  lemma DrainPath(l: Limits, streams: seq<seq<byte>>, s: Group, k: Index, out: seq<byte>)
    requires s.phase == Testing(k) && ReadyToDrain(s, k) && Takes(XorAll(s.Buffers(k)), out)
    ensures Path(l, streams, s, DrainedTo(l, s, k, out))
  {
    var t := AfterXor(l, s, k, out);
    TestAndXor(l, streams, s, k, out);
    ResetAndClear(l, streams, t, k);
    assert AllCleared(t.files, k) == AllGivenBack(s.files, k, XorAll(s.Buffers(k)));
    PathThen(l, streams, s, t, DrainedTo(l, s, k, out));
  }

  /** The loop goes round. */
  lemma DrainAndLoop(l: Limits, streams: seq<seq<byte>>, s: Group, k: Index)
    requires s.phase == Testing(k) && ReadyToDrain(s, k) && !s.xorFlag && s.xorSize + |s.Buffers(k)[0]| != l.size
    ensures Path(l, streams, s, Drained(l, s, k).(phase := Testing(0)))
  {
    var t := Drained(l, s, k);
    DrainPath(l, streams, s, k, XorAll(s.Buffers(k)));
    PathStep(l, streams, t, Consumer(0));
    PathThen(l, streams, s, t, t.(phase := Testing(0)));
  }

  /** The last drain: the loop ends, and the verdict is RIGHT. */
  lemma DrainAndEnd(l: Limits, streams: seq<seq<byte>>, s: Group, k: Index, out: seq<byte>)
    requires s.phase == Testing(k) && ReadyToDrain(s, k) && Takes(XorAll(s.Buffers(k)), out)
    requires s.xorSize + |s.Buffers(k)[0]| == l.size
    ensures Path(l, streams, s, DrainedTo(l, s, k, out).(phase := Returned(Right)))
  {
    var t := DrainedTo(l, s, k, out);
    DrainPath(l, streams, s, k, out);
    PathStep(l, streams, t, Consumer(0));
    PathThen(l, streams, s, t, t.(phase := Deciding));
    PathStep(l, streams, t.(phase := Deciding), Consumer(0));
    PathThen(l, streams, s, t.(phase := Deciding), t.(phase := Returned(Right)));
  }

  /** Both slots are full everywhere, and hold all that is missing: slot 0 goes first. */
  lemma DrainBoth(l: Limits, streams: seq<seq<byte>>, s: Group) returns (t: Group)
    requires s.phase == Testing(0) && ReadyToDrain(s, 0) && ReadyToDrain(s, 1) && !s.xorFlag
    requires |s.Buffers(0)[0]| > 0 && |s.Buffers(1)[0]| > 0
    requires s.xorSize + |s.Buffers(0)[0]| + |s.Buffers(1)[0]| == l.size
    ensures Path(l, streams, s, t) && t.phase == Returned(Right) && t.faults == s.faults
    ensures t.outFile == s.outFile + XorAll(s.Buffers(0)) + XorAll(s.Buffers(1))
    ensures t.drains == s.drains + [Drain(0, s.Buffers(0), XorAll(s.Buffers(0))), Drain(1, s.Buffers(1), XorAll(s.Buffers(1)))]
  {
    var s1 := Drained(l, s, 0).(phase := Testing(0));
    var s2 := s1.(phase := Testing(1));
    DrainAndLoop(l, streams, s, 0);
    PathStep(l, streams, s1, Consumer(0));
    PathThen(l, streams, s, s1, s2);
    assert s2.Buffers(1) == s.Buffers(1);
    DrainAndEnd(l, streams, s2, 1, XorAll(s2.Buffers(1)));
    t := Drained(l, s2, 1).(phase := Returned(Right));
    PathThen(l, streams, s, s2, t);
  }
}
