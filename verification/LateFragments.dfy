/**
 * Empty fragments after the end of a file. A message without payload reaches `write_buf` even when its
 * file is complete, and then seals a slot with nothing in it: the file is cut into ceil(size/cap) chunks
 * exactly if that never happens.
 */
module LateFragments {
  import opened Bytes
  import opened Slots
  import opened Pipeline
  import PipelineSafety
  import opened Delivery

  /** The peer sends no more than the file; empty fragments may come at any time. */
  predicate MoveSpells(stream: seq<byte>, p: Producer, m: Move) {
    m.Feed? ==> p.fed + m.bytes <= stream
  }

  /** An (empty) fragment for a file that is already complete. */
  predicate IsLate(l: Limits, p: Producer, m: Move) {
    m.Feed? && |p.fed| >= l.size
  }

  /** The call for a late fragment is still to seal its empty chunk. */
  ghost predicate LateCall(p: Producer) {
    && p.fragment == [] && !p.split
    && (p.pc.Loop? || p.pc.Reopening? || (p.pc.Sealing? && p.pc.last && p.OpenSlot() == p.pc.slot))
    && p.OpenBytes() == []
  }

  /** ... has sealed it. */
  ghost predicate LateDone(p: Producer) {
    !p.HasOpen() && (p.pc.Idle? || (p.pc.Counting? && p.pc.last))
  }

  /** The file's own generations, then one empty chunk for each late fragment, of which there were `n`. */
  ghost predicate Late(l: Limits, stream: seq<byte>, p: Producer, n: nat) {
    && |stream| == l.size && l.cap > 0
    && p.fed == stream && p.fileIndex == l.size && (LateCall(p) || LateDone(p))
    && |p.sealed| == Generations(l) + n - (if LateCall(p) then 1 else 0)
    && (forall g :: 0 <= g < Generations(l) ==>
          g < |p.sealed| && g * l.cap < l.size && p.sealed[g].bytes == Generation(stream, l.cap, g))
    && (forall g :: Generations(l) <= g < |p.sealed| ==> p.sealed[g].bytes == [])
  }

  /** `n` late fragments so far. */
  ghost predicate Tracked(l: Limits, stream: seq<byte>, p: Producer, n: nat) {
    |stream| == l.size && if n == 0 then FullChunks(l, stream, p) else Late(l, stream, p, n)
  }

  lemma FirstLate(l: Limits, stream: seq<byte>, p: Producer, m: Move)
    requires l.cap > 0 && l.size > 0 && Sound(l, p) && FullChunks(l, stream, p)
    requires CanMove(l, p, m) && MoveSpells(stream, p, m) && IsLate(l, p, m)
    ensures Late(l, stream, Moved(l, p, m), 1)
  {
    assert p.fed == stream && m.bytes == [];
    FinishedCount(l, stream, p);
    SealedGenerations(l, stream, p);
  }

  lemma AnotherLate(l: Limits, stream: seq<byte>, p: Producer, n: nat, m: Move)
    requires Late(l, stream, p, n) && |stream| == l.size && CanMove(l, p, m) && Bounded(l, p) && MoveSpells(stream, p, m) && m.Feed?
    ensures Late(l, stream, Moved(l, p, m), n + 1)
  {
    assert m.bytes == [] && p.fed + [] == p.fed;
  }

  /** Sealing the empty slot. */
  lemma LateSeal(l: Limits, stream: seq<byte>, p: Producer, n: nat)
    requires Sound(l, p) && Late(l, stream, p, n) && p.pc.Sealing?
    ensures Late(l, stream, Moved(l, p, Seal), n)
  {
    var q := Moved(l, p, Seal);
    assert p.Get(p.pc.slot).bytes == [] && q.sealed[..|p.sealed|] == p.sealed;
  }

  /** Outside `Seal`, the call stays in progress or stays done. */
  lemma LateCallMoves(l: Limits, p: Producer, m: Move)
    requires Sound(l, p) && CanMove(l, p, m) && !m.Feed? && !m.Seal? && p.fileIndex >= l.size && (LateCall(p) || LateDone(p))
    ensures LateCall(p) <==> LateCall(Moved(l, p, m))
    ensures LateDone(p) ==> LateDone(Moved(l, p, m))
    ensures Moved(l, p, m).sealed == p.sealed && Moved(l, p, m).fed == p.fed && Moved(l, p, m).fileIndex == p.fileIndex
  {
  }

  lemma LateMove(l: Limits, stream: seq<byte>, p: Producer, n: nat, m: Move)
    requires Sound(l, p) && Late(l, stream, p, n) && CanMove(l, p, m) && !m.Feed?
    ensures Late(l, stream, Moved(l, p, m), n)
  {
    if m.Seal? { LateSeal(l, stream, p, n); } else { LateCallMoves(l, p, m); }
  }

  lemma MoveTracked(l: Limits, stream: seq<byte>, p: Producer, n: nat, m: Move)
    requires l.cap > 0 && l.size > 0 && Sound(l, p) && Tracked(l, stream, p, n)
    requires CanMove(l, p, m) && MoveSpells(stream, p, m)
    ensures Tracked(l, stream, Moved(l, p, m), n + if IsLate(l, p, m) then 1 else 0)
  {
    if n > 0 {
      if m.Feed? { AnotherLate(l, stream, p, n, m); } else { LateMove(l, stream, p, n, m); }
    } else if IsLate(l, p, m) {
      FirstLate(l, stream, p, m);
    } else {
      MoveKeepsFullChunks(l, stream, p, m);
    }
  }

  /** The consumer's work on a settled slot does not show. */
  lemma RewriteTracked(l: Limits, stream: seq<byte>, p: Producer, n: nat, k: Index, slot: Slot)
    requires Sound(l, p) && Tracked(l, stream, p, n) && p.Settled(k) && !slot.flag.Writable?
    ensures Tracked(l, stream, p.Put(k, slot), n)
  {
    if n == 0 {
      RewriteKeepsFullChunks(l, stream, p, k, slot);
    } else {
      var q := p.Put(k, slot);
      assert q.HasOpen() == p.HasOpen() && q.OpenBytes() == p.OpenBytes() && q.OpenSlot() == p.OpenSlot();
    }
  }

  lemma ConsumerTracked(l: Limits, stream: seq<byte>, s: Group, accepted: nat, i: nat, n: nat)
    requires ProducersSound(l, s) && HeldSettled(s) && !s.phase.Returned? && i < |s.files|
    requires Tracked(l, stream, s.files[i], n)
    ensures Tracked(l, stream, Consumed(l, s, accepted).files[i], n)
  {
    var p, q := s.files[i], Consumed(l, s, accepted).files[i];
    if q != p {
      var k := s.phase.slot;
      assert s.Holds(i, k);
      RewriteTracked(l, stream, p, n, k, q.Get(k));
      assert q == p.Put(k, q.Get(k));
    }
  }

  // ----- Whole runs -----

  ghost predicate SpellsRun(l: Limits, streams: seq<seq<byte>>, s: Group, acts: seq<Action>)
    requires Runs(l, s, acts)
    decreases |acts|
  {
    acts != [] ==>
      var a := acts[0];
      && (a.FileMoves? ==> a.file < |streams| && MoveSpells(streams[a.file], s.files[a.file], a.move))
      && SpellsRun(l, streams, Next(l, s, a), acts[1..])
  }

  function LateHere(l: Limits, s: Group, a: Action, i: nat): nat {
    if a.FileMoves? && a.file == i && i < |s.files| && IsLate(l, s.files[i], a.move) then 1 else 0
  }

  /** How many late fragments file `i` gets. */
  ghost function LateFeeds(l: Limits, s: Group, acts: seq<Action>, i: nat): nat
    requires Runs(l, s, acts)
    decreases |acts|
  {
    if acts == [] then 0 else LateHere(l, s, acts[0], i) + LateFeeds(l, Next(l, s, acts[0]), acts[1..], i)
  }

  lemma StepTracked(l: Limits, stream: seq<byte>, s: Group, a: Action, i: nat, n: nat)
    requires l.cap > 0 && l.size > 0 && ProducersSound(l, s) && HeldSettled(s) && i < |s.files| && Enabled(l, s, a)
    requires a.FileMoves? && a.file == i ==> MoveSpells(stream, s.files[i], a.move)
    requires Tracked(l, stream, s.files[i], n)
    ensures |Next(l, s, a).files| == |s.files|
    ensures Tracked(l, stream, Next(l, s, a).files[i], n + LateHere(l, s, a, i))
  {
    if a.Consumer? {
      ConsumerTracked(l, stream, s, a.accepted, i, n);
    } else {
      PipelineSafety.FileAfter(l, s, a, i);
      if a.FileMoves? && a.file == i { MoveTracked(l, stream, s.files[i], n, a.move); }
    }
  }

  lemma {:induction false} RunTracked(l: Limits, streams: seq<seq<byte>>, s: Group, acts: seq<Action>, i: nat, n: nat)
    requires Streams(l, streams) && Invariant(l, s) && |s.files| == |streams| && i < |streams|
    requires Runs(l, s, acts) && SpellsRun(l, streams, s, acts) && Tracked(l, streams[i], s.files[i], n)
    ensures |After(l, s, acts).files| == |streams|
    ensures Tracked(l, streams[i], After(l, s, acts).files[i], n + LateFeeds(l, s, acts, i))
    decreases |acts|
  {
    if acts != [] {
      StepTracked(l, streams[i], s, acts[0], i, n);
      PipelineSafety.StepKeeps(l, s, acts[0]);
      RunTracked(l, streams, Next(l, s, acts[0]), acts[1..], i, n + LateHere(l, s, acts[0], i));
    }
  }

  /** `count` chunks: the generations of the stream, then empty ones. */
  ghost predicate Pieces(l: Limits, stream: seq<byte>, sealed: seq<Chunk>)
    requires l.cap > 0
  {
    && (forall g :: 0 <= g < |sealed| && g < Generations(l) ==>
          g * l.cap < |stream| && sealed[g].bytes == Generation(stream, l.cap, g))
    && (forall g :: Generations(l) <= g < |sealed| ==> sealed[g].bytes == [])
  }

  lemma PiecesOf(l: Limits, stream: seq<byte>, p: Producer, n: nat)
    requires l.cap > 0 && l.size > 0 && Sound(l, p) && Tracked(l, stream, p, n) && p.pc.Idle? && p.fed == stream
    ensures |p.sealed| == Generations(l) + n && Pieces(l, stream, p.sealed)
  {
    if n == 0 {
      FinishedCount(l, stream, p);
      SealedGenerations(l, stream, p);
    }
  }

  /**
   * Whatever the fragments, empty ones included, and whatever the interleaving: between calls, a complete
   * file has sealed its generations and then one empty chunk per late fragment. So it was sealed in
   * exactly ceil(size/cap) chunks if and only if there was no late fragment.
   */
  lemma ExactPieces(l: Limits, streams: seq<seq<byte>>, acts: seq<Action>, i: nat)
    requires Streams(l, streams) && i < |streams|
    requires Runs(l, Initial(|streams|), acts) && SpellsRun(l, streams, Initial(|streams|), acts)
    requires i < |After(l, Initial(|streams|), acts).files|
    requires var p := After(l, Initial(|streams|), acts).files[i]; p.pc.Idle? && p.fed == streams[i]
    ensures var sealed, late := After(l, Initial(|streams|), acts).files[i].sealed, LateFeeds(l, Initial(|streams|), acts, i);
            && Pieces(l, streams[i], sealed) && |sealed| == Generations(l) + late
            && (|sealed| == Generations(l) <==> late == 0)
  {
    var s0 := Initial(|streams|);
    PipelineSafety.InitialInvariant(l, |streams|);
    assert s0.files[i] == FRESH && FullChunks(l, streams[i], FRESH);
    RunTracked(l, streams, s0, acts, i, 0);
    PipelineSafety.RunKeeps(l, s0, acts);
    assert Sound(l, After(l, s0, acts).files[i]);
    PiecesOf(l, streams[i], After(l, s0, acts).files[i], LateFeeds(l, s0, acts, i));
  }
}
