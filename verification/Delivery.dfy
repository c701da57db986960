/** How a stream is cut into slot contents, and what the output file then holds. */
module Delivery {
  import Arithmetic
  import opened Bytes
  import opened Slots
  import BufXor
  import opened Pipeline
  import PipelineSafety
  import opened Ordering

  /** Bytes g*cap up to min((g+1)*cap, length) of a stream. */
  function Generation(stream: seq<byte>, cap: nat, g: nat): seq<byte>
    requires g * cap <= |stream|
  {
    stream[g * cap..Arithmetic.Min(g * cap + cap, |stream|)]
  }

  /** ceil(size / cap) */
  function Generations(l: Limits): nat
    requires l.cap > 0
  {
    (l.size + l.cap - 1) / l.cap
  }

  // ----- One file -----

  /** The peer sends no more than the file, and nothing at all once the file is complete. */
  predicate MoveDelivers(l: Limits, stream: seq<byte>, p: Producer, m: Move) {
    m.Feed? ==> |p.fed| < l.size && p.fed + m.bytes <= stream
  }

  ghost predicate InCall(p: Producer) {
    p.pc.Loop? || p.pc.Reopening? || ((p.pc.Sealing? || p.pc.Counting?) && !p.pc.last)
  }

  ghost predicate Finished(l: Limits, p: Producer) {
    p.fileIndex == l.size && (p.pc.Idle? || (p.pc.Counting? && p.pc.last))
  }

  /** Every sealed chunk is full, except possibly the one that ends the file. */
  ghost predicate FullChunks(l: Limits, stream: seq<byte>, p: Producer) {
    && |stream| == l.size && p.fed <= stream
    && (InCall(p) ==> p.fileIndex < l.size)
    && (p.pc.Idle? && p.fileIndex == l.size ==> !p.HasOpen())
    && (p.pc.Sealing? && p.pc.last ==> p.fileIndex == l.size && p.Get(p.pc.slot).bytes != [])
    && (p.pc.Counting? && p.pc.last ==> p.fileIndex == l.size)
    && (forall g :: 0 <= g < |p.sealed| ==> 0 < |p.sealed[g].bytes| <= l.cap)
    && (forall g :: 0 <= g < |p.sealed| && |p.sealed[g].bytes| != l.cap ==> g == |p.sealed| - 1 && Finished(l, p))
  }

  lemma MoveKeepsFullChunks(l: Limits, stream: seq<byte>, p: Producer, m: Move)
    requires l.cap > 0 && l.size > 0
    requires Sound(l, p) && FullChunks(l, stream, p) && CanMove(l, p, m) && MoveDelivers(l, stream, p, m)
    ensures FullChunks(l, stream, Moved(l, p, m))
  {
    match m
    case Fill => FillKeepsFullChunks(l, stream, p);
    case Seal => SealKeepsFullChunks(l, stream, p);
    case _ =>
  }

  lemma FillKeepsFullChunks(l: Limits, stream: seq<byte>, p: Producer)
    requires l.cap > 0 && l.size > 0
    requires Sound(l, p) && FullChunks(l, stream, p) && CanMove(l, p, Fill)
    ensures FullChunks(l, stream, Filled(l, p))
  {
    var q := Filled(l, p);
    assert q.sealed == p.sealed && q.fed == p.fed;
    if !q.split { assert |p.fragment| > 0 ==> |p.Rest()| > 0; }
  }

  lemma SealKeepsFullChunks(l: Limits, stream: seq<byte>, p: Producer)
    requires l.cap > 0 && l.size > 0
    requires Sound(l, p) && FullChunks(l, stream, p) && CanMove(l, p, Seal)
    ensures FullChunks(l, stream, Moved(l, p, Seal))
  {
    var q := Moved(l, p, Seal);
    assert q.sealed[..|p.sealed|] == p.sealed;
  }

  lemma {:induction false} FullLength(chunks: seq<Chunk>, cap: nat)
    requires forall g :: 0 <= g < |chunks| ==> |chunks[g].bytes| == cap
    ensures |Concat(Contents(chunks))| == |chunks| * cap
  {
    if chunks != [] {
      var n := |chunks| - 1;
      FullLength(chunks[..n], cap);
      assert chunks == chunks[..n] + [chunks[n]];
      ContentsAppend(chunks[..n], chunks[n]);
      assert |chunks| * cap == n * cap + cap;
    }
  }

  lemma {:induction false} ConcatPrefix(chunks: seq<Chunk>, n: nat)
    requires n <= |chunks|
    ensures Concat(Contents(chunks[..n])) <= Concat(Contents(chunks))
    decreases |chunks| - n
  {
    if n < |chunks| {
      assert chunks[..n + 1] == chunks[..n] + [chunks[n]];
      ContentsAppend(chunks[..n], chunks[n]);
      ConcatPrefix(chunks, n + 1);
    } else {
      assert chunks[..n] == chunks;
    }
  }

  /** Chunk `g` follows g full chunks, so it starts at byte g*cap of whatever the chunks spell out. */
  lemma ChunkPlace(chunks: seq<Chunk>, cap: nat, stream: seq<byte>, g: nat)
    requires g < |chunks| && Concat(Contents(chunks)) <= stream
    requires forall h :: 0 <= h < g ==> |chunks[h].bytes| == cap
    ensures g * cap + |chunks[g].bytes| <= |stream|
    ensures chunks[g].bytes == stream[g * cap..g * cap + |chunks[g].bytes|]
    ensures g == |chunks| - 1 ==> |Concat(Contents(chunks))| == g * cap + |chunks[g].bytes|
  {
    var before := chunks[..g];
    FullLength(before, cap);
    assert chunks[..g + 1] == before + [chunks[g]];
    ContentsAppend(before, chunks[g]);
    ConcatPrefix(chunks, g + 1);
    assert g == |chunks| - 1 ==> chunks[..g + 1] == chunks;
    var upTo := Concat(Contents(chunks[..g + 1]));
    assert upTo <= stream;
    assert upTo[g * cap..] == chunks[g].bytes;
  }

  /** What `write_buf` has sealed is the stream cut every `cap` bytes, however it was fragmented. */
  lemma SealedGenerations(l: Limits, stream: seq<byte>, p: Producer)
    requires l.cap > 0 && Sound(l, p) && FullChunks(l, stream, p)
    ensures forall g :: 0 <= g < |p.sealed| ==>
              g * l.cap < l.size && p.sealed[g].bytes == Generation(stream, l.cap, g)
  {
    var whole := Concat(Contents(p.sealed));
    assert p.fed == whole + (p.OpenBytes() + p.Carried());
    assert whole == p.fed[..|whole|];
    forall g | 0 <= g < |p.sealed|
      ensures g * l.cap < l.size && p.sealed[g].bytes == Generation(stream, l.cap, g)
    {
      ChunkPlace(p.sealed, l.cap, stream, g);
      if |p.sealed[g].bytes| != l.cap {
        assert p.OpenBytes() == [] && p.Carried() == [];
      }
    }
  }

  lemma CeilingUnique(l: Limits, n: nat, r: nat)
    requires l.cap > 0 && n > 0 && 0 < r <= l.cap && (n - 1) * l.cap + r == l.size
    ensures n == Generations(l)
  {
    var x := l.size + l.cap - 1;
    assert x == n * l.cap + (r - 1);
    Arithmetic.DivUnique(x, l.cap, n, r - 1);
  }

  /** A finished file has been sealed as exactly ceil(size/cap) chunks. */
  lemma FinishedCount(l: Limits, stream: seq<byte>, p: Producer)
    requires l.cap > 0 && l.size > 0 && Sound(l, p) && FullChunks(l, stream, p) && Finished(l, p)
    ensures p.fed == stream && Concat(Contents(p.sealed)) == stream
    ensures |p.sealed| == Generations(l)
  {
    assert p.OpenBytes() == [] && p.Carried() == [];
    assert p.sealed != [];
    ChunkPlace(p.sealed, l.cap, stream, |p.sealed| - 1);
    CeilingUnique(l, |p.sealed|, |p.sealed[|p.sealed| - 1].bytes|);
  }

  // ----- The group -----

  /** N streams of the announced length, and peers that send exactly those. */
  ghost predicate Streams(l: Limits, streams: seq<seq<byte>>) {
    && streams != [] && l.cap > 0 && l.size > 0
    && forall i :: 0 <= i < |streams| ==> |streams[i]| == l.size
  }

  ghost predicate Delivers(l: Limits, streams: seq<seq<byte>>, s: Group, a: Action) {
    a.FileMoves? ==> a.file < |s.files| && a.file < |streams| && MoveDelivers(l, streams[a.file], s.files[a.file], a.move)
  }

  ghost predicate Delivered(l: Limits, streams: seq<seq<byte>>, s: Group) {
    && Streams(l, streams) && |s.files| == |streams|
    && forall i :: 0 <= i < |s.files| ==> FullChunks(l, streams[i], s.files[i])
  }

  lemma StepKeepsDelivered(l: Limits, streams: seq<seq<byte>>, s: Group, a: Action)
    requires Invariant(l, s) && Delivered(l, streams, s) && Enabled(l, s, a) && Delivers(l, streams, s, a)
    ensures Delivered(l, streams, Next(l, s, a))
  {
    assert |Next(l, s, a).files| == |s.files|;
    forall i | 0 <= i < |s.files| ensures FullChunks(l, streams[i], Next(l, s, a).files[i]) {
      StepKeepsFullChunks(l, streams[i], s, a, i);
    }
  }

  lemma StepKeepsFullChunks(l: Limits, stream: seq<byte>, s: Group, a: Action, i: nat)
    requires ProducersSound(l, s) && HeldSettled(s) && Enabled(l, s, a) && i < |s.files|
    requires l.cap > 0 && l.size > 0 && FullChunks(l, stream, s.files[i])
    requires a.FileMoves? && a.file == i ==> MoveDelivers(l, stream, s.files[i], a.move)
    ensures |Next(l, s, a).files| == |s.files|
    ensures FullChunks(l, stream, Next(l, s, a).files[i])
  {
    if a.Consumer? {
      ConsumerKeepsFullChunks(l, stream, s, a.accepted, i);
    } else {
      PipelineSafety.FileAfter(l, s, a, i);
      if a.FileMoves? && a.file == i { MoveKeepsFullChunks(l, stream, s.files[i], a.move); }
    }
  }

  /** No clause about chunks speaks of what is in a settled slot. */
  lemma RewriteKeepsFullChunks(l: Limits, stream: seq<byte>, p: Producer, k: Index, slot: Slot)
    requires Sound(l, p) && FullChunks(l, stream, p) && p.Settled(k) && !slot.flag.Writable?
    ensures FullChunks(l, stream, p.Put(k, slot))
  {
    var q := p.Put(k, slot);
    assert q.HasOpen() == p.HasOpen();
    assert p.pc.Sealing? ==> q.Get(p.pc.slot) == p.Get(p.pc.slot);
  }

  lemma ConsumerKeepsFullChunks(l: Limits, stream: seq<byte>, s: Group, accepted: nat, i: nat)
    requires ProducersSound(l, s) && HeldSettled(s) && !s.phase.Returned? && i < |s.files|
    requires FullChunks(l, stream, s.files[i])
    ensures |Consumed(l, s, accepted).files| == |s.files|
    ensures FullChunks(l, stream, Consumed(l, s, accepted).files[i])
  {
    var p, q := s.files[i], Consumed(l, s, accepted).files[i];
    if q != p {
      var k := s.phase.slot;
      assert s.Holds(i, k);
      RewriteKeepsFullChunks(l, stream, p, k, q.Get(k));
      assert q == p.Put(k, q.Get(k));
    }
  }

  // ----- Drained generations -----

  lemma GenerationLength(a: seq<byte>, b: seq<byte>, cap: nat, g: nat)
    requires |a| == |b| && g * cap <= |a|
    ensures |Generation(a, cap, g)| == |Generation(b, cap, g)|
  {
  }

  /** ... so the size check never fails. */
  lemma SizesAlwaysMatch(l: Limits, streams: seq<seq<byte>>, s: Group)
    requires Invariant(l, s) && InOrder(s) && Delivered(l, streams, s) && s.phase.Xoring?
    ensures BufXor.SizesMatch(s.Buffers(s.phase.slot))
  {
    var bufs, d := s.Buffers(s.phase.slot), |s.drains|;
    XoringReads(l, s, 0);
    SealedGenerations(l, streams[0], s.files[0]);
    forall i | 0 <= i < |bufs| ensures |bufs[i]| == |bufs[0]| {
      XoringReads(l, s, i);
      SealedGenerations(l, streams[i], s.files[i]);
      GenerationLength(streams[i], streams[0], l.cap, d);
    }
  }

  lemma DrainCuts(l: Limits, streams: seq<seq<byte>>, s: Group, d: nat)
    requires Invariant(l, s) && InOrder(s) && Delivered(l, streams, s) && d < |s.drains|
    ensures d * l.cap < l.size && |s.drains[d].inputs| == |streams|
    ensures forall i :: 0 <= i < |streams| ==> s.drains[d].inputs[i] == Generation(streams[i], l.cap, d)
  {
    DrainReads(l, s, d, 0);
    SealedGenerations(l, streams[0], s.files[0]);
    forall i | 0 <= i < |streams|
      ensures s.drains[d].inputs[i] == Generation(streams[i], l.cap, d)
    {
      DrainReads(l, s, d, i);
      SealedGenerations(l, streams[i], s.files[i]);
    }
  }

  /** The XOR of one generation is that generation of the XOR. */
  lemma XorOfGenerations(streams: seq<seq<byte>>, inputs: seq<seq<byte>>, cap: nat, g: nat)
    requires SameLength(streams) && |inputs| == |streams| && g * cap <= |streams[0]|
    requires forall i :: 0 <= i < |streams| ==> inputs[i] == Generation(streams[i], cap, g)
    ensures SameLength(inputs) && XorAll(inputs) == Generation(XorAll(streams), cap, g)
  {
    var lo := g * cap;
    var hi := Arithmetic.Min(lo + cap, |streams[0]|);
    assert inputs == Slices(streams, lo, hi);
    XorOfSlices(streams, lo, hi);
  }

  /** Call d read generation d of every file, and wrote the start of generation d of the XOR. */
  lemma DrainEmits(l: Limits, streams: seq<seq<byte>>, s: Group, d: nat)
    requires Invariant(l, s) && InOrder(s) && Delivered(l, streams, s) && !s.failed && d < |s.drains|
    ensures SameLength(streams) && d * l.cap < l.size && s.drains[d].inputs != []
    ensures var part := Generation(XorAll(streams), l.cap, d);
            |s.drains[d].inputs[0]| == |part| && s.drains[d].emitted <= part
  {
    DrainCuts(l, streams, s, d);
    XorOfGenerations(streams, s.drains[d].inputs, l.cap, d);
    assert GoodDrain(s.drains[d]);
  }

  lemma PrefixGrows(total: seq<byte>, cap: nat, n: nat)
    requires n * cap <= |total|
    ensures total[..Arithmetic.Min(n * cap, |total|)] + Generation(total, cap, n) == total[..Arithmetic.Min((n + 1) * cap, |total|)]
  {
    assert (n + 1) * cap == n * cap + cap;
  }

  /** Calls that read generations 0, 1, 2, ... read so much of the file. */
  lemma {:induction false} ReadGenerations(drains: seq<Drain>, cap: nat, total: seq<byte>)
    requires cap > 0
    requires forall d :: 0 <= d < |drains| ==>
               d * cap < |total| && drains[d].inputs != [] && |drains[d].inputs[0]| == |Generation(total, cap, d)|
    ensures ReadSize(drains) == Arithmetic.Min(|drains| * cap, |total|)
  {
    if drains != [] {
      var n := |drains| - 1;
      ReadGenerations(drains[..n], cap, total);
      assert |drains[n].inputs[0]| == |Generation(total, cap, n)|;
      PrefixGrows(total, cap, n);
    }
  }

  /** ... and if they wrote all of it, the file holds so much of the XOR. */
  lemma {:induction false} EmittedGenerations(drains: seq<Drain>, cap: nat, total: seq<byte>)
    requires cap > 0
    requires forall d :: 0 <= d < |drains| ==>
               d * cap < |total| && drains[d].emitted == Generation(total, cap, d)
    ensures Emitted(drains) == total[..Arithmetic.Min(|drains| * cap, |total|)]
  {
    if drains != [] {
      var n := |drains| - 1;
      EmittedGenerations(drains[..n], cap, total);
      assert drains[n].emitted == Generation(total, cap, n);
      PrefixGrows(total, cap, n);
    }
  }

  /** `xor_size` is min(D*cap, size), D the calls so far. */
  ghost predicate CountsGenerations(l: Limits, s: Group) {
    s.xorSize <= l.size && s.xorSize == Arithmetic.Min(|s.drains| * l.cap, l.size)
  }

  lemma ReadSoFar(l: Limits, streams: seq<seq<byte>>, s: Group)
    requires Invariant(l, s) && InOrder(s) && Delivered(l, streams, s) && !s.failed
    ensures CountsGenerations(l, s)
  {
    XorLength(streams);
    forall d | 0 <= d < |s.drains|
      ensures d * l.cap < l.size && s.drains[d].inputs != []
      ensures |s.drains[d].inputs[0]| == |Generation(XorAll(streams), l.cap, d)|
    {
      DrainEmits(l, streams, s, d);
    }
    ReadGenerations(s.drains, l.cap, XorAll(streams));
  }

  lemma XorLength(streams: seq<seq<byte>>)
    requires SameLength(streams)
    ensures |XorAll(streams)| == |streams[0]|
  {
  }

  /** `out` is the first `n` bytes of the XOR of the streams. */
  ghost predicate HoldsXor(streams: seq<seq<byte>>, n: nat, out: seq<byte>)
    requires SameLength(streams)
  {
    n <= |XorAll(streams)| && out == XorAll(streams)[..n]
  }

  /**
   * As long as calls are in order, `xor_size` counts the first D generations, and the output is that much
   * of the XOR of the streams exactly if no write was cut short.
   */
  lemma OutputIsPrefix(l: Limits, streams: seq<seq<byte>>, s: Group)
    requires Invariant(l, s) && InOrder(s) && Delivered(l, streams, s) && !s.failed
    ensures SameLength(streams)
    ensures HoldsXor(streams, s.xorSize, s.outFile) <==> AllWhole(s.drains)
    ensures CountsGenerations(l, s)
  {
    ReadSoFar(l, streams, s);
    PipelineSafety.EmittedSize(s.drains);
    if AllWhole(s.drains) {
      forall d | 0 <= d < |s.drains|
        ensures d * l.cap < l.size && s.drains[d].emitted == Generation(XorAll(streams), l.cap, d)
      {
        DrainEmits(l, streams, s, d);
        assert Whole(s.drains[d]);
      }
      EmittedGenerations(s.drains, l.cap, XorAll(streams));
    }
  }
}
