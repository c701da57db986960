/**
 * One remote file's receiving side: the two slots that `write_buf` fills, as a step function.
 * Every step is one access to state the consumer shares, so that the consumer can come in between.
 */
module Slots {
  import opened Bytes

  /** Slot capacity and length of the whole file. */
  datatype Limits = Limits(cap: nat, size: nat)

  type Index = k: int | 0 <= k < 2

  function Other(k: Index): Index { 1 - k }

  datatype Flag = Empty | Writable | Sealed

  /** A slot's flag and the bytes it holds; `|bytes|` is `buf_size`. */
  datatype Slot = Slot(flag: Flag, bytes: seq<byte>)

  /** Where the thread is. `last` marks the seal that ends the file, after which the call returns. */
  datatype Pc =
    | NotStarted
    | Idle
    | Loop
    | Sealing(slot: Index, last: bool)
    | Counting(slot: Index, last: bool)
    | Reopening(slot: Index)

  datatype Chunk = Chunk(slot: Index, bytes: seq<byte>)

  /**
   * `fragment`, `split` and `copied` are the current call's buffer, its "partly stored" flag and
   * `cp_size`. `fed` and `sealed` are history: all bytes handed to the calls so far, and the slot
   * contents in the order they were sealed.
   */
  datatype Producer = Producer(
    slot0: Slot, slot1: Slot,
    fragment: seq<byte>, split: bool, copied: nat,
    fileIndex: nat,
    pc: Pc,
    fed: seq<byte>, sealed: seq<Chunk>
  ) {
    function Get(k: Index): Slot {
      if k == 0 then slot0 else slot1
    }

    function Put(k: Index, s: Slot): (p: Producer)
      ensures p.Get(k) == s && p.Get(Other(k)) == Get(Other(k))
    {
      if k == 0 then this.(slot0 := s) else this.(slot1 := s)
    }

    predicate HasOpen() {
      slot0.flag.Writable? || slot1.flag.Writable?
    }

    /** The slot the loop writes to: slot 0 is tested first. */
    function OpenSlot(): Index {
      if slot0.flag.Writable? then 0 else 1
    }

    function OpenBytes(): seq<byte> {
      if HasOpen() then Get(OpenSlot()).bytes else []
    }

    /** The part of the current fragment that is still to be stored. */
    function Carried(): seq<byte>
      requires copied <= |fragment|
    {
      match pc
      case Loop => Rest()
      case Reopening(_) => Rest()
      case Sealing(_, last) => if last then [] else Rest()
      case Counting(_, last) => if last then [] else Rest()
      case _ => []
    }

    function Rest(): seq<byte>
      requires copied <= |fragment|
    {
      if split then fragment[copied..] else fragment
    }

    /** Sealed and added to the shared counter. */
    predicate Settled(k: Index) {
      Get(k).flag.Sealed? && !(pc.Counting? && pc.slot == k)
    }

    function LastSealed(): Index {
      if sealed == [] then 1 else sealed[|sealed| - 1].slot
    }
  }

  const FRESH := Producer(Slot(Empty, []), Slot(Empty, []), [], false, 0, 0, NotStarted, [], [])

  datatype Move =
    | Start
    | Feed(bytes: seq<byte>)
    | Fill
    | Seal
    | Count
    | Wait
    | Reopen

  /** Which move the thread can make; only `Feed` has a choice, the fragment received. */
  predicate CanMove(l: Limits, p: Producer, m: Move) {
    match m
    case Start => p.pc.NotStarted?
    case Feed(bytes) => p.pc.Idle? && |bytes| <= l.cap
    case Fill => p.pc.Loop? && p.HasOpen()
    case Seal => p.pc.Sealing?
    case Count => p.pc.Counting?
    case Wait => p.pc.Loop? && !p.HasOpen()
    case Reopen => p.pc.Reopening?
  }

  function Moved(l: Limits, p: Producer, m: Move): Producer
    requires CanMove(l, p, m) && Bounded(l, p)
  {
    match m
    case Start => p.(slot0 := p.slot0.(flag := Writable), slot1 := p.slot1.(flag := Empty), pc := Idle)
    case Feed(bytes) => p.(fragment := bytes, split := false, fed := p.fed + bytes, pc := Loop)
    case Fill => Filled(l, p)
    case Seal =>
      var k := p.pc.slot;
      p.Put(k, p.Get(k).(flag := Sealed))
      .(sealed := p.sealed + [Chunk(k, p.Get(k).bytes)], pc := Counting(k, p.pc.last))
    case Count => p.(pc := if p.pc.last then Idle else Reopening(0))
    case Wait => p.(pc := Reopening(0))
    case Reopen =>
      var k := p.pc.slot;
      (if p.Get(k).flag.Empty? && !p.Get(Other(k)).flag.Writable? then p.Put(k, Slot(Writable, [])) else p)
      .(pc := if k == 0 then Reopening(1) else Loop)
  }

  /** Indices stay inside the buffers: what the copies need. */
  ghost predicate Bounded(l: Limits, p: Producer) {
    && |p.slot0.bytes| <= l.cap && |p.slot1.bytes| <= l.cap
    && p.copied <= |p.fragment| <= l.cap
  }

  /** The copy: as much as fits and the slot is full, or the rest of the fragment. */
  function Filled(l: Limits, p: Producer): Producer
    requires p.HasOpen() && Bounded(l, p)
  {
    var k := p.OpenSlot();
    var held := p.Get(k).bytes;
    if |held| + |p.fragment| > l.cap then
      var fits := l.cap - |held|;
      p.Put(k, p.Get(k).(bytes := held + p.fragment[..fits]))
      .(copied := fits, split := true, pc := Sealing(k, false))
    else
      var index := p.fileIndex + |p.fragment|;
      p.Put(k, p.Get(k).(bytes := held + p.Rest()))
      .(fileIndex := index, copied := if p.split then 0 else p.copied, split := false,
        pc := if index >= l.size then Sealing(k, true) else Idle)
  }

  /** What the consumer may do to a slot it holds: clear the flag, or XOR in place. */
  function Cleared(p: Producer, k: Index): Producer {
    p.Put(k, p.Get(k).(flag := Empty))
  }

  function Overwritten(p: Producer, k: Index, bytes: seq<byte>): Producer {
    p.Put(k, p.Get(k).(bytes := bytes))
  }

  function Contents(chunks: seq<Chunk>): (r: seq<seq<byte>>)
    ensures |r| == |chunks|
  {
    seq(|chunks|, g requires 0 <= g < |chunks| => chunks[g].bytes)
  }

  /** What was sealed into slot `k`, in order. */
  ghost function InSlot(chunks: seq<Chunk>, k: Index): seq<seq<byte>> {
    if chunks == [] then []
    else
      var rest, c := InSlot(chunks[..|chunks| - 1], k), chunks[|chunks| - 1];
      if c.slot == k then rest + [c.bytes] else rest
  }

  /** What every step of producer and consumer keeps. */
  ghost predicate Sound(l: Limits, p: Producer) {
    && Bounded(l, p)
    && !(p.slot0.flag.Writable? && p.slot1.flag.Writable?)
    && (if p.split then p.copied < |p.fragment| else p.copied == 0)
    && (p.sealed == [] && !p.pc.NotStarted? ==> p.slot0.flag.Writable?)
    && Placed(l, p)
    && Concat(Contents(p.sealed)) + p.OpenBytes() + p.Carried() == p.fed
  }

  /** The part of the invariant that depends on where the thread is. */
  ghost predicate Placed(l: Limits, p: Producer) {
    match p.pc
    case NotStarted =>
      p.slot0 == Slot(Empty, []) && p.slot1 == Slot(Empty, [])
      && p.sealed == [] && p.fed == [] && p.fileIndex == 0 && !p.split
    case Idle => !p.split && p.fileIndex == |p.fed| && (p.fileIndex < l.size ==> p.HasOpen())
    case Loop => Pending(p) && (p.split && p.HasOpen() ==> p.OpenBytes() == [])
    case Reopening(_) => Pending(p) && (p.split && p.HasOpen() ==> p.OpenBytes() == [])
    case Sealing(k, last) => p.Get(k).flag.Writable? && (if last then Ended(l, p) else Overflowed(l, p, k))
    case Counting(k, last) =>
      && p.Get(k).flag.Sealed? && !p.HasOpen() && p.sealed != [] && p.LastSealed() == k
      && (if last then Ended(l, p) else Pending(p) && p.split)
  }

  ghost predicate Pending(p: Producer) {
    p.fileIndex + |p.fragment| == |p.fed|
  }

  ghost predicate Ended(l: Limits, p: Producer) {
    !p.split && p.fileIndex == |p.fed| && p.fileIndex >= l.size
  }

  ghost predicate Overflowed(l: Limits, p: Producer, k: Index) {
    Pending(p) && p.split && |p.Get(k).bytes| == l.cap
  }

  lemma ContentsAppend(chunks: seq<Chunk>, c: Chunk)
    ensures Contents(chunks + [c]) == Contents(chunks) + [c.bytes]
    ensures Concat(Contents(chunks + [c])) == Concat(Contents(chunks)) + c.bytes
  {
    assert Contents(chunks + [c]) == Contents(chunks) + [c.bytes];
    ConcatAppend(Contents(chunks), c.bytes);
  }

  /** Nothing is lost, doubled or reordered by any move of the thread. */
  lemma MoveKeepsSound(l: Limits, p: Producer, m: Move)
    requires Sound(l, p) && CanMove(l, p, m)
    ensures Sound(l, Moved(l, p, m))
  {
    match m
    case Fill => FillKeepsSound(l, p);
    case Seal => SealKeepsSound(l, p);
    case Feed(bytes) => FeedKeepsSound(l, p, bytes);
    case Reopen => ReopenKeepsSound(l, p);
    case _ =>
  }

  /** Sealing moves the open bytes to the end of the sealed ones. */
  lemma SealConserves(l: Limits, p: Producer)
    requires Sound(l, p) && CanMove(l, p, Seal)
    ensures var q := Moved(l, p, Seal);
            Concat(Contents(q.sealed)) + q.OpenBytes() + q.Carried() == p.fed
  {
    var q, bytes := Moved(l, p, Seal), p.Get(p.pc.slot).bytes;
    ContentsAppend(p.sealed, Chunk(p.pc.slot, bytes));
    assert p.OpenBytes() == bytes && q.OpenBytes() == [] && q.Carried() == p.Carried();
    Regroup(Concat(Contents(p.sealed)), bytes, [], bytes, []);
  }

  lemma SealPlaces(l: Limits, p: Producer)
    requires Sound(l, p) && CanMove(l, p, Seal)
    ensures var q := Moved(l, p, Seal);
            && Bounded(l, q) && !q.HasOpen() && q.split == p.split && q.copied == p.copied && q.fragment == p.fragment
            && q.sealed != [] && Placed(l, q)
  {
  }

  lemma SealKeepsSound(l: Limits, p: Producer)
    requires Sound(l, p) && CanMove(l, p, Seal)
    ensures Sound(l, Moved(l, p, Seal))
  {
    SealConserves(l, p);
    SealPlaces(l, p);
  }

  lemma FeedKeepsSound(l: Limits, p: Producer, bytes: seq<byte>)
    requires Sound(l, p) && CanMove(l, p, Feed(bytes))
    ensures Sound(l, Moved(l, p, Feed(bytes)))
  {
    assert p.Carried() == [];
    assert Moved(l, p, Feed(bytes)).Carried() == bytes;
    assert p.fed + bytes == Concat(Contents(p.sealed)) + p.OpenBytes() + bytes;
  }

  lemma ReopenKeepsSound(l: Limits, p: Producer)
    requires Sound(l, p) && CanMove(l, p, Reopen)
    ensures Sound(l, Moved(l, p, Reopen))
  {
    var q := Moved(l, p, Reopen);
    assert q.OpenBytes() == p.OpenBytes() && q.Carried() == p.Carried();
  }

  lemma FillKeepsSound(l: Limits, p: Producer)
    requires Sound(l, p) && CanMove(l, p, Fill)
    ensures Sound(l, Filled(l, p))
  {
    var q := Filled(l, p);
    assert q.sealed == p.sealed && q.fed == p.fed;
    assert q.HasOpen() && q.OpenSlot() == p.OpenSlot();
    if q.split { OverflowSplits(l, p); } else { RestStored(l, p); }
    assert q.OpenBytes() + q.Carried() == p.OpenBytes() + p.Carried();
    Regroup(Concat(Contents(p.sealed)), q.OpenBytes(), q.Carried(), p.OpenBytes(), p.Carried());
  }

  lemma OverflowSplits(l: Limits, p: Producer)
    requires Sound(l, p) && CanMove(l, p, Fill) && Filled(l, p).split
    ensures !p.split && Filled(l, p).copied < |p.fragment|
    ensures |Filled(l, p).OpenBytes()| == l.cap
    ensures Filled(l, p).OpenBytes() + Filled(l, p).Carried() == p.OpenBytes() + p.Carried()
  {
    var q := Filled(l, p);
    assert p.fragment == p.fragment[..q.copied] + p.fragment[q.copied..];
    Regroup(p.OpenBytes(), p.fragment[..q.copied], p.fragment[q.copied..], p.fragment, []);
  }

  lemma RestStored(l: Limits, p: Producer)
    requires Sound(l, p) && CanMove(l, p, Fill) && !Filled(l, p).split
    ensures |Filled(l, p).OpenBytes()| <= l.cap
    ensures Filled(l, p).OpenBytes() + Filled(l, p).Carried() == p.OpenBytes() + p.Carried()
  {
  }

  lemma Regroup(a: seq<byte>, b: seq<byte>, c: seq<byte>, d: seq<byte>, e: seq<byte>)
    requires b + c == d + e
    ensures a + b + c == a + d + e
  {
    assert a + b + c == a + (b + c);
    assert a + d + e == a + (d + e);
  }

  /** A slot the thread has settled can be cleared without disturbing it. */
  lemma ClearKeepsSound(l: Limits, p: Producer, k: Index)
    requires Sound(l, p) && p.Settled(k)
    ensures Sound(l, Cleared(p, k))
  {
    assert Cleared(p, k).OpenBytes() == p.OpenBytes();
  }

  /** Nor does XORing in place. */
  lemma OverwriteKeepsSound(l: Limits, p: Producer, k: Index, bytes: seq<byte>)
    requires Sound(l, p) && p.Settled(k) && |bytes| == |p.Get(k).bytes|
    ensures Sound(l, Overwritten(p, k, bytes))
  {
    assert Overwritten(p, k, bytes).OpenBytes() == p.OpenBytes();
  }
}
