/**
 * What one receiving thread can do by itself when its file arrives byte by byte: fill a slot, seal it,
 * poll, fill the next. Slot capacity and file length are arbitrary.
 */
module ThreadRuns {
  import opened Bytes
  import opened Slots
  import Delivery

  // ----- Runs of one thread -----

  /** The next byte of the stream, if anything is received. */
  predicate Arrives(l: Limits, stream: seq<byte>, p: Producer, m: Move) {
    Delivery.MoveDelivers(l, stream, p, m) && (m.Feed? ==> |m.bytes| == 1)
  }

  ghost predicate ThreadRun(l: Limits, stream: seq<byte>, p: Producer, moves: seq<Move>)
    decreases |moves|
  {
    moves == [] ||
    (CanMove(l, p, moves[0]) && Bounded(l, p) && Arrives(l, stream, p, moves[0])
     && ThreadRun(l, stream, Moved(l, p, moves[0]), moves[1..]))
  }

  ghost function ThreadAfter(l: Limits, stream: seq<byte>, p: Producer, moves: seq<Move>): Producer
    requires ThreadRun(l, stream, p, moves)
    decreases |moves|
  {
    if moves == [] then p else ThreadAfter(l, stream, Moved(l, p, moves[0]), moves[1..])
  }

  function CountsHere(p: Producer, m: Move, k: Index): nat {
    if m.Count? && p.pc.Counting? && p.pc.slot == k then 1 else 0
  }

  /** How often the moves add to slot `k`'s counter. */
  ghost function Counts(l: Limits, stream: seq<byte>, p: Producer, moves: seq<Move>, k: Index): nat
    requires ThreadRun(l, stream, p, moves)
    decreases |moves|
  {
    if moves == [] then 0
    else CountsHere(p, moves[0], k) + Counts(l, stream, Moved(l, p, moves[0]), moves[1..], k)
  }

  /** `q` is reached from `p`, adding `c0` and `c1` to the counters. */
  ghost predicate Reaches(l: Limits, stream: seq<byte>, p: Producer, q: Producer, c0: nat, c1: nat) {
    exists moves :: Leads(l, stream, p, moves, q, c0, c1)
  }

  ghost predicate Leads(l: Limits, stream: seq<byte>, p: Producer, moves: seq<Move>, q: Producer, c0: nat, c1: nat) {
    && ThreadRun(l, stream, p, moves) && ThreadAfter(l, stream, p, moves) == q
    && Counts(l, stream, p, moves, 0) == c0 && Counts(l, stream, p, moves, 1) == c1
  }

  lemma {:induction false} LeadsThen(l: Limits, stream: seq<byte>, p: Producer, moves: seq<Move>, q: Producer, c0: nat,
                                     c1: nat, more: seq<Move>, r: Producer, d0: nat, d1: nat)
    requires Leads(l, stream, p, moves, q, c0, c1) && Leads(l, stream, q, more, r, d0, d1)
    ensures Leads(l, stream, p, moves + more, r, c0 + d0, c1 + d1)
    decreases |moves|
  {
    if moves == [] {
      assert moves + more == more;
    } else {
      var next, m := Moved(l, p, moves[0]), moves[0];
      LeadsThen(l, stream, next, moves[1..], q, c0 - CountsHere(p, m, 0), c1 - CountsHere(p, m, 1), more, r, d0, d1);
      assert (moves + more)[1..] == moves[1..] + more;
    }
  }

  lemma Then(l: Limits, stream: seq<byte>, p: Producer, q: Producer, c0: nat, c1: nat, r: Producer, d0: nat, d1: nat)
    requires Reaches(l, stream, p, q, c0, c1) && Reaches(l, stream, q, r, d0, d1)
    ensures Reaches(l, stream, p, r, c0 + d0, c1 + d1)
  {
    var moves :| Leads(l, stream, p, moves, q, c0, c1);
    var more :| Leads(l, stream, q, more, r, d0, d1);
    LeadsThen(l, stream, p, moves, q, c0, c1, more, r, d0, d1);
  }

  lemma Here(l: Limits, stream: seq<byte>, p: Producer)
    ensures Reaches(l, stream, p, p, 0, 0)
  {
    assert Leads(l, stream, p, [], p, 0, 0);
  }

  lemma One(l: Limits, stream: seq<byte>, p: Producer, m: Move)
    requires CanMove(l, p, m) && Bounded(l, p) && Arrives(l, stream, p, m)
    ensures Reaches(l, stream, p, Moved(l, p, m), CountsHere(p, m, 0), CountsHere(p, m, 1))
  {
    var q := Moved(l, p, m);
    assert [m][1..] == [];
    assert ThreadRun(l, stream, q, []) && ThreadAfter(l, stream, q, []) == q;
    assert Counts(l, stream, q, [], 0) == 0 && Counts(l, stream, q, [], 1) == 0;
    assert Leads(l, stream, p, [m], q, CountsHere(p, m, 0), CountsHere(p, m, 1));
  }

  // ----- Where the thread can be -----

  function Pair(k: Index, mine: Slot, other: Slot): (Slot, Slot) {
    if k == 0 then (mine, other) else (other, mine)
  }

  /** Between two bytes: slot `k` holds the stream from `lo` to `n`. */
  function Storing(stream: seq<byte>, lo: nat, n: nat, k: Index, other: Slot, sealed: seq<Chunk>): Producer
    requires lo <= n <= |stream|
  {
    var slots := Pair(k, Slot(Writable, stream[lo..n]), other);
    Producer(slots.0, slots.1, if n == 0 then [] else [stream[n - 1]], false, 0, n, Idle, stream[..n], sealed)
  }

  /** After the last byte: slot `k` is sealed with the stream from `lo` on. */
  function Complete(stream: seq<byte>, lo: nat, k: Index, other: Slot, sealed: seq<Chunk>): Producer
    requires lo < |stream|
  {
    var slots := Pair(k, Slot(Sealed, stream[lo..]), other);
    Producer(slots.0, slots.1, [stream[|stream| - 1]], false, 0, |stream|, Idle, stream,
             sealed + [Chunk(k, stream[lo..])])
  }

  function Stored(stream: seq<byte>, lo: nat, n: nat, k: Index, other: Slot, sealed: seq<Chunk>): Producer
    requires lo < n <= |stream|
  {
    if n < |stream| then Storing(stream, lo, n, k, other, sealed) else Complete(stream, lo, k, other, sealed)
  }

  /** Byte `n` in hand, in the loop or in a reopen test. */
  function Holding(stream: seq<byte>, n: nat, split: bool, slot0: Slot, slot1: Slot, sealed: seq<Chunk>, pc: Pc): Producer
    requires n < |stream|
  {
    Producer(slot0, slot1, [stream[n]], split, 0, n, pc, stream[..n + 1], sealed)
  }

  function CountsLast(stream: seq<byte>, n: nat, k: Index, j: Index): nat {
    if n == |stream| && j == k then 1 else 0
  }

  // ----- Stretches -----

  lemma NextByte(stream: seq<byte>, lo: nat, n: nat)
    requires lo <= n < |stream|
    ensures stream[lo..n] + [stream[n]] == stream[lo..n + 1] && stream[..n] + [stream[n]] == stream[..n + 1]
  {
  }

  /** After the last byte, about to seal. */
  function LastByte(stream: seq<byte>, lo: nat, k: Index, other: Slot, sealed: seq<Chunk>): Producer
    requires lo < |stream|
  {
    var slots := Pair(k, Slot(Writable, stream[lo..]), other);
    Producer(slots.0, slots.1, [stream[|stream| - 1]], false, 0, |stream|, Sealing(k, true), stream, sealed)
  }

  lemma FillTakes(l: Limits, stream: seq<byte>, lo: nat, n: nat, split: bool, k: Index, other: Slot, sealed: seq<Chunk>)
    requires l.size == |stream| && lo <= n < |stream| && n - lo < l.cap
    requires !other.flag.Writable? && |other.bytes| <= l.cap
    ensures var slots := Pair(k, Slot(Writable, stream[lo..n]), other);
            var p := Holding(stream, n, split, slots.0, slots.1, sealed, Loop);
            && CanMove(l, p, Fill) && Bounded(l, p)
            && Moved(l, p, Fill) == if n + 1 < |stream| then Storing(stream, lo, n + 1, k, other, sealed)
                                    else LastByte(stream, lo, k, other, sealed)
  {
    var slots := Pair(k, Slot(Writable, stream[lo..n]), other);
    var p := Holding(stream, n, split, slots.0, slots.1, sealed, Loop);
    NextByte(stream, lo, n);
    assert p.OpenSlot() == k && p.Rest() == [stream[n]];
    if n + 1 == |stream| { assert stream[lo..n + 1] == stream[lo..] && stream[..n + 1] == stream; }
  }

  lemma FinalSeal(l: Limits, stream: seq<byte>, lo: nat, k: Index, other: Slot, sealed: seq<Chunk>)
    requires lo < |stream| && |stream| - lo <= l.cap
    requires !other.flag.Writable? && |other.bytes| <= l.cap
    ensures Reaches(l, stream, LastByte(stream, lo, k, other, sealed), Complete(stream, lo, k, other, sealed),
                    if k == 0 then 1 else 0, if k == 1 then 1 else 0)
  {
    SealAndCount(l, stream, LastByte(stream, lo, k, other, sealed));
  }

  /** The byte in hand goes into slot `k`. */
  lemma StoreByte(l: Limits, stream: seq<byte>, lo: nat, n: nat, split: bool, k: Index, other: Slot, sealed: seq<Chunk>)
    requires l.size == |stream| && lo <= n < |stream| && n - lo < l.cap
    requires !other.flag.Writable? && |other.bytes| <= l.cap
    ensures var slots := Pair(k, Slot(Writable, stream[lo..n]), other);
            Reaches(l, stream, Holding(stream, n, split, slots.0, slots.1, sealed, Loop),
                    Stored(stream, lo, n + 1, k, other, sealed), CountsLast(stream, n + 1, k, 0), CountsLast(stream, n + 1, k, 1))
  {
    var slots := Pair(k, Slot(Writable, stream[lo..n]), other);
    var p := Holding(stream, n, split, slots.0, slots.1, sealed, Loop);
    FillTakes(l, stream, lo, n, split, k, other, sealed);
    One(l, stream, p, Fill);
    if n + 1 == |stream| {
      FinalSeal(l, stream, lo, k, other, sealed);
      Then(l, stream, p, LastByte(stream, lo, k, other, sealed), 0, 0, Complete(stream, lo, k, other, sealed),
           CountsLast(stream, n + 1, k, 0), CountsLast(stream, n + 1, k, 1));
    }
  }

  lemma SealAndCount(l: Limits, stream: seq<byte>, p: Producer)
    requires p.pc.Sealing? && Bounded(l, p)
    ensures Reaches(l, stream, p, Moved(l, Moved(l, p, Seal), Count),
                    if p.pc.slot == 0 then 1 else 0, if p.pc.slot == 1 then 1 else 0)
  {
    var q := Moved(l, p, Seal);
    One(l, stream, p, Seal);
    One(l, stream, q, Count);
    Then(l, stream, p, q, 0, 0, Moved(l, q, Count), if p.pc.slot == 0 then 1 else 0, if p.pc.slot == 1 then 1 else 0);
  }

  lemma FeedTakes(l: Limits, stream: seq<byte>, lo: nat, n: nat, k: Index, other: Slot, sealed: seq<Chunk>)
    requires l.size == |stream| && l.cap > 0 && lo <= n < |stream| && n - lo <= l.cap && |other.bytes| <= l.cap
    ensures var p, slots := Storing(stream, lo, n, k, other, sealed), Pair(k, Slot(Writable, stream[lo..n]), other);
            && CanMove(l, p, Feed([stream[n]])) && Bounded(l, p) && Arrives(l, stream, p, Feed([stream[n]]))
            && Moved(l, p, Feed([stream[n]])) == Holding(stream, n, false, slots.0, slots.1, sealed, Loop)
  {
    NextByte(stream, lo, n);
    assert stream[..n + 1] <= stream;
  }

  lemma StoreNext(l: Limits, stream: seq<byte>, lo: nat, n: nat, k: Index, other: Slot, sealed: seq<Chunk>)
    requires l.size == |stream| && lo <= n < |stream| && n - lo < l.cap
    requires !other.flag.Writable? && |other.bytes| <= l.cap
    ensures Reaches(l, stream, Storing(stream, lo, n, k, other, sealed),
                    Stored(stream, lo, n + 1, k, other, sealed), CountsLast(stream, n + 1, k, 0), CountsLast(stream, n + 1, k, 1))
  {
    var p := Storing(stream, lo, n, k, other, sealed);
    FeedTakes(l, stream, lo, n, k, other, sealed);
    One(l, stream, p, Feed([stream[n]]));
    StoreByte(l, stream, lo, n, false, k, other, sealed);
    Then(l, stream, p, Moved(l, p, Feed([stream[n]])), 0, 0, Stored(stream, lo, n + 1, k, other, sealed),
         CountsLast(stream, n + 1, k, 0), CountsLast(stream, n + 1, k, 1));
  }

  /** Bytes up to `hi` go into slot `k`, one after the other. */
  lemma {:induction false} StoreUpTo(l: Limits, stream: seq<byte>, lo: nat, n: nat, hi: nat, k: Index, other: Slot, sealed: seq<Chunk>)
    requires l.size == |stream| && lo < n <= hi <= |stream| && n < |stream| && hi - lo <= l.cap
    requires !other.flag.Writable? && |other.bytes| <= l.cap
    ensures Reaches(l, stream, Storing(stream, lo, n, k, other, sealed), Stored(stream, lo, hi, k, other, sealed),
                    CountsLast(stream, hi, k, 0), CountsLast(stream, hi, k, 1))
    decreases hi - n
  {
    if n == hi {
      Here(l, stream, Storing(stream, lo, n, k, other, sealed));
    } else {
      var p, q := Storing(stream, lo, n, k, other, sealed), Stored(stream, lo, n + 1, k, other, sealed);
      StoreNext(l, stream, lo, n, k, other, sealed);
      if n + 1 < hi {
        StoreUpTo(l, stream, lo, n + 1, hi, k, other, sealed);
        Then(l, stream, p, q, 0, 0, Stored(stream, lo, hi, k, other, sealed), CountsLast(stream, hi, k, 0), CountsLast(stream, hi, k, 1));
      }
    }
  }

  /** The slot is full and another byte comes: seal, count, and on to the reopen tests. */
  lemma Overflow(l: Limits, stream: seq<byte>, lo: nat, n: nat, k: Index, other: Slot, sealed: seq<Chunk>)
    requires l.size == |stream| && l.cap > 0 && n - lo == l.cap && n < |stream|
    requires !other.flag.Writable? && |other.bytes| <= l.cap
    ensures var slots := Pair(k, Slot(Sealed, stream[lo..n]), other);
            Reaches(l, stream, Storing(stream, lo, n, k, other, sealed),
                    Holding(stream, n, true, slots.0, slots.1, sealed + [Chunk(k, stream[lo..n])], Reopening(0)),
                    if k == 0 then 1 else 0, if k == 1 then 1 else 0)
  {
    var p := Storing(stream, lo, n, k, other, sealed);
    var q := Moved(l, p, Feed([stream[n]]));
    FeedTakes(l, stream, lo, n, k, other, sealed);
    One(l, stream, p, Feed([stream[n]]));
    NoRoom(l, stream, lo, n, k, other, sealed);
    var slots := Pair(k, Slot(Sealed, stream[lo..n]), other);
    Then(l, stream, p, q, 0, 0,
         Holding(stream, n, true, slots.0, slots.1, sealed + [Chunk(k, stream[lo..n])], Reopening(0)),
         if k == 0 then 1 else 0, if k == 1 then 1 else 0);
  }

  /** The byte in hand does not fit: nothing of it is copied. */
  lemma NoRoom(l: Limits, stream: seq<byte>, lo: nat, n: nat, k: Index, other: Slot, sealed: seq<Chunk>)
    requires l.cap > 0 && lo <= n < |stream| && n - lo == l.cap
    requires !other.flag.Writable? && |other.bytes| <= l.cap
    ensures var open, full := Pair(k, Slot(Writable, stream[lo..n]), other), Pair(k, Slot(Sealed, stream[lo..n]), other);
            Reaches(l, stream, Holding(stream, n, false, open.0, open.1, sealed, Loop),
                    Holding(stream, n, true, full.0, full.1, sealed + [Chunk(k, stream[lo..n])], Reopening(0)),
                    if k == 0 then 1 else 0, if k == 1 then 1 else 0)
  {
    var open := Pair(k, Slot(Writable, stream[lo..n]), other);
    var p := Holding(stream, n, false, open.0, open.1, sealed, Loop);
    assert stream[lo..n] + [stream[n]][..0] == stream[lo..n];
    var q := Moved(l, p, Fill);
    assert q == p.(split := true, pc := Sealing(k, false));
    One(l, stream, p, Fill);
    SealAndCount(l, stream, q);
    Then(l, stream, p, q, 0, 0, Moved(l, Moved(l, q, Seal), Count), if k == 0 then 1 else 0, if k == 1 then 1 else 0);
  }

  /** The reopen tests: the first empty slot, if neither is writable. */
  function Polled(slot0: Slot, slot1: Slot): (Slot, Slot) {
    if slot0.flag.Empty? then (Slot(Writable, []), slot1)
    else if slot1.flag.Empty? then (slot0, Slot(Writable, []))
    else (slot0, slot1)
  }

  lemma Poll(l: Limits, stream: seq<byte>, n: nat, slot0: Slot, slot1: Slot, sealed: seq<Chunk>)
    requires n < |stream| && l.cap > 0 && !slot0.flag.Writable? && !slot1.flag.Writable?
    requires |slot0.bytes| <= l.cap && |slot1.bytes| <= l.cap
    ensures var open := Polled(slot0, slot1);
            Reaches(l, stream, Holding(stream, n, true, slot0, slot1, sealed, Reopening(0)),
                    Holding(stream, n, true, open.0, open.1, sealed, Loop), 0, 0)
  {
    var p := Holding(stream, n, true, slot0, slot1, sealed, Reopening(0));
    var q := Moved(l, p, Reopen);
    One(l, stream, p, Reopen);
    One(l, stream, q, Reopen);
    Then(l, stream, p, q, 0, 0, Moved(l, q, Reopen), 0, 0);
  }

  lemma WaitOnce(l: Limits, stream: seq<byte>, n: nat, slot0: Slot, slot1: Slot, sealed: seq<Chunk>)
    requires n < |stream| && l.cap > 0 && !slot0.flag.Writable? && !slot1.flag.Writable?
    requires |slot0.bytes| <= l.cap && |slot1.bytes| <= l.cap
    ensures Reaches(l, stream, Holding(stream, n, true, slot0, slot1, sealed, Loop),
                    Holding(stream, n, true, slot0, slot1, sealed, Reopening(0)), 0, 0)
  {
    One(l, stream, Holding(stream, n, true, slot0, slot1, sealed, Loop), Wait);
  }

  // ----- Generations -----

  /** Slot `k` has just been reopened: it takes the bytes from `n` to `hi`. */
  lemma FillSlot(l: Limits, stream: seq<byte>, n: nat, hi: nat, k: Index, other: Slot, sealed: seq<Chunk>)
    requires l.size == |stream| && n < hi <= |stream| && hi - n <= l.cap
    requires !other.flag.Writable? && |other.bytes| <= l.cap
    ensures var slots := Pair(k, Slot(Writable, []), other);
            Reaches(l, stream, Holding(stream, n, true, slots.0, slots.1, sealed, Loop),
                    Stored(stream, n, hi, k, other, sealed), CountsLast(stream, hi, k, 0), CountsLast(stream, hi, k, 1))
  {
    var slots := Pair(k, Slot(Writable, []), other);
    assert stream[n..n] == [];
    StoreByte(l, stream, n, n, true, k, other, sealed);
    if n + 1 < hi {
      StoreUpTo(l, stream, n, n + 1, hi, k, other, sealed);
      Then(l, stream, Holding(stream, n, true, slots.0, slots.1, sealed, Loop), Stored(stream, n, n + 1, k, other, sealed), 0, 0,
           Stored(stream, n, hi, k, other, sealed), CountsLast(stream, hi, k, 0), CountsLast(stream, hi, k, 1));
    }
  }

  /** ... and is sealed, with the byte after it in hand. */
  lemma FillAndSeal(l: Limits, stream: seq<byte>, n: nat, k: Index, other: Slot, sealed: seq<Chunk>)
    requires l.size == |stream| && l.cap > 0 && n + l.cap < |stream|
    requires !other.flag.Writable? && |other.bytes| <= l.cap
    ensures var hi := n + l.cap;
            var slots, full := Pair(k, Slot(Writable, []), other), Pair(k, Slot(Sealed, stream[n..hi]), other);
            Reaches(l, stream, Holding(stream, n, true, slots.0, slots.1, sealed, Loop),
                    Holding(stream, hi, true, full.0, full.1, sealed + [Chunk(k, stream[n..hi])], Reopening(0)),
                    if k == 0 then 1 else 0, if k == 1 then 1 else 0)
  {
    var hi := n + l.cap;
    var slots, full := Pair(k, Slot(Writable, []), other), Pair(k, Slot(Sealed, stream[n..hi]), other);
    FillSlot(l, stream, n, hi, k, other, sealed);
    Overflow(l, stream, n, hi, k, other, sealed);
    Then(l, stream, Holding(stream, n, true, slots.0, slots.1, sealed, Loop), Storing(stream, n, hi, k, other, sealed), 0, 0,
         Holding(stream, hi, true, full.0, full.1, sealed + [Chunk(k, stream[n..hi])], Reopening(0)),
         if k == 0 then 1 else 0, if k == 1 then 1 else 0);
  }

  /** Generation 0 sealed in slot 0, slot 1 still empty. */
  function AfterFirst(stream: seq<byte>, cap: nat): Producer
    requires cap < |stream|
  {
    Holding(stream, cap, true, Slot(Sealed, stream[..cap]), Slot(Empty, []), [Chunk(0, stream[..cap])], Reopening(0))
  }

  lemma FirstGeneration(l: Limits, stream: seq<byte>)
    requires l.size == |stream| && 0 < l.cap < |stream|
    ensures Reaches(l, stream, FRESH, AfterFirst(stream, l.cap), 1, 0)
  {
    var none := Slot(Empty, []);
    var p := Storing(stream, 0, 0, 0, none, []);
    var q := Storing(stream, 0, l.cap, 0, none, []);
    One(l, stream, FRESH, Start);
    assert stream[0..0] == [] && Moved(l, FRESH, Start) == p;
    StoreNext(l, stream, 0, 0, 0, none, []);
    StoreUpTo(l, stream, 0, 1, l.cap, 0, none, []);
    Then(l, stream, p, Stored(stream, 0, 1, 0, none, []), 0, 0, q, 0, 0);
    Overflow(l, stream, 0, l.cap, 0, none, []);
    assert stream[0..l.cap] == stream[..l.cap] && [] + [Chunk(0, stream[..l.cap])] == [Chunk(0, stream[..l.cap])];
    Then(l, stream, p, q, 0, 0, AfterFirst(stream, l.cap), 1, 0);
    Then(l, stream, FRESH, p, 0, 0, AfterFirst(stream, l.cap), 1, 0);
  }

  // ----- Whole files of two or three generations -----

  function FirstTwo(stream: seq<byte>, cap: nat): seq<Chunk>
    requires 2 * cap <= |stream|
  {
    [Chunk(0, stream[..cap]), Chunk(1, stream[cap..2 * cap])]
  }

  /** Generation 0 sealed, slot 1 reopened in time. */
  function OnTime(stream: seq<byte>, cap: nat): Producer
    requires cap < |stream|
  {
    Holding(stream, cap, true, Slot(Sealed, stream[..cap]), Slot(Writable, []), [Chunk(0, stream[..cap])], Loop)
  }

  lemma ReachOnTime(l: Limits, stream: seq<byte>)
    requires l.size == |stream| && 0 < l.cap < |stream|
    ensures Reaches(l, stream, FRESH, OnTime(stream, l.cap), 1, 0)
  {
    FirstGeneration(l, stream);
    Poll(l, stream, l.cap, Slot(Sealed, stream[..l.cap]), Slot(Empty, []), [Chunk(0, stream[..l.cap])]);
    Then(l, stream, FRESH, AfterFirst(stream, l.cap), 1, 0, OnTime(stream, l.cap), 0, 0);
  }

  /** Generations 0 and 1 sealed, generation 2 waiting for a slot. */
  function BothSealed(stream: seq<byte>, cap: nat): Producer
    requires 2 * cap < |stream|
  {
    Holding(stream, 2 * cap, true, Slot(Sealed, stream[..cap]), Slot(Sealed, stream[cap..2 * cap]), FirstTwo(stream, cap), Loop)
  }

  lemma ReachBothSealed(l: Limits, stream: seq<byte>)
    requires l.size == |stream| && l.cap > 0 && 2 * l.cap < |stream|
    ensures Reaches(l, stream, FRESH, BothSealed(stream, l.cap), 1, 1)
  {
    var cap, first := l.cap, [Chunk(0, stream[..l.cap])];
    var full0, full1 := Slot(Sealed, stream[..cap]), Slot(Sealed, stream[cap..2 * cap]);
    var p := Holding(stream, 2 * cap, true, full0, full1, FirstTwo(stream, cap), Reopening(0));
    ReachOnTime(l, stream);
    FillAndSeal(l, stream, cap, 1, full0, first);
    assert first + [Chunk(1, stream[cap..2 * cap])] == FirstTwo(stream, cap);
    Then(l, stream, FRESH, OnTime(stream, cap), 1, 0, p, 0, 1);
    Poll(l, stream, 2 * cap, full0, full1, FirstTwo(stream, cap));
    Then(l, stream, FRESH, p, 1, 1, BothSealed(stream, cap), 0, 0);
  }

  /** All sealed, generation 2 in slot 0. */
  function InTurnDone(stream: seq<byte>, cap: nat): Producer
    requires 2 * cap < |stream|
  {
    Complete(stream, 2 * cap, 0, Slot(Sealed, stream[cap..2 * cap]), FirstTwo(stream, cap))
  }

  /** Slot 0 is free again, slot 1 not yet: generation 2 goes into slot 0. */
  lemma ThirdIntoSlot0(l: Limits, stream: seq<byte>, left: seq<byte>)
    requires l.size == |stream| == 3 * l.cap && l.cap > 0 && |left| <= l.cap
    ensures Reaches(l, stream, BothSealed(stream, l.cap).Put(0, Slot(Empty, left)), InTurnDone(stream, l.cap), 1, 0)
  {
    var cap, free, full1 := l.cap, Slot(Empty, left), Slot(Sealed, stream[l.cap..2 * l.cap]);
    var p := Holding(stream, 2 * cap, true, free, full1, FirstTwo(stream, cap), Loop);
    var q := Holding(stream, 2 * cap, true, free, full1, FirstTwo(stream, cap), Reopening(0));
    WaitOnce(l, stream, 2 * cap, free, full1, FirstTwo(stream, cap));
    FromFreeSlot0(l, stream, left);
    Then(l, stream, p, q, 0, 0, InTurnDone(stream, cap), 1, 0);
  }

  lemma FromFreeSlot0(l: Limits, stream: seq<byte>, left: seq<byte>)
    requires l.size == |stream| == 3 * l.cap && l.cap > 0 && |left| <= l.cap
    ensures Reaches(l, stream,
                    Holding(stream, 2 * l.cap, true, Slot(Empty, left), Slot(Sealed, stream[l.cap..2 * l.cap]),
                            FirstTwo(stream, l.cap), Reopening(0)),
                    InTurnDone(stream, l.cap), 1, 0)
  {
    var cap, full1 := l.cap, Slot(Sealed, stream[l.cap..2 * l.cap]);
    var q := Holding(stream, 2 * cap, true, Slot(Empty, left), full1, FirstTwo(stream, cap), Reopening(0));
    var r := Holding(stream, 2 * cap, true, Slot(Writable, []), full1, FirstTwo(stream, cap), Loop);
    Poll(l, stream, 2 * cap, Slot(Empty, left), full1, FirstTwo(stream, cap));
    FillSlot(l, stream, 2 * cap, 3 * cap, 0, full1, FirstTwo(stream, cap));
    Then(l, stream, q, r, 0, 0, InTurnDone(stream, cap), 1, 0);
  }

  /** Slot 0 was given back while generation 1 went into slot 1: the rest, in turn. */
  lemma RestInTurn(l: Limits, stream: seq<byte>, left: seq<byte>)
    requires l.size == |stream| == 3 * l.cap && l.cap > 0 && |left| <= l.cap
    ensures Reaches(l, stream, OnTime(stream, l.cap).Put(0, Slot(Empty, left)), InTurnDone(stream, l.cap), 1, 1)
  {
    var cap, first := l.cap, [Chunk(0, stream[..l.cap])];
    var p := Holding(stream, cap, true, Slot(Empty, left), Slot(Writable, []), first, Loop);
    var q := Holding(stream, 2 * cap, true, Slot(Empty, left), Slot(Sealed, stream[cap..2 * cap]), FirstTwo(stream, cap), Reopening(0));
    FillAndSeal(l, stream, cap, 1, Slot(Empty, left), first);
    assert first + [Chunk(1, stream[cap..2 * cap])] == FirstTwo(stream, cap);
    FromFreeSlot0(l, stream, left);
    Then(l, stream, p, q, 0, 1, InTurnDone(stream, cap), 1, 0);
  }

  /** All sealed, generation 1 in slot 0 and generation 2 in slot 1. */
  function LatePollDone(stream: seq<byte>, cap: nat): Producer
    requires 2 * cap < |stream|
  {
    Complete(stream, 2 * cap, 1, Slot(Sealed, stream[cap..2 * cap]),
             [Chunk(0, stream[..cap]), Chunk(0, stream[cap..2 * cap])])
  }

  /** Slot 0 was given back before the reopen tests: generation 1 goes into slot 0 once more. */
  lemma RestAfterLatePoll(l: Limits, stream: seq<byte>, left: seq<byte>)
    requires l.size == |stream| == 3 * l.cap && l.cap > 0 && |left| <= l.cap
    ensures Reaches(l, stream, AfterFirst(stream, l.cap).Put(0, Slot(Empty, left)), LatePollDone(stream, l.cap), 1, 1)
  {
    var cap, first := l.cap, [Chunk(0, stream[..l.cap])];
    var none, full0 := Slot(Empty, []), Slot(Sealed, stream[cap..2 * cap]);
    var two := first + [Chunk(0, stream[cap..2 * cap])];
    var p := Holding(stream, cap, true, Slot(Empty, left), none, first, Reopening(0));
    var q := Holding(stream, cap, true, Slot(Writable, []), none, first, Loop);
    var r := Holding(stream, 2 * cap, true, full0, none, two, Reopening(0));
    Poll(l, stream, cap, Slot(Empty, left), none, first);
    FillAndSeal(l, stream, cap, 0, none, first);
    Then(l, stream, p, q, 0, 0, r, 1, 0);
    LateFinish(l, stream);
    Then(l, stream, p, r, 1, 0, LatePollDone(stream, cap), 0, 1);
  }

  lemma LateFinish(l: Limits, stream: seq<byte>)
    requires l.size == |stream| == 3 * l.cap && l.cap > 0
    ensures Reaches(l, stream,
                    Holding(stream, 2 * l.cap, true, Slot(Sealed, stream[l.cap..2 * l.cap]), Slot(Empty, []),
                            [Chunk(0, stream[..l.cap])] + [Chunk(0, stream[l.cap..2 * l.cap])], Reopening(0)),
                    LatePollDone(stream, l.cap), 0, 1)
  {
    var cap, full0 := l.cap, Slot(Sealed, stream[l.cap..2 * l.cap]);
    var two := [Chunk(0, stream[..cap])] + [Chunk(0, stream[cap..2 * cap])];
    var r := Holding(stream, 2 * cap, true, full0, Slot(Empty, []), two, Reopening(0));
    var u := Holding(stream, 2 * cap, true, full0, Slot(Writable, []), two, Loop);
    Poll(l, stream, 2 * cap, full0, Slot(Empty, []), two);
    FillSlot(l, stream, 2 * cap, 3 * cap, 1, full0, two);
    assert two == [Chunk(0, stream[..cap]), Chunk(0, stream[cap..2 * cap])];
    Then(l, stream, r, u, 0, 0, LatePollDone(stream, cap), 0, 1);
  }

  /** The same two schedules for a file of two generations. */
  lemma SecondAfterLatePoll(l: Limits, stream: seq<byte>, left: seq<byte>)
    requires l.size == |stream| == 2 * l.cap && l.cap > 0 && |left| <= l.cap
    ensures Reaches(l, stream, AfterFirst(stream, l.cap).Put(0, Slot(Empty, left)),
                    Complete(stream, l.cap, 0, Slot(Empty, []), [Chunk(0, stream[..l.cap])]), 1, 0)
  {
    var cap, first, none := l.cap, [Chunk(0, stream[..l.cap])], Slot(Empty, []);
    var p := Holding(stream, cap, true, Slot(Empty, left), none, first, Reopening(0));
    var q := Holding(stream, cap, true, Slot(Writable, []), none, first, Loop);
    Poll(l, stream, cap, Slot(Empty, left), none, first);
    FillSlot(l, stream, cap, 2 * cap, 0, none, first);
    Then(l, stream, p, q, 0, 0, Complete(stream, cap, 0, none, first), 1, 0);
  }

  lemma SecondInTurn(l: Limits, stream: seq<byte>, left: seq<byte>)
    requires l.size == |stream| == 2 * l.cap && l.cap > 0 && |left| <= l.cap
    ensures Reaches(l, stream, OnTime(stream, l.cap).Put(0, Slot(Empty, left)),
                    Complete(stream, l.cap, 1, Slot(Empty, left), [Chunk(0, stream[..l.cap])]), 0, 1)
  {
    FillSlot(l, stream, l.cap, 2 * l.cap, 1, Slot(Empty, left), [Chunk(0, stream[..l.cap])]);
  }

  // ----- Whole files of one generation -----

  function InOneSlot(stream: seq<byte>): Producer
    requires stream != []
  {
    Complete(stream, 0, 0, Slot(Empty, []), [])
  }

  /** All but the last byte, or for a file of one byte, nothing. */
  lemma ReachAllButLast(l: Limits, stream: seq<byte>)
    requires 0 < l.size == |stream| <= l.cap
    ensures Reaches(l, stream, Storing(stream, 0, 0, 0, Slot(Empty, []), []),
                    Storing(stream, 0, |stream| - 1, 0, Slot(Empty, []), []), 0, 0)
  {
    var none, n := Slot(Empty, []), |stream| - 1;
    var p := Storing(stream, 0, 0, 0, none, []);
    if n == 0 {
      Here(l, stream, p);
    } else {
      StoreNext(l, stream, 0, 0, 0, none, []);
      StoreUpTo(l, stream, 0, 1, n, 0, none, []);
      Then(l, stream, p, Stored(stream, 0, 1, 0, none, []), 0, 0, Storing(stream, 0, n, 0, none, []), 0, 0);
    }
  }

  /** All stored, about to seal. */
  lemma ReachLastByte(l: Limits, stream: seq<byte>)
    requires 0 < l.size == |stream| <= l.cap
    ensures Reaches(l, stream, FRESH, LastByte(stream, 0, 0, Slot(Empty, []), []), 0, 0)
  {
    var none := Slot(Empty, []);
    var p, q := Storing(stream, 0, 0, 0, none, []), Storing(stream, 0, |stream| - 1, 0, none, []);
    One(l, stream, FRESH, Start);
    assert stream[0..0] == [] && Moved(l, FRESH, Start) == p;
    ReachAllButLast(l, stream);
    StoreLast(l, stream);
    Then(l, stream, FRESH, p, 0, 0, q, 0, 0);
    Then(l, stream, FRESH, q, 0, 0, LastByte(stream, 0, 0, none, []), 0, 0);
  }

  lemma StoreLast(l: Limits, stream: seq<byte>)
    requires 0 < l.size == |stream| <= l.cap
    ensures Reaches(l, stream, Storing(stream, 0, |stream| - 1, 0, Slot(Empty, []), []), LastByte(stream, 0, 0, Slot(Empty, []), []), 0, 0)
  {
    var none, n := Slot(Empty, []), |stream| - 1;
    var q := Storing(stream, 0, n, 0, none, []);
    var r := Moved(l, q, Feed([stream[n]]));
    FeedTakes(l, stream, 0, n, 0, none, []);
    FillTakes(l, stream, 0, n, false, 0, none, []);
    One(l, stream, q, Feed([stream[n]]));
    One(l, stream, r, Fill);
    Then(l, stream, q, r, 0, 0, Moved(l, r, Fill), 0, 0);
  }

  lemma ReachInOneSlot(l: Limits, stream: seq<byte>)
    requires 0 < l.size == |stream| <= l.cap
    ensures Reaches(l, stream, FRESH, InOneSlot(stream), 1, 0)
  {
    ReachLastByte(l, stream);
    FinalSeal(l, stream, 0, 0, Slot(Empty, []), []);
    Then(l, stream, FRESH, LastByte(stream, 0, 0, Slot(Empty, []), []), 0, 0, InOneSlot(stream), 1, 0);
  }

  /** Sealed, and not yet counted. */
  function AboutToCount(stream: seq<byte>): Producer
    requires stream != []
  {
    InOneSlot(stream).(pc := Counting(0, true))
  }

  lemma ReachAboutToCount(l: Limits, stream: seq<byte>)
    requires 0 < l.size == |stream| <= l.cap
    ensures Reaches(l, stream, FRESH, AboutToCount(stream), 0, 0)
  {
    var p := LastByte(stream, 0, 0, Slot(Empty, []), []);
    ReachLastByte(l, stream);
    One(l, stream, p, Seal);
    Then(l, stream, FRESH, p, 0, 0, AboutToCount(stream), 0, 0);
  }
}
