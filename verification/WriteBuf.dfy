/**
 * `write_buf` on its real state: two byte arrays, their fill levels and flags, and the group's
 * counters. Each stretch of code between two shared accesses is one method, proved to be a move of
 * the step function in Slots; the loop around them is proved to lose nothing.
 */
module WriteBuf {
  import opened Bytes
  import opened Slots
  import opened Delivery

  /** `buf_full_num` of the file group. */
  class Counters {
    var full: seq<nat>

    constructor ()
      ensures full == [0, 0]
    {
      full := [0, 0];
    }
  }

  /** Which slots the consumer gives back before each of the two reopen tests of one loop round. */
  datatype Release = Release(before0: set<Index>, before1: set<Index>)

  // ----- What a call comes to -----

  /** Those of the slots that are sealed are given back. */
  function FlagsCleared(p: Producer, slots: set<Index>): Producer {
    p.(slot0 := if 0 in slots && p.slot0.flag.Sealed? then p.slot0.(flag := Empty) else p.slot0,
       slot1 := if 1 in slots && p.slot1.flag.Sealed? then p.slot1.(flag := Empty) else p.slot1)
  }

  lemma FlagsClearedSound(l: Limits, p: Producer, slots: set<Index>)
    requires Sound(l, p) && p.pc.Reopening?
    ensures Sound(l, FlagsCleared(p, slots))
  {
    var q := if 0 in slots && p.slot0.flag.Sealed? then Cleared(p, 0) else p;
    if 0 in slots && p.slot0.flag.Sealed? { ClearKeepsSound(l, p, 0); }
    if 1 in slots && q.slot1.flag.Sealed? { ClearKeepsSound(l, q, 1); }
    assert FlagsCleared(p, slots) == if 1 in slots && q.slot1.flag.Sealed? then Cleared(q, 1) else q;
  }

  /** After both reopen tests, the consumer having come in before each. */
  ghost function Reopened(l: Limits, p: Producer, release: Release): (r: Producer)
    requires Sound(l, p) && p.pc == Reopening(0)
    ensures Sound(l, r) && r.pc.Loop? && r == p.(slot0 := r.slot0, slot1 := r.slot1, pc := Loop)
  {
    var a := FlagsCleared(p, release.before0);
    FlagsClearedSound(l, p, release.before0);
    ReopenKeepsSound(l, a);
    var b := Moved(l, a, Reopen);
    FlagsClearedSound(l, b, release.before1);
    ReopenKeepsSound(l, FlagsCleared(b, release.before1));
    Moved(l, FlagsCleared(b, release.before1), Reopen)
  }

  /** Sealed and counted. */
  ghost function SealedAndCounted(l: Limits, p: Producer): (r: Producer)
    requires Sound(l, p) && p.pc.Sealing?
    ensures Sound(l, r) && r.pc == if p.pc.last then Idle else Reopening(0)
    ensures r.fragment == p.fragment && r.split == p.split
  {
    SealKeepsSound(l, p);
    MoveKeepsSound(l, Moved(l, p, Seal), Count);
    Moved(l, Moved(l, p, Seal), Count)
  }

  /** The loop, as far as the releases go: what is left of the call. */
  ghost function PlayedOut(l: Limits, p: Producer, releases: seq<Release>): (r: Producer)
    requires Sound(l, p) && p.pc.Loop?
    ensures Sound(l, r) && (r.pc.Idle? || (r.pc.Loop? && !r.HasOpen()))
    decreases if p.split then 0 else 1, |releases|
  {
    if p.HasOpen() then
      FillKeepsSound(l, p);
      var q := Moved(l, p, Fill);
      if q.pc.Idle? then q
      else if q.pc.last then SealedAndCounted(l, q)
      else
        OverflowSplits(l, p);
        PlayedOut(l, Reopened(l, SealedAndCounted(l, q), NextRelease(releases)), Later(releases))
    else if releases == [] then p
    else
      MoveKeepsSound(l, p, Wait);
      PlayedOut(l, Reopened(l, Moved(l, p, Wait), NextRelease(releases)), Later(releases))
  }

  function NextRelease(releases: seq<Release>): Release {
    if releases == [] then Release({}, {}) else releases[0]
  }

  function Later(releases: seq<Release>): seq<Release> {
    if releases == [] then [] else releases[1..]
  }

  // ----- When the call returns -----

  /** Nothing is given back, or only slot 0 and only after the last test of it. */
  predicate Barren(releases: seq<Release>) {
    forall r :: 0 <= r < |releases| ==>
      && 0 !in releases[r].before0 && 1 !in releases[r].before0 && 1 !in releases[r].before1
      && (0 in releases[r].before1 ==> r == |releases| - 1)
  }

  /** There is room for the fragment, or a slot to reopen, or one is given back while the thread waits. */
  predicate Returns(l: Limits, p: Producer, size: nat, releases: seq<Release>) {
    if p.HasOpen() then
      || |p.OpenBytes()| + size <= l.cap
      || !p.Get(Other(p.OpenSlot())).flag.Sealed?
      || !Barren(releases)
    else releases != [] && (HasFree(p) || !Barren(releases))
  }

  predicate HasFree(p: Producer) {
    p.slot0.flag.Empty? || p.slot1.flag.Empty?
  }

  lemma BarrenFirst(releases: seq<Release>)
    requires releases != []
    ensures Barren(releases) <==>
            && 0 !in releases[0].before0 && 1 !in releases[0].before0 && 1 !in releases[0].before1
            && (0 in releases[0].before1 ==> |releases| == 1)
            && Barren(releases[1..])
  {
    if Barren(releases) {
      forall r | 0 <= r < |releases[1..]|
        ensures 0 !in releases[1..][r].before0 && 1 !in releases[1..][r].before0 && 1 !in releases[1..][r].before1
        ensures 0 in releases[1..][r].before1 ==> r == |releases[1..]| - 1
      {
        assert releases[1..][r] == releases[r + 1];
      }
    } else if Barren(releases[1..]) {
      forall r | 1 <= r < |releases|
        ensures 0 !in releases[r].before0 && 1 !in releases[r].before0 && 1 !in releases[r].before1
        ensures 0 in releases[r].before1 ==> r == |releases| - 1
      {
        assert releases[1..][r - 1] == releases[r];
      }
    }
  }

  /** Two tests in a row. */
  lemma ReopenedOpens(l: Limits, p: Producer, release: Release)
    requires Sound(l, p) && p.pc == Reopening(0) && !p.HasOpen()
    ensures var r := Reopened(l, p, release);
            && (r.HasOpen() <==> HasFree(p) || 0 in release.before0 || 1 in release.before0 || 1 in release.before1)
            && (r.HasOpen() ==> r.OpenBytes() == [] && (r.OpenSlot() == 0 <==> p.slot0.flag.Empty? || 0 in release.before0))
            && (!r.HasOpen() ==> (HasFree(r) <==> 0 in release.before1))
  {
  }

  /** An empty slot takes any fragment. */
  lemma EmptySlotTakes(l: Limits, p: Producer, releases: seq<Release>)
    requires Sound(l, p) && p.pc.Loop? && p.HasOpen() && p.OpenBytes() == []
    ensures PlayedOut(l, p, releases).pc.Idle?
  {
  }

  lemma {:induction false} WaitsUntil(l: Limits, p: Producer, releases: seq<Release>)
    requires Sound(l, p) && p.pc.Loop? && !p.HasOpen()
    ensures PlayedOut(l, p, releases).pc.Idle? <==> releases != [] && (HasFree(p) || !Barren(releases))
    decreases |releases|
  {
    if releases != [] {
      MoveKeepsSound(l, p, Wait);
      var q := Reopened(l, Moved(l, p, Wait), releases[0]);
      ReopenedOpens(l, Moved(l, p, Wait), releases[0]);
      BarrenFirst(releases);
      if q.HasOpen() {
        EmptySlotTakes(l, q, releases[1..]);
      } else {
        WaitsUntil(l, q, releases[1..]);
      }
    }
  }

  /** The call returns exactly if there is room, or a slot to reopen, or one is given back in time. */
  lemma CallReturnsIff(l: Limits, p: Producer, buf: seq<byte>, releases: seq<Release>)
    requires Sound(l, p) && CanMove(l, p, Feed(buf))
    ensures Sound(l, Moved(l, p, Feed(buf)))
    ensures PlayedOut(l, Moved(l, p, Feed(buf)), releases).pc.Idle? <==> Returns(l, p, |buf|, releases)
  {
    MoveKeepsSound(l, p, Feed(buf));
    var q := Moved(l, p, Feed(buf));
    if !q.HasOpen() {
      WaitsUntil(l, q, releases);
    } else if |q.OpenBytes()| + |buf| > l.cap {
      OverflowWaits(l, q, releases);
    }
  }

  lemma OverflowSeals(l: Limits, p: Producer)
    requires Sound(l, p) && p.pc.Loop? && p.HasOpen() && |p.OpenBytes()| + |p.fragment| > l.cap
    ensures Sound(l, Moved(l, p, Fill)) && Moved(l, p, Fill).pc == Sealing(p.OpenSlot(), false)
    ensures var q := SealedAndCounted(l, Moved(l, p, Fill));
            q.pc == Reopening(0) && !q.HasOpen() && (HasFree(q) <==> !p.Get(Other(p.OpenSlot())).flag.Sealed?)
  {
    FillKeepsSound(l, p);
  }

  /** What is left to play after a round with room, and after one without. */
  lemma PlayedStored(l: Limits, p: Producer, releases: seq<Release>)
    requires Sound(l, p) && p.pc.Loop? && p.HasOpen() && |p.OpenBytes()| + |p.fragment| <= l.cap
    ensures Sound(l, Moved(l, p, Fill))
    ensures var q := Moved(l, p, Fill);
            (q.pc.Idle? || q.pc.Sealing?) && PlayedOut(l, p, releases) == if q.pc.Idle? then q else SealedAndCounted(l, q)
  {
    FillKeepsSound(l, p);
  }

  lemma PlayedOverflow(l: Limits, p: Producer, releases: seq<Release>)
    requires Sound(l, p) && p.pc.Loop? && p.HasOpen() && |p.OpenBytes()| + |p.fragment| > l.cap
    ensures Sound(l, Moved(l, p, Fill)) && Moved(l, p, Fill).pc == Sealing(p.OpenSlot(), false)
    ensures PlayedOut(l, p, releases) ==
            PlayedOut(l, Reopened(l, SealedAndCounted(l, Moved(l, p, Fill)), NextRelease(releases)), Later(releases))
  {
    FillKeepsSound(l, p);
  }

  lemma OverflowWaits(l: Limits, p: Producer, releases: seq<Release>)
    requires Sound(l, p) && p.pc.Loop? && p.HasOpen() && |p.OpenBytes()| + |p.fragment| > l.cap
    ensures PlayedOut(l, p, releases).pc.Idle? <==> !p.Get(Other(p.OpenSlot())).flag.Sealed? || !Barren(releases)
  {
    OverflowSeals(l, p);
    var q := SealedAndCounted(l, Moved(l, p, Fill));
    var r := Reopened(l, q, NextRelease(releases));
    PlayedOverflow(l, p, releases);
    ReopenedOpens(l, q, NextRelease(releases));
    if releases != [] { BarrenFirst(releases); }
    if r.HasOpen() {
      EmptySlotTakes(l, r, Later(releases));
    } else {
      WaitsUntil(l, r, Later(releases));
    }
  }

  method CopyInto(dst: array<byte>, at: nat, src: seq<byte>)
    requires at + |src| <= dst.Length
    modifies dst
    ensures dst[..at] == old(dst[..at]) && dst[at..at + |src|] == src
    ensures dst[..at + |src|] == old(dst[..at]) + src
  {
    forall i | 0 <= i < |src| {
      dst[at + i] := src[i];
    }
    assert dst[..at + |src|] == dst[..at] + dst[at..at + |src|];
  }

  class FileBuffers {
    const l: Limits
    const inBuf0: array<byte>
    const inBuf1: array<byte>
    var bufFlag: seq<Flag>
    var bufSize: seq<nat>
    var cpSize: nat
    var fileIndex: nat
    ghost var view: Producer

    function InBuf(k: Index): array<byte> {
      if k == 0 then inBuf0 else inBuf1
    }

    /** Slot `k` on the heap is `slot`. */
    ghost predicate HoldsSlot(k: Index, slot: Slot)
      reads this, InBuf(k)
    {
      && |bufFlag| == 2 && |bufSize| == 2 && bufSize[k] <= l.cap == InBuf(k).Length
      && slot == Slot(bufFlag[k], InBuf(k)[..bufSize[k]])
    }

    /** The fields hold what `p` says. */
    ghost predicate Represents(p: Producer)
      reads this, inBuf0, inBuf1
    {
      && inBuf0 != inBuf1 && HoldsSlot(0, p.slot0) && HoldsSlot(1, p.slot1)
      && p.copied == cpSize && p.fileIndex == fileIndex
    }

    ghost predicate Valid()
      reads this, inBuf0, inBuf1
    {
      Represents(view) && Sound(l, view)
    }

    /** The zeroed state of a file whose thread has not started. */
    constructor (l: Limits)
      ensures Valid() && this.l == l && fresh(inBuf0) && fresh(inBuf1)
      ensures view == FRESH
    {
      this.l := l;
      inBuf0 := new byte[l.cap];
      inBuf1 := new byte[l.cap];
      bufFlag, bufSize := [Empty, Empty], [0, 0];
      cpSize, fileIndex := 0, 0;
      view := FRESH;
      new;
    }

    /** Thread start: slot 0 writable, slot 1 empty. */
    method StartThread()
      requires Valid() && CanMove(l, view, Start)
      modifies this
      ensures Valid() && view == Moved(l, old(view), Start)
    {
      MoveKeepsSound(l, view, Start);
      bufFlag := [Writable, Empty];
      view := Moved(l, view, Start);
    }

    /** The call begins with the fragment received. */
    ghost method BeginCall(buf: seq<byte>)
      requires Valid() && CanMove(l, view, Feed(buf))
      modifies this
      ensures Valid() && view == Moved(l, old(view), Feed(buf))
      ensures bufFlag == old(bufFlag)
    {
      MoveKeepsSound(l, view, Feed(buf));
      view := Moved(l, view, Feed(buf));
    }

    /** No slot is writable: the thread only sleeps. */
    ghost method Sleep()
      requires Valid() && CanMove(l, view, Wait)
      modifies this
      ensures Valid() && view == Moved(l, old(view), Wait)
    {
      MoveKeepsSound(l, view, Wait);
      view := Moved(l, view, Wait);
    }

    /** The fragment does not fit: as much of it as does. */
    method StorePart(k: Index, buf: seq<byte>)
      requires Valid() && CanMove(l, view, Fill) && view.fragment == buf && k == view.OpenSlot()
      requires bufSize[k] + |buf| > l.cap
      modifies this, inBuf0, inBuf1
      ensures Valid() && view == Moved(l, old(view), Fill) && bufFlag == old(bufFlag)
      ensures view.pc == Sealing(k, false) && view.split && !old(view.split)
    {
      FillKeepsSound(l, view);
      OverflowSplits(l, view);
      var dst := if k == 0 then inBuf0 else inBuf1;
      cpSize := l.cap - bufSize[k];
      CopyInto(dst, bufSize[k], buf[..cpSize]);
      bufSize := bufSize[k := bufSize[k] + cpSize];
      view := Moved(l, view, Fill);
    }

    /** The fragment, or what is left of it, fits; `ended` when the file is complete. */
    method StoreRest(k: Index, buf: seq<byte>, partly: bool) returns (ended: bool)
      requires Valid() && CanMove(l, view, Fill) && view.fragment == buf && view.split == partly
      requires k == view.OpenSlot() && bufSize[k] + |buf| <= l.cap
      modifies this, inBuf0, inBuf1
      ensures Valid() && view == Moved(l, old(view), Fill) && bufFlag == old(bufFlag)
      ensures view.pc == if ended then Sealing(k, true) else Idle
    {
      FillKeepsSound(l, view);
      RestStored(l, view);
      fileIndex := fileIndex + |buf|;
      var rest := if partly then buf[cpSize..] else buf;
      assert rest == view.Rest();
      StoreBytes(k, rest);
      if partly {
        cpSize := 0;
      }
      ended := fileIndex >= l.size;
      view := Moved(l, view, Fill);
    }

    method StoreBytes(k: Index, rest: seq<byte>)
      requires inBuf0 != inBuf1 && inBuf0.Length == l.cap && inBuf1.Length == l.cap
      requires |bufSize| == 2 && bufSize[0] <= l.cap && bufSize[1] <= l.cap && bufSize[k] + |rest| <= l.cap
      modifies this`bufSize, inBuf0, inBuf1
      ensures bufSize == old(bufSize)[k := old(bufSize)[k] + |rest|]
      ensures k == 0 ==> inBuf0[..bufSize[0]] == old(inBuf0[..bufSize[0]]) + rest && inBuf1[..bufSize[1]] == old(inBuf1[..bufSize[1]])
      ensures k == 1 ==> inBuf1[..bufSize[1]] == old(inBuf1[..bufSize[1]]) + rest && inBuf0[..bufSize[0]] == old(inBuf0[..bufSize[0]])
    {
      if k == 0 {
        CopyInto(inBuf0, bufSize[0], rest);
      } else {
        CopyInto(inBuf1, bufSize[1], rest);
      }
      bufSize := bufSize[k := bufSize[k] + |rest|];
    }

    /** The flag of the open slot becomes "sealed". */
    method SetSealed(k: Index)
      requires Valid() && CanMove(l, view, Seal) && k == view.pc.slot
      modifies this
      ensures Valid() && view == Moved(l, old(view), Seal)
    {
      SealKeepsSound(l, view);
      bufFlag := bufFlag[k := Sealed];
      view := Moved(l, view, Seal);
    }

    /** Adds one to the slot's counter. */
    method AddToCounter(counters: Counters, k: Index)
      requires Valid() && CanMove(l, view, Count) && k == view.pc.slot && |counters.full| == 2
      modifies this, counters
      ensures Valid() && view == Moved(l, old(view), Count)
      ensures counters.full == old(counters.full)[k := old(counters.full)[k] + 1]
    {
      MoveKeepsSound(l, view, Count);
      counters.full := counters.full[k := counters.full[k] + 1];
      view := Moved(l, view, Count);
    }

    /** One reopen test. */
    method ReopenTest(k: Index)
      requires Valid() && CanMove(l, view, Reopen) && view.pc.slot == k
      modifies this
      ensures Valid() && view == Moved(l, old(view), Reopen)
    {
      ReopenKeepsSound(l, view);
      if bufFlag[k] == Empty && bufFlag[1 - k] != Writable {
        bufFlag := bufFlag[k := Writable];
        bufSize := bufSize[k := 0];
      }
      view := Moved(l, view, Reopen);
    }

    /** The consumer clears the flag of a slot it holds. */
    method ClearFlag(k: Index)
      requires Valid() && view.Settled(k)
      modifies this
      ensures Valid() && view == Cleared(old(view), k)
    {
      ClearKeepsSound(l, view, k);
      bufFlag := bufFlag[k := Empty];
      view := Cleared(view, k);
    }

    /** The consumer has XORed a slot it holds in place; the history follows. */
    ghost method Overwrite(k: Index, bytes: seq<byte>)
      requires Sound(l, view) && view.Settled(k) && |bytes| == |view.Get(k).bytes|
      requires inBuf0 != inBuf1 && view.copied == cpSize && view.fileIndex == fileIndex
      requires HoldsSlot(Other(k), view.Get(Other(k))) && HoldsSlot(k, view.Get(k).(bytes := bytes))
      modifies this`view
      ensures Valid() && view == Overwritten(old(view), k, bytes)
    {
      OverwriteKeepsSound(l, view, k, bytes);
      view := Overwritten(view, k, bytes);
    }

    /** The counters have moved by what was sealed into each slot since `before`. */
    ghost predicate CountedSince(before: Producer, counters: Counters, full: seq<nat>)
      reads this, counters
    {
      && |counters.full| == 2 && |full| == 2
      && counters.full[0] + |InSlot(before.sealed, 0)| == full[0] + |InSlot(view.sealed, 0)|
      && counters.full[1] + |InSlot(before.sealed, 1)| == full[1] + |InSlot(view.sealed, 1)|
    }

    method SealTracked(counters: Counters, k: Index,
                       ghost before: Producer, ghost buf: seq<byte>, ghost stream: seq<byte>, ghost full: seq<nat>)
      requires Valid() && view.pc.Sealing? && view.pc.slot == k
      requires OnTrack(l, before, buf, stream, view) && CountedSince(before, counters, full)
      modifies this, counters
      ensures Valid() && OnTrack(l, before, buf, stream, view)
      ensures Sound(l, old(view)) && view == SealedAndCounted(l, old(view))
      ensures CountedSince(before, counters, full)
    {
      TrackMove(l, before, buf, stream, view, Seal);
      SealAddsOne(l, view);
      SetSealed(k);
      TrackMove(l, before, buf, stream, view, Count);
      AddToCounter(counters, k);
    }

    /** Sealing a slot, counting it, and both reopen tests, the consumer coming in before each. */
    method SealAndReopen(counters: Counters, k: Index, release: Release,
                         ghost before: Producer, ghost buf: seq<byte>, ghost stream: seq<byte>, ghost full: seq<nat>)
      requires Valid() && view.pc == Sealing(k, false)
      requires OnTrack(l, before, buf, stream, view) && CountedSince(before, counters, full)
      modifies this, counters
      ensures Valid() && OnTrack(l, before, buf, stream, view)
      ensures Sound(l, old(view)) && view == Reopened(l, SealedAndCounted(l, old(view)), release)
      ensures CountedSince(before, counters, full)
    {
      SealTracked(counters, k, before, buf, stream, full);
      ReopenTests(release, before, buf, stream);
    }

    /** The two reopen tests. */
    method ReopenTests(release: Release, ghost before: Producer, ghost buf: seq<byte>, ghost stream: seq<byte>)
      requires Valid() && view.pc == Reopening(0) && OnTrack(l, before, buf, stream, view)
      modifies this
      ensures Valid() && OnTrack(l, before, buf, stream, view)
      ensures Sound(l, old(view)) && view == Reopened(l, old(view), release)
    {
      ClearedAll(release.before0, before, buf, stream);
      TrackMove(l, before, buf, stream, view, Reopen);
      ReopenTest(0);
      ClearedAll(release.before1, before, buf, stream);
      TrackMove(l, before, buf, stream, view, Reopen);
      ReopenTest(1);
    }

    method ClearedAll(slots: set<Index>, ghost before: Producer, ghost buf: seq<byte>, ghost stream: seq<byte>)
      requires Valid() && view.pc.Reopening? && OnTrack(l, before, buf, stream, view)
      modifies this
      ensures Valid() && OnTrack(l, before, buf, stream, view)
      ensures view == FlagsCleared(old(view), slots)
    {
      if 0 in slots && bufFlag[0] == Sealed {
        TrackClear(l, before, buf, stream, view, 0);
        ClearFlag(0);
      }
      if 1 in slots && bufFlag[1] == Sealed {
        TrackClear(l, before, buf, stream, view, 1);
        ClearFlag(1);
      }
    }

    /** A round that stores all that is left; the slot is sealed if that completes the file. */
    method LastRound(k: Index, buf: seq<byte>, partly: bool, counters: Counters,
                     ghost before: Producer, ghost stream: seq<byte>, ghost full: seq<nat>, ghost left: seq<Release>)
      requires Valid() && CanMove(l, view, Fill) && view.fragment == buf && view.split == partly && k == view.OpenSlot()
      requires OnTrack(l, before, buf, stream, view) && CountedSince(before, counters, full)
      requires bufSize[k] + |buf| <= l.cap
      modifies this, inBuf0, inBuf1, counters
      ensures Valid() && OnTrack(l, before, buf, stream, view) && CountedSince(before, counters, full) && view.pc.Idle?
      ensures Sound(l, old(view)) && PlayedOut(l, old(view), left) == view
    {
      TrackMove(l, before, buf, stream, view, Fill);
      PlayedStored(l, view, left);
      var ended := StoreRest(k, buf, partly);
      if ended {
        SealTracked(counters, k, before, buf, stream, full);
      }
    }

    /** A round whose fragment does not fit: the slot is filled, sealed and counted, and the tests follow. */
    method OverflowRound(k: Index, buf: seq<byte>, release: Release, counters: Counters,
                         ghost before: Producer, ghost stream: seq<byte>, ghost full: seq<nat>, ghost left: seq<Release>)
      requires release == NextRelease(left)
      requires Valid() && CanMove(l, view, Fill) && view.fragment == buf && k == view.OpenSlot()
      requires OnTrack(l, before, buf, stream, view) && CountedSince(before, counters, full)
      requires bufSize[k] + |buf| > l.cap
      modifies this, inBuf0, inBuf1, counters
      ensures Valid() && OnTrack(l, before, buf, stream, view) && CountedSince(before, counters, full)
      ensures !old(view.split) && view.pc.Loop? && view.fragment == buf && view.split
      ensures Sound(l, old(view)) && PlayedOut(l, old(view), left) == PlayedOut(l, view, Later(left))
    {
      TrackMove(l, before, buf, stream, view, Fill);
      PlayedOverflow(l, view, left);
      StorePart(k, buf);
      SealAndReopen(counters, k, release, before, buf, stream, full);
    }

    /** One round with a slot to write to; `done` when the fragment is stored. */
    method StoreRound(k: Index, buf: seq<byte>, partly: bool, release: Release, counters: Counters,
                      ghost before: Producer, ghost stream: seq<byte>, ghost full: seq<nat>, ghost left: seq<Release>)
      returns (done: bool)
      requires release == NextRelease(left)
      requires Valid() && CanMove(l, view, Fill) && view.fragment == buf && view.split == partly && k == view.OpenSlot()
      requires OnTrack(l, before, buf, stream, view) && CountedSince(before, counters, full)
      modifies this, inBuf0, inBuf1, counters
      ensures Valid() && OnTrack(l, before, buf, stream, view) && CountedSince(before, counters, full)
      ensures if done then view.pc.Idle? else !partly && view.pc.Loop? && view.fragment == buf && view.split
      ensures Sound(l, old(view)) && PlayedOut(l, old(view), left) == if done then view else PlayedOut(l, view, Later(left))
    {
      if bufSize[k] + |buf| > l.cap {
        OverflowRound(k, buf, release, counters, before, stream, full, left);
        return false;
      }
      LastRound(k, buf, partly, counters, before, stream, full, left);
      return true;
    }

    /** One round without: sleep, then the reopen tests. */
    method WaitRound(release: Release, counters: Counters, ghost before: Producer, ghost buf: seq<byte>,
                     ghost stream: seq<byte>, ghost full: seq<nat>, ghost left: seq<Release>)
      requires left != [] && release == left[0]
      requires Valid() && CanMove(l, view, Wait)
      requires OnTrack(l, before, buf, stream, view) && CountedSince(before, counters, full)
      modifies this
      ensures Valid() && OnTrack(l, before, buf, stream, view) && CountedSince(before, counters, full)
      ensures view.pc.Loop? && view.fragment == old(view.fragment) && view.split == old(view.split)
      ensures Sound(l, old(view)) && PlayedOut(l, old(view), left) == PlayedOut(l, view, Later(left))
    {
      TrackMove(l, before, buf, stream, view, Wait);
      Sleep();
      ReopenTests(release, before, buf, stream);
    }

    /**
     * The call. `releases` is what the consumer does meanwhile, round by round. It returns exactly if the
     * fragment has room, or there is a slot to reopen, or one is given back in time; when the releases run
     * out with both slots taken the thread is still waiting and the method reports `false`.
     */
    method Write(buf: seq<byte>, releases: seq<Release>, counters: Counters, ghost stream: seq<byte>)
      returns (returned: bool)
      requires Valid() && CanMove(l, view, Feed(buf)) && |counters.full| == 2
      modifies this, inBuf0, inBuf1, counters
      ensures Valid() && OnTrack(l, old(view), buf, stream, view)
      ensures returned <==> Returns(l, old(view), |buf|, releases)
      ensures if returned then view.pc.Idle? else view.pc.Loop? && !view.HasOpen()
      ensures Sound(l, Moved(l, old(view), Feed(buf))) && view == PlayedOut(l, Moved(l, old(view), Feed(buf)), releases)
      ensures CountedSince(old(view), counters, old(counters.full))
    {
      ghost var before := view;
      TrackFeed(l, stream, view, buf);
      CallReturnsIff(l, view, buf, releases);
      BeginCall(buf);
      ghost var goal := PlayedOut(l, view, releases);
      var partly, round := false, 0;
      assert releases[0..] == releases;
      while true
        invariant Valid() && OnTrack(l, before, buf, stream, view)
        invariant view.pc.Loop? && view.fragment == buf && view.split == partly && round <= |releases|
        invariant CountedSince(before, counters, old(counters.full))
        invariant PlayedOut(l, view, releases[round..]) == goal
        decreases if partly then 0 else 1, |releases| - round
      {
        var release := if round < |releases| then releases[round] else Release({}, {});
        ghost var left := releases[round..];
        if bufFlag[0] == Writable || bufFlag[1] == Writable {
          var k: Index := if bufFlag[0] == Writable then 0 else 1;
          var done := StoreRound(k, buf, partly, release, counters, before, stream, old(counters.full), left);
          if done {
            return true;
          }
          partly := true;
        } else {
          if round == |releases| {
            return false;
          }
          WaitRound(release, counters, before, buf, stream, old(counters.full), left);
        }
        round := if round < |releases| then round + 1 else round;
        assert releases[round..] == Later(left);
      }
    }
  }

  /**
   * Since `before`, exactly `buf` has come in, nothing sealed has been undone, and if the peer has
   * sent `stream` so far, the chunks are still `stream` cut at the capacity.
   */
  ghost predicate OnTrack(l: Limits, before: Producer, buf: seq<byte>, stream: seq<byte>, p: Producer) {
    && p.fed == before.fed + buf && before.sealed <= p.sealed
    && (l.cap > 0 && l.size > 0 && FullChunks(l, stream, before) && MoveDelivers(l, stream, before, Feed(buf))
        ==> FullChunks(l, stream, p))
  }

  lemma TrackFeed(l: Limits, stream: seq<byte>, p: Producer, buf: seq<byte>)
    requires Sound(l, p) && CanMove(l, p, Feed(buf))
    ensures OnTrack(l, p, buf, stream, Moved(l, p, Feed(buf)))
  {
    if l.cap > 0 && l.size > 0 && FullChunks(l, stream, p) && MoveDelivers(l, stream, p, Feed(buf)) {
      MoveKeepsFullChunks(l, stream, p, Feed(buf));
    }
  }

  lemma TrackMove(l: Limits, before: Producer, buf: seq<byte>, stream: seq<byte>, p: Producer, m: Move)
    requires Sound(l, p) && CanMove(l, p, m) && !m.Feed? && OnTrack(l, before, buf, stream, p)
    ensures OnTrack(l, before, buf, stream, Moved(l, p, m))
  {
    if l.cap > 0 && l.size > 0 && FullChunks(l, stream, p) {
      MoveKeepsFullChunks(l, stream, p, m);
    }
    assert before.sealed <= p.sealed;
  }

  lemma TrackClear(l: Limits, before: Producer, buf: seq<byte>, stream: seq<byte>, p: Producer, k: Index)
    requires Sound(l, p) && p.Settled(k) && OnTrack(l, before, buf, stream, p)
    ensures OnTrack(l, before, buf, stream, Cleared(p, k))
  {
    if FullChunks(l, stream, p) {
      RewriteKeepsFullChunks(l, stream, p, k, p.Get(k).(flag := Empty));
    }
  }

  lemma SealAddsOne(l: Limits, p: Producer)
    requires Bounded(l, p) && CanMove(l, p, Seal)
    ensures forall k: Index :: |InSlot(Moved(l, p, Seal).sealed, k)| ==
              |InSlot(p.sealed, k)| + if k == p.pc.slot then 1 else 0
  {
    var q := Moved(l, p, Seal);
    assert q.sealed[..|p.sealed|] == p.sealed;
  }
}
