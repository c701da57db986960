/**
 * From messages to fragments to streams: if each peer's messages spell its file, and what a thread gets
 * is what reassembly passes on, then the peers deliver.
 */
module Reception {
  import opened Bytes
  import opened Slots
  import opened Pipeline
  import Ordering
  import Delivery
  import Guarantees
  import opened Header
  import opened Framing

  /** Messages that spell `stream`, split into reads. */
  ghost predicate Spells(msgs: seq<Message>, splits: seq<seq<seq<byte>>>, stream: seq<byte>) {
    && |splits| == |msgs| && Payloads(msgs) == stream
    && forall i :: 0 <= i < |msgs| ==> WriteMessage(msgs[i]) && ReadsOf(msgs[i], splits[i])
  }

  /** The last message is not an empty one. */
  predicate EndsWithPayload(msgs: seq<Message>) {
    msgs != [] ==> msgs[|msgs| - 1].payload != []
  }

  /** From each fragment on, some byte is still to come. */
  ghost predicate Lasting(frags: seq<seq<byte>>) {
    forall j :: 0 <= j < |frags| ==> Concat(frags[j..]) != []
  }

  lemma {:induction false} ConcatPlus(a: seq<seq<byte>>, b: seq<seq<byte>>)
    ensures Concat(a + b) == Concat(a) + Concat(b)
    decreases |b|
  {
    if b == [] {
      assert a + b == a;
    } else {
      var n := |b| - 1;
      ConcatPlus(a, b[..n]);
      assert a + b == (a + b[..n]) + [b[n]];
      ConcatAppend(a + b[..n], b[n]);
      Associate(Concat(a), Concat(b[..n]), b[n]);
    }
  }

  lemma PiecesLast(m: Message, pieces: seq<seq<byte>>, j: nat)
    requires WriteMessage(m) && m.payload != [] && ReadsOf(m, pieces) && j < |Fragments(pieces)|
    ensures Concat(Fragments(pieces)[j..]) != []
  {
    if j == 0 {
      ConcatHead(pieces);
      PayloadSplits(m, pieces[0], Concat(pieces[1..]));
      ConcatHead(Fragments(pieces));
      assert Fragments(pieces)[0..] == Fragments(pieces) && Fragments(pieces)[1..] == pieces[1..];
    } else {
      assert Fragments(pieces)[j..] == pieces[j..];
      NonEmptyParts(pieces[j..]);
    }
  }

  /** An empty message is passed on as one empty fragment. */
  lemma EmptyMessage(m: Message, pieces: seq<seq<byte>>)
    requires WriteMessage(m) && m.payload == [] && ReadsOf(m, pieces)
    ensures Fragments(pieces) == [[]]
  {
    ConcatHead(pieces);
    assert |Concat(pieces)| == |pieces[0]| + |Concat(pieces[1..])|;
    NonEmptyParts(pieces[1..]);
    assert |Concat(pieces)| == CMD_LEN;
    assert Concat(pieces[1..]) == [] && pieces[1..] == [];
    assert Fragments(pieces) == [pieces[0][CMD_LEN..]] && pieces[0][CMD_LEN..] == [];
  }

  lemma MessageLasts(m: Message, pieces: seq<seq<byte>>)
    requires WriteMessage(m) && ReadsOf(m, pieces)
    ensures Fragments(pieces) != []
    ensures Lasting(Fragments(pieces)) <==> m.payload != []
  {
    if m.payload == [] {
      EmptyMessage(m, pieces);
      ConcatOne([]);
      assert Fragments(pieces)[0..] == [[]];
    } else {
      forall j | 0 <= j < |Fragments(pieces)| ensures Concat(Fragments(pieces)[j..]) != [] {
        PiecesLast(m, pieces, j);
      }
    }
  }

  /** What lasts is decided at the end. */
  lemma LastsThen(first: seq<seq<byte>>, rest: seq<seq<byte>>)
    requires rest != []
    ensures Lasting(first + rest) <==> Lasting(rest)
  {
    if Lasting(rest) {
      assert rest[0..] == rest;
      forall j | 0 <= j < |first + rest| ensures Concat((first + rest)[j..]) != [] {
        SuffixOf(first, rest, j);
        if j < |first| { ConcatPlus(first[j..], rest); }
      }
    }
    if Lasting(first + rest) {
      forall j | 0 <= j < |rest| ensures Concat(rest[j..]) != [] {
        SuffixOf(first, rest, |first| + j);
      }
    }
  }

  lemma SuffixOf<T>(a: seq<T>, b: seq<T>, j: nat)
    requires j <= |a + b|
    ensures (a + b)[j..] == if j < |a| then a[j..] + b else b[j - |a|..]
  {
  }

  /** Something is to come at every fragment if and only if the last message is not an empty one. */
  lemma {:induction false} FragmentsLast(msgs: seq<Message>, splits: seq<seq<seq<byte>>>, stream: seq<byte>)
    requires Spells(msgs, splits, stream)
    ensures msgs != [] ==> AllFragments(splits) != []
    ensures Lasting(AllFragments(splits)) <==> EndsWithPayload(msgs)
    decreases |msgs|
  {
    if msgs != [] {
      var first, rest := Fragments(splits[0]), AllFragments(splits[1..]);
      MessageLasts(msgs[0], splits[0]);
      FragmentsLast(msgs[1..], splits[1..], Payloads(msgs[1..]));
      if |msgs| == 1 {
        assert first + rest == first;
      } else {
        LastsThen(first, rest);
      }
    }
  }

  /** The fragments handed to file i's `write_buf` are the first of `frags[i]`, in order. */
  ghost predicate FeedsFrom(l: Limits, s: Group, acts: seq<Action>, frags: seq<seq<seq<byte>>>)
    requires Runs(l, s, acts)
    decreases |acts|
  {
    acts != [] ==>
      var a := acts[0];
      if a.FileMoves? && a.move.Feed? then
        && a.file < |frags| && frags[a.file] != [] && a.move.bytes == frags[a.file][0]
        && FeedsFrom(l, Next(l, s, a), acts[1..], frags[a.file := frags[a.file][1..]])
      else
        FeedsFrom(l, Next(l, s, a), acts[1..], frags)
  }

  /** What a file has been fed and what is still owed to it make up its stream. */
  ghost predicate Owed(streams: seq<seq<byte>>, s: Group, frags: seq<seq<seq<byte>>>) {
    && |s.files| == |streams| == |frags|
    && forall i :: 0 <= i < |streams| ==> Lasting(frags[i]) && streams[i] == s.files[i].fed + Concat(frags[i])
  }

  lemma FeedOwed(stream: seq<byte>, fed: seq<byte>, frags: seq<seq<byte>>)
    requires frags != [] && Lasting(frags) && stream == fed + Concat(frags)
    ensures |fed| < |stream| && fed + frags[0] <= stream
    ensures Lasting(frags[1..]) && stream == (fed + frags[0]) + Concat(frags[1..])
  {
    assert frags[0..] == frags;
    ConcatHead(frags);
    Associate(fed, frags[0], Concat(frags[1..]));
    forall j | 0 <= j < |frags[1..]| ensures Concat(frags[1..][j..]) != [] {
      assert frags[1..][j..] == frags[j + 1..];
    }
  }

  lemma MoveFeeds(l: Limits, p: Producer, m: Move)
    requires CanMove(l, p, m) && Bounded(l, p)
    ensures Moved(l, p, m).fed == p.fed + if m.Feed? then m.bytes else []
  {
  }

  /** Nothing but a new fragment adds to what was fed. */
  lemma FedOnlyByFeed(l: Limits, s: Group, a: Action)
    requires Enabled(l, s, a)
    ensures var t := Next(l, s, a);
            |t.files| == |s.files| && forall i :: 0 <= i < |s.files| ==>
              t.files[i].fed == s.files[i].fed + if a.FileMoves? && a.file == i && a.move.Feed? then a.move.bytes else []
  {
    match a
    case FileMoves(i, m) => MoveFeeds(l, s.files[i], m);
    case PeerFails(_) =>
    case Consumer(accepted) => Ordering.ConsumerLeavesThreads(l, s, accepted);
  }

  lemma {:induction false} FeedsDeliver(l: Limits, streams: seq<seq<byte>>, s: Group, acts: seq<Action>, frags: seq<seq<seq<byte>>>)
    requires Delivery.Streams(l, streams) && Owed(streams, s, frags) && Runs(l, s, acts) && FeedsFrom(l, s, acts, frags)
    ensures Guarantees.DeliversRun(l, streams, s, acts)
    decreases |acts|
  {
    if acts != [] {
      var a, t := acts[0], Next(l, s, acts[0]);
      FedOnlyByFeed(l, s, a);
      if a.FileMoves? && a.move.Feed? {
        FeedOwed(streams[a.file], s.files[a.file].fed, frags[a.file]);
        FeedsDeliver(l, streams, t, acts[1..], frags[a.file := frags[a.file][1..]]);
      } else {
        FeedsDeliver(l, streams, t, acts[1..], frags);
      }
    }
  }

  /** What reassembly passes on for each file. */
  function Reassembled(splits: seq<seq<seq<seq<byte>>>>): (r: seq<seq<seq<byte>>>)
    ensures |r| == |splits|
  {
    seq(|splits|, i requires 0 <= i < |splits| => ReceivedAll(IDLE, Flatten(splits[i])).fed)
  }

  lemma ReassembledLasts(msgs: seq<Message>, splits: seq<seq<seq<byte>>>, stream: seq<byte>)
    requires Spells(msgs, splits, stream) && EndsWithPayload(msgs)
    ensures var frags := ReceivedAll(IDLE, Flatten(splits)).fed; Lasting(frags) && Concat(frags) == stream
  {
    FromIdle(msgs, splits);
    FragmentsLast(msgs, splits, stream);
  }

  /** Peers whose messages spell the streams deliver them, whatever the splits and the schedule. */
  lemma MessagesDeliver(l: Limits, streams: seq<seq<byte>>, msgs: seq<seq<Message>>, splits: seq<seq<seq<seq<byte>>>>, acts: seq<Action>)
    requires Delivery.Streams(l, streams) && |msgs| == |splits| == |streams|
    requires forall i :: 0 <= i < |streams| ==> Spells(msgs[i], splits[i], streams[i]) && EndsWithPayload(msgs[i])
    requires Runs(l, Initial(|streams|), acts) && FeedsFrom(l, Initial(|streams|), acts, Reassembled(splits))
    ensures Guarantees.DeliversRun(l, streams, Initial(|streams|), acts)
  {
    var frags := Reassembled(splits);
    forall i | 0 <= i < |streams| ensures Lasting(frags[i]) && streams[i] == Concat(frags[i]) {
      ReassembledLasts(msgs[i], splits[i], streams[i]);
    }
    assert forall i :: 0 <= i < |streams| ==> [] + Concat(frags[i]) == Concat(frags[i]);
    FeedsDeliver(l, streams, Initial(|streams|), acts, frags);
  }

  /** From messages to parity: without an overtake the output is the XOR of what the messages spell. */
  lemma MessagesToParity(l: Limits, streams: seq<seq<byte>>, msgs: seq<seq<Message>>, splits: seq<seq<seq<seq<byte>>>>, acts: seq<Action>)
    requires Delivery.Streams(l, streams) && |msgs| == |splits| == |streams|
    requires forall i :: 0 <= i < |streams| ==> Spells(msgs[i], splits[i], streams[i]) && EndsWithPayload(msgs[i])
    requires Runs(l, Initial(|streams|), acts) && FeedsFrom(l, Initial(|streams|), acts, Reassembled(splits))
    requires Ordering.OvertakeFree(l, Initial(|streams|), acts)
    ensures SameLength(streams) && Guarantees.WritesInOrder(l, streams, After(l, Initial(|streams|), acts))
  {
    MessagesDeliver(l, streams, msgs, splits, acts);
    Guarantees.OrderlyOutput(l, streams, acts);
  }
}
