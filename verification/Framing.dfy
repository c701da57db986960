/** Message reassembly on one connection: what reaches `write_buf`, and what is replied. */
module Framing {
  import opened Bytes
  import opened Header

  const MAXLINE := 2048000
  const READ_BUF_SIZE := 100 * 1024 * 1024

  /** What `recv` returns; no bytes means the peer has closed. */
  datatype Recv = RecvError | Data(bytes: seq<byte>)

  datatype Reply = Stored(value: nat) | ReadFailed

  /** `fed` are the fragments passed on; `broken` marks a length the copies cannot cope with. */
  datatype Wire = Wire(
    writing: bool, index: nat, total: nat,
    fed: seq<seq<byte>>, replies: seq<Reply>,
    closed: bool, failed: bool, broken: bool
  )

  const IDLE := Wire(false, 0, 0, [], [], false, false, false)

  /** One readable event. */
  function Received(w: Wire, r: Recv): Wire {
    match r
    case RecvError => w.(closed := true, failed := true)
    case Data(bytes) =>
      if w.writing then Continued(w, bytes)
      else if bytes == [] then w.(closed := true)
      else Begun(w, bytes)
  }

  /** The first read of a message. The buffer is zeroed before each read, so a short one has command 0. */
  function Begun(w: Wire, bytes: seq<byte>): Wire {
    if |bytes| <= COMMAND_AT || bytes[COMMAND_AT] != CMD_WRITE then w
    else if |bytes| < CMD_LEN then w.(broken := true)
    else
      var payload := bytes[CMD_LEN..];
      var t := w.(fed := w.fed + [payload]);
      if |payload| >= DataLen(bytes) then t.(writing := false, replies := w.replies + [Stored(DataLen(bytes))])
      else t.(writing := true, index := |payload|, total := DataLen(bytes))
  }

  /** A later read. */
  function Continued(w: Wire, bytes: seq<byte>): Wire {
    if bytes == [] then w.(writing := false, replies := w.replies + [ReadFailed])
    else
      var t := w.(fed := w.fed + [bytes]);
      if w.total <= |bytes| + w.index then
        t.(writing := false, index := 0, total := 0, replies := w.replies + [Stored(w.total)])
      else t.(index := w.index + |bytes|)
  }

  /** After the connection was closed there are no more events, and after a broken length nothing can be said. */
  predicate Shut(w: Wire) {
    w.closed || w.broken
  }

  function Event(w: Wire, r: Recv): Wire {
    if Shut(w) then w else Received(w, r)
  }

  /** All events of a connection, from the start. */
  function Events(events: seq<Recv>): Wire {
    if events == [] then IDLE else Event(Events(events[..|events| - 1]), events[|events| - 1])
  }

  function ReceivedAll(w: Wire, pieces: seq<seq<byte>>): Wire
    decreases |pieces|
  {
    if pieces == [] then w else ReceivedAll(Received(w, Data(pieces[0])), pieces[1..])
  }

  // ----- The event handler's own state -----

  class Connection {
    var writeState: int
    var writeIndex: nat
    var writeTotalSize: nat
    var fed: seq<seq<byte>>
    var replies: seq<Reply>
    var closed: bool
    var failed: bool
    var broken: bool
    /** How often the early return has freed the file's two buffers. */
    var releases: nat

    constructor ()
      ensures Valid() && View() == IDLE && releases == 0
    {
      writeState, writeIndex, writeTotalSize := 0, 0, 0;
      fed, replies := [], [];
      closed, failed, broken, releases := false, false, false, 0;
    }

    ghost predicate Valid()
      reads this
    {
      writeState == 0 || writeState == 1
    }

    ghost function View(): Wire
      reads this
    {
      Wire(writeState == 1, writeIndex, writeTotalSize, fed, replies, closed, failed, broken)
    }

    /** `over`: the transfer has ended or failed, and nothing is received. */
    method OnReadable(r: Recv, over: bool)
      requires Valid()
      modifies this
      ensures Valid()
      ensures View() == if over then old(View()) else Event(old(View()), r)
      ensures releases == old(releases) + if over && !old(closed) && !old(broken) then 1 else 0
    {
      if closed || broken {
        return;
      }
      if over {
        releases := releases + 1;
        return;
      }
      var ret := if r.RecvError? then -1 else |r.bytes|;
      if ret == 0 && writeState == 0 {
        closed := true;
        return;
      }
      if ret < 0 {
        closed, failed := true, true;
        return;
      }
      if writeState == 0 {
        var command: byte := if ret > COMMAND_AT then r.bytes[COMMAND_AT] else 0;
        if command == CMD_WRITE {
          if ret < CMD_LEN {
            broken := true;
          } else {
            var dataLen := DataLen(r.bytes);
            fed := fed + [r.bytes[CMD_LEN..]];
            if ret - CMD_LEN >= dataLen {
              writeState := 0;
              replies := replies + [Stored(dataLen)];
            } else {
              writeState := 1;
              writeIndex := ret - CMD_LEN;
              writeTotalSize := dataLen;
            }
          }
        }
      } else if ret <= 0 {
        writeState := 0;
        replies := replies + [ReadFailed];
      } else {
        fed := fed + [r.bytes];
        if writeTotalSize <= ret + writeIndex {
          replies := replies + [Stored(writeTotalSize)];
          writeIndex, writeState, writeTotalSize := 0, 0, 0;
        } else {
          writeIndex := writeIndex + ret;
        }
      }
    }
  }

  // ----- Errors, ends, and what is none of its business -----

  /** The events before event `n` have not ended the connection. */
  ghost predicate StillOpen(events: seq<Recv>, n: nat) {
    n < |events| && !Shut(Events(events[..n]))
  }

  lemma Earlier(events: seq<Recv>, n: nat)
    requires events != [] && n < |events| - 1
    ensures events[..|events| - 1][..n] == events[..n] && events[..|events| - 1][n] == events[n]
  {
  }

  /** Event `n` is a failing read. */
  ghost predicate ReadFails(events: seq<Recv>, n: nat) {
    StillOpen(events, n) && events[n].RecvError?
  }

  /** Event `n` is an empty read outside any message: the peer has closed. */
  ghost predicate PeerCloses(events: seq<Recv>, n: nat) {
    StillOpen(events, n) && events[n] == Data([]) && !Events(events[..n]).writing
  }

  /** Event `n` is an empty read inside a message. */
  ghost predicate EmptyInside(events: seq<Recv>, n: nat) {
    StillOpen(events, n) && events[n] == Data([]) && Events(events[..n]).writing
  }

  /** The error flag is set if and only if a read failed while the connection was open. */
  lemma {:induction false} FailedIff(events: seq<Recv>)
    ensures Events(events).failed <==> exists n: nat :: ReadFails(events, n)
  {
    if events != [] {
      var last := |events| - 1;
      FailedIff(events[..last]);
      forall n: nat | n < last ensures ReadFails(events, n) <==> ReadFails(events[..last], n) { Earlier(events, n); }
      assert ReadFails(events, last) <==> !Shut(Events(events[..last])) && events[last].RecvError?;
      if n: nat :| ReadFails(events[..last], n) { assert ReadFails(events, n); }
    }
  }

  /** The connection is closed if and only if the peer closed it, or a read failed. */
  lemma {:induction false} ClosedIff(events: seq<Recv>)
    ensures Events(events).closed <==> Events(events).failed || exists n: nat :: PeerCloses(events, n)
  {
    if events != [] {
      var last := |events| - 1;
      ClosedIff(events[..last]);
      forall n: nat | n < last ensures PeerCloses(events, n) <==> PeerCloses(events[..last], n) { Earlier(events, n); }
      assert PeerCloses(events, last) <==>
             !Shut(Events(events[..last])) && events[last] == Data([]) && !Events(events[..last]).writing;
      if n: nat :| PeerCloses(events[..last], n) { assert PeerCloses(events, n); }
    }
  }

  ghost function EmptyReads(events: seq<Recv>): set<nat> {
    set n: nat | n < |events| && EmptyInside(events, n)
  }

  ghost function Failures(replies: seq<Reply>): set<nat> {
    set n: nat | n < |replies| && replies[n] == ReadFailed
  }

  lemma OneMoreReply(replies: seq<Reply>, r: Reply)
    ensures |Failures(replies + [r])| == |Failures(replies)| + if r == ReadFailed then 1 else 0
  {
    var n := |replies|;
    assert Failures(replies + [r]) == if r == ReadFailed then Failures(replies) + {n} else Failures(replies);
  }

  lemma OneMoreEvent(events: seq<Recv>)
    requires events != []
    ensures |EmptyReads(events)| == |EmptyReads(events[..|events| - 1])| + if EmptyInside(events, |events| - 1) then 1 else 0
  {
    var last := |events| - 1;
    forall n: nat | n < last ensures EmptyInside(events, n) <==> EmptyInside(events[..last], n) { Earlier(events, n); }
    assert EmptyReads(events) ==
           if EmptyInside(events, last) then EmptyReads(events[..last]) + {last} else EmptyReads(events[..last]);
  }

  /** There is one error reply for each empty read inside a message, and no other. */
  lemma {:induction false} FailuresReplied(events: seq<Recv>)
    ensures |Failures(Events(events).replies)| == |EmptyReads(events)|
  {
    if events != [] {
      var last := |events| - 1;
      var w, t := Events(events[..last]), Events(events);
      FailuresReplied(events[..last]);
      OneMoreEvent(events);
      NewReplies(w, events[last]);
      if t.replies != w.replies { OneMoreReply(w.replies, t.replies[|w.replies|]); }
    }
  }

  /** An event brings at most one reply: an error reply exactly for an empty read inside a message. */
  lemma NewReplies(w: Wire, r: Recv)
    ensures var t, failure := Event(w, r), r == Data([]) && w.writing && !Shut(w);
            || (t.replies == w.replies && !failure)
            || (|t.replies| > |w.replies| && t.replies == w.replies + [t.replies[|w.replies|]]
                && (t.replies[|w.replies|] == ReadFailed <==> failure))
  {
  }

  /** After it, the message is given up: what comes next is read as a new one. */
  lemma MessageGivenUp(w: Wire)
    requires w.writing && !Shut(w)
    ensures Event(w, Data([])) == w.(writing := false, replies := w.replies + [ReadFailed])
  {
  }

  /** Commands other than a write are neither passed on nor answered, nor is a read too short to hold one. */
  lemma OtherCommandsIgnored(w: Wire, bytes: seq<byte>)
    requires !w.writing && bytes != [] && (|bytes| > COMMAND_AT ==> bytes[COMMAND_AT] != CMD_WRITE)
    ensures Event(w, Data(bytes)) == w
  {
  }

  // ----- Peers that keep messages apart -----

  datatype Message = Message(header: seq<byte>, payload: seq<byte>)

  /** The header is a write command's, its `data_len` the payload's length, its other fields whatever they are. */
  ghost predicate WriteMessage(m: Message) {
    exists c :: Announces(c, m)
  }

  ghost predicate Announces(c: WriteCommand, m: Message) {
    WellFormed(c) && c.command == CMD_WRITE && c.dataLen == |m.payload| && m.header == Packed(c)
  }

  /** What the receiver reads off the header is what makes it one. */
  lemma WriteHeader(m: Message)
    ensures WriteMessage(m) <==>
            |m.header| == CMD_LEN && m.header[COMMAND_AT] == CMD_WRITE && DataLen(m.header) == |m.payload|
  {
    if WriteMessage(m) {
      var c :| Announces(c, m);
      HeaderReadsBack(c);
    } else if |m.header| == CMD_LEN && m.header[COMMAND_AT] == CMD_WRITE && DataLen(m.header) == |m.payload| {
      HeaderWritesBack(m.header);
      assert Announces(Unpacked(m.header), m);
    }
  }

  /** The reads of one message: the whole header in the first, none empty, none past the end. */
  ghost predicate ReadsOf(m: Message, pieces: seq<seq<byte>>) {
    && pieces != [] && |pieces[0]| >= CMD_LEN
    && (forall i :: 0 <= i < |pieces| ==> pieces[i] != [])
    && Concat(pieces) == m.header + m.payload
  }

  lemma {:induction false} ConcatHead(parts: seq<seq<byte>>)
    requires parts != []
    ensures Concat(parts) == parts[0] + Concat(parts[1..])
    decreases |parts|
  {
    var n := |parts| - 1;
    if n == 0 {
      assert parts[..0] == [] && parts[1..] == [];
    } else {
      ConcatHead(parts[..n]);
      var rest := parts[1..];
      assert parts[..n][1..] == rest[..n - 1] && rest[n - 1] == parts[n];
      Associate(parts[0], Concat(rest[..n - 1]), parts[n]);
    }
  }

  lemma HeaderOf(m: Message, first: seq<byte>)
    requires WriteMessage(m) && |first| >= CMD_LEN && first <= m.header + m.payload
    ensures first[COMMAND_AT] == CMD_WRITE && DataLen(first) == |m.payload|
    ensures first[CMD_LEN..] <= m.payload
  {
    WriteHeader(m);
    assert first[..CMD_LEN] == m.header;
    assert first[DATA_LEN_AT..DATA_LEN_AT + 8] == m.header[DATA_LEN_AT..DATA_LEN_AT + 8];
  }

  lemma {:induction false} NonEmptyParts(parts: seq<seq<byte>>)
    requires forall i :: 0 <= i < |parts| ==> parts[i] != []
    ensures Concat(parts) == [] <==> parts == []
  {
  }

  /**
   * In the middle of a message: `write_state` is set exactly while payload is missing, and
   * `write_index` is the payload received.
   */
  ghost predicate Midway(w: Wire, m: Message, received: nat) {
    received < |m.payload| && w.writing && w.index == received && w.total == |m.payload|
  }

  /** Between `w` and `t`, `pieces` were passed on, which spell `bytes` and end message `m`. */
  ghost predicate Ends(w: Wire, t: Wire, pieces: seq<seq<byte>>, bytes: seq<byte>, m: Message) {
    && !t.writing && t.fed == w.fed + pieces && Concat(t.fed) == Concat(w.fed) + bytes
    && t.replies == w.replies + [Stored(|m.payload|)]
    && t.failed == w.failed && t.broken == w.broken && t.closed == w.closed
  }

  lemma EndsLater(w: Wire, next: Wire, t: Wire, first: seq<byte>, pieces: seq<seq<byte>>, bytes: seq<byte>, m: Message)
    requires next.fed == w.fed + [first] && Concat(next.fed) == Concat(w.fed) + first && next.replies == w.replies
    requires next.failed == w.failed && next.broken == w.broken && next.closed == w.closed
    requires Ends(next, t, pieces, bytes, m)
    ensures Ends(w, t, [first] + pieces, first + bytes, m)
  {
    Associate(w.fed, [first], pieces);
    Associate(Concat(w.fed), first, bytes);
  }

  /** The fragments a message is passed on in. */
  function Fragments(pieces: seq<seq<byte>>): seq<seq<byte>> {
    if pieces == [] || |pieces[0]| < CMD_LEN then [] else [pieces[0][CMD_LEN..]] + pieces[1..]
  }

  // ----- Reads of one message, and past its end -----

  /** The reads of one message, the last of which also brings `extra`, the start of whatever comes next. */
  ghost predicate ReadsPast(m: Message, pieces: seq<seq<byte>>, extra: seq<byte>) {
    && pieces != [] && |pieces[0]| >= CMD_LEN
    && Concat(pieces) == m.header + m.payload + extra
    && OnlyLastReaches(pieces, CMD_LEN + |m.payload|)
  }

  ghost predicate OnlyLastReaches(pieces: seq<seq<byte>>, n: nat) {
    forall k :: 1 <= k < |pieces| ==> pieces[k] != [] && |Concat(pieces[..k])| < n
  }

  lemma RestReaches(pieces: seq<seq<byte>>, n: nat)
    requires |pieces| > 1 && OnlyLastReaches(pieces, n)
    ensures |pieces[0]| < n && OnlyLastReaches(pieces[1..], n - |pieces[0]|)
  {
    var first, rest := pieces[0], pieces[1..];
    forall k | 0 <= k < |rest| ensures |Concat(rest[..k])| < n - |first| {
      ConcatHead(pieces[..k + 1]);
      assert pieces[..k + 1][1..] == rest[..k];
    }
    assert Concat(rest[..0]) == [];
  }

  /** A later read that does not reach the end, and one that does. */
  lemma LaterRead(w: Wire, m: Message, first: seq<byte>, received: nat)
    requires Midway(w, m, received) && first != []
    ensures var t := Received(w, Data(first));
            && t.fed == w.fed + [first] && Concat(t.fed) == Concat(w.fed) + first
            && (if received + |first| < |m.payload| then Midway(t, m, received + |first|) && t.replies == w.replies
                else !t.writing && t.replies == w.replies + [Stored(|m.payload|)])
            && t.failed == w.failed && t.broken == w.broken && t.closed == w.closed
  {
    ConcatAppend(w.fed, first);
  }

  lemma {:induction false} LaterPast(w: Wire, m: Message, pieces: seq<seq<byte>>, received: nat, extra: seq<byte>)
    requires Midway(w, m, received) && pieces != [] && pieces[0] != []
    requires Concat(pieces) == m.payload[received..] + extra && OnlyLastReaches(pieces, |m.payload| - received)
    ensures Ends(w, ReceivedAll(w, pieces), pieces, m.payload[received..] + extra, m)
    decreases |pieces|
  {
    var first, rest := pieces[0], pieces[1..];
    ConcatHead(pieces);
    LaterRead(w, m, first, received);
    if rest == [] {
      assert pieces == [first] && first + [] == first;
    } else {
      var got := received + |first|;
      RestReaches(pieces, |m.payload| - received);
      PastSplits(m.payload[received..], extra, first, Concat(rest));
      assert m.payload[received..][|first|..] == m.payload[got..];
      LaterPast(Received(w, Data(first)), m, rest, got, extra);
      EndsLater(w, Received(w, Data(first)), ReceivedAll(w, pieces), first, rest, m.payload[got..] + extra, m);
      assert pieces == [first] + rest;
    }
  }

  lemma PastSplits(a: seq<byte>, b: seq<byte>, first: seq<byte>, rest: seq<byte>)
    requires a + b == first + rest && |first| <= |a|
    ensures rest == a[|first|..] + b && a + b == first + (a[|first|..] + b)
  {
    assert (a + b)[|first|..] == a[|first|..] + b;
    assert (first + rest)[|first|..] == rest;
  }

  lemma PayloadPast(m: Message, extra: seq<byte>, first: seq<byte>, rest: seq<byte>)
    requires |m.header| == CMD_LEN <= |first| && m.header + m.payload + extra == first + rest
    ensures m.payload + extra == first[CMD_LEN..] + rest && first[..CMD_LEN] == m.header
  {
    assert (m.header + m.payload + extra)[CMD_LEN..] == m.payload + extra;
    assert (first + rest)[CMD_LEN..] == first[CMD_LEN..] + rest;
    assert (first + rest)[..CMD_LEN] == first[..CMD_LEN];
    assert (m.header + m.payload + extra)[..CMD_LEN] == m.header;
  }

  lemma FirstPast(w: Wire, m: Message, pieces: seq<seq<byte>>, extra: seq<byte>)
    requires WriteMessage(m) && ReadsPast(m, pieces, extra) && !w.writing
    ensures var t, start := Received(w, Data(pieces[0])), pieces[0][CMD_LEN..];
            && m.payload + extra == start + Concat(pieces[1..])
            && t.fed == w.fed + [start] && Concat(t.fed) == Concat(w.fed) + start
            && (if |pieces| == 1 then !t.writing && t.replies == w.replies + [Stored(|m.payload|)]
                else Midway(t, m, |start|) && t.replies == w.replies)
            && t.failed == w.failed && t.broken == w.broken && t.closed == w.closed
  {
    WriteHeader(m);
    var first := pieces[0];
    ConcatHead(pieces);
    PayloadPast(m, extra, first, Concat(pieces[1..]));
    assert first[DATA_LEN_AT..DATA_LEN_AT + 8] == m.header[DATA_LEN_AT..DATA_LEN_AT + 8] by {
      assert first[..CMD_LEN][DATA_LEN_AT..DATA_LEN_AT + 8] == first[DATA_LEN_AT..DATA_LEN_AT + 8];
    }
    assert first[COMMAND_AT] == first[..CMD_LEN][COMMAND_AT];
    ConcatAppend(w.fed, first[CMD_LEN..]);
    if |pieces| == 1 {
      assert pieces[1..] == [];
    } else {
      RestReaches(pieces, CMD_LEN + |m.payload|);
    }
  }

  /** A read past the end of a message: what it brings too much is passed on as payload. */
  lemma PastTheEnd(w: Wire, m: Message, pieces: seq<seq<byte>>, extra: seq<byte>)
    requires WriteMessage(m) && ReadsPast(m, pieces, extra) && !w.writing
    ensures Ends(w, ReceivedAll(w, pieces), Fragments(pieces), m.payload + extra, m)
  {
    FirstPast(w, m, pieces, extra);
    var first, rest := pieces[0], pieces[1..];
    var next, start := Received(w, Data(first)), first[CMD_LEN..];
    if rest == [] {
      assert start + [] == start && Fragments(pieces) == [start] && ReceivedAll(next, rest) == next;
    } else {
      RestReaches(pieces, CMD_LEN + |m.payload|);
      PastSplits(m.payload, extra, start, Concat(rest));
      LaterPast(next, m, rest, |start|, extra);
      EndsLater(w, next, ReceivedAll(next, rest), start, rest, m.payload[|start|..] + extra, m);
    }
  }

  /** So a message's payload is passed on unspoilt if and only if no read goes past its end. */
  lemma PayloadIff(w: Wire, m: Message, pieces: seq<seq<byte>>, extra: seq<byte>)
    requires WriteMessage(m) && ReadsPast(m, pieces, extra) && !w.writing
    ensures Concat(ReceivedAll(w, pieces).fed) == Concat(w.fed) + m.payload <==> extra == []
  {
    PastTheEnd(w, m, pieces, extra);
    assert |Concat(ReceivedAll(w, pieces).fed)| == |Concat(w.fed)| + |m.payload| + |extra|;
    if extra == [] { assert m.payload + extra == m.payload; }
  }

  lemma {:induction false} ConcatPrefixOf(parts: seq<seq<byte>>, n: nat)
    requires n <= |parts|
    ensures |Concat(parts)| == |Concat(parts[..n])| + |Concat(parts[n..])|
    decreases n
  {
    if n == 0 {
      assert parts[0..] == parts;
    } else {
      ConcatPrefixOf(parts, n - 1);
      ConcatHead(parts[n - 1..]);
      assert parts[n - 1..][1..] == parts[n..];
      assert parts[..n] == parts[..n - 1] + [parts[n - 1]];
      ConcatAppend(parts[..n - 1], parts[n - 1]);
    }
  }

  lemma PayloadSplits(m: Message, first: seq<byte>, rest: seq<byte>)
    requires |m.header| == CMD_LEN <= |first| && m.header + m.payload == first + rest
    ensures m.payload == first[CMD_LEN..] + rest
  {
    assert (m.header + m.payload)[CMD_LEN..] == m.payload;
    assert (first + rest)[CMD_LEN..] == first[CMD_LEN..] + rest;
  }

  /** If the pieces are no longer than `n` and none is empty, only the last reaches `n`. */
  lemma NothingPast(pieces: seq<seq<byte>>, n: nat)
    requires |Concat(pieces)| == n && forall i :: 0 <= i < |pieces| ==> pieces[i] != []
    ensures OnlyLastReaches(pieces, n)
  {
    forall k | 1 <= k < |pieces| ensures |Concat(pieces[..k])| < n {
      ConcatPrefixOf(pieces, k);
      NonEmptyParts(pieces[k..]);
    }
  }

  /** The later reads of a message bring the rest of the payload and one reply. */
  lemma LaterReads(w: Wire, m: Message, pieces: seq<seq<byte>>, received: nat)
    requires Midway(w, m, received) && Concat(pieces) == m.payload[received..]
    requires forall i :: 0 <= i < |pieces| ==> pieces[i] != []
    ensures Ends(w, ReceivedAll(w, pieces), pieces, m.payload[received..], m)
  {
    NonEmptyParts(pieces);
    NothingPast(pieces, |m.payload| - received);
    assert m.payload[received..] + [] == m.payload[received..];
    LaterPast(w, m, pieces, received, []);
  }

  /** A whole message, however it is split: its payload, and one reply that carries its length. */
  lemma OneMessage(w: Wire, m: Message, pieces: seq<seq<byte>>)
    requires WriteMessage(m) && ReadsOf(m, pieces) && !w.writing
    ensures Ends(w, ReceivedAll(w, pieces), Fragments(pieces), m.payload, m)
  {
    WriteHeader(m);
    NothingPast(pieces, CMD_LEN + |m.payload|);
    assert m.header + m.payload + [] == m.header + m.payload && m.payload + [] == m.payload;
    PastTheEnd(w, m, pieces, []);
  }

  // ----- Any number of messages -----

  function Flatten(splits: seq<seq<seq<byte>>>): seq<seq<byte>> {
    if splits == [] then [] else splits[0] + Flatten(splits[1..])
  }

  function Payloads(msgs: seq<Message>): seq<byte> {
    if msgs == [] then [] else msgs[0].payload + Payloads(msgs[1..])
  }

  function AllFragments(splits: seq<seq<seq<byte>>>): seq<seq<byte>> {
    if splits == [] then [] else Fragments(splits[0]) + AllFragments(splits[1..])
  }

  function Acknowledgements(msgs: seq<Message>): seq<Reply> {
    if msgs == [] then [] else [Stored(|msgs[0].payload|)] + Acknowledgements(msgs[1..])
  }

  lemma {:induction false} ReceivedAppend(w: Wire, a: seq<seq<byte>>, b: seq<seq<byte>>)
    ensures ReceivedAll(w, a + b) == ReceivedAll(ReceivedAll(w, a), b)
    decreases |a|
  {
    if a == [] {
      assert a + b == b;
    } else {
      ReceivedAppend(Received(w, Data(a[0])), a[1..], b);
      assert (a + b)[1..] == a[1..] + b;
    }
  }

  /** Any messages, any splits: the payloads in order, one reply each, and the connection idle again. */
  lemma {:induction false} Messages(w: Wire, msgs: seq<Message>, splits: seq<seq<seq<byte>>>)
    requires |splits| == |msgs| && !w.writing
    requires forall i :: 0 <= i < |msgs| ==> WriteMessage(msgs[i]) && ReadsOf(msgs[i], splits[i])
    ensures var t := ReceivedAll(w, Flatten(splits));
            && !t.writing && Concat(t.fed) == Concat(w.fed) + Payloads(msgs) && t.fed == w.fed + AllFragments(splits)
            && t.replies == w.replies + Acknowledgements(msgs)
            && t.failed == w.failed && t.broken == w.broken && t.closed == w.closed
    decreases |msgs|
  {
    if msgs != [] {
      OneMessage(w, msgs[0], splits[0]);
      var t := ReceivedAll(w, splits[0]);
      Messages(t, msgs[1..], splits[1..]);
      ReceivedAppend(w, splits[0], Flatten(splits[1..]));
      Associate(Concat(w.fed), msgs[0].payload, Payloads(msgs[1..]));
      Associate(w.fed, Fragments(splits[0]), AllFragments(splits[1..]));
      Associate(w.replies, [Stored(|msgs[0].payload|)], Acknowledgements(msgs[1..]));
    }
  }

  /** Part of a message read: either all its payload is in and the state is idle, or it is midway. */
  lemma {:induction false} PartOfMessage(w: Wire, m: Message, pieces: seq<seq<byte>>, n: nat)
    requires WriteMessage(m) && ReadsOf(m, pieces) && !w.writing && 1 <= n <= |pieces|
    ensures var t := ReceivedAll(w, pieces[..n]);
            var received := |Concat(pieces[..n])| - CMD_LEN;
            && received >= 0
            && (t.writing <==> n < |pieces|)
            && (t.writing ==> Midway(t, m, received))
    decreases n
  {
    WriteHeader(m);
    ConcatPrefixOf(pieces, n);
    if n == 1 {
      ConcatHead(pieces);
      HeaderOf(m, pieces[0]);
      assert pieces[..1] == [pieces[0]] && [pieces[0]][1..] == [];
      assert ReceivedAll(Received(w, Data(pieces[0])), []) == Received(w, Data(pieces[0]));
      ConcatHead(pieces[..1]);
      NonEmptyParts(pieces[1..]);
      assert |Concat(pieces)| == |m.header| + |m.payload|;
    } else {
      PartOfMessage(w, m, pieces, n - 1);
      assert pieces[..n] == pieces[..n - 1] + [pieces[n - 1]];
      ReceivedAppend(w, pieces[..n - 1], [pieces[n - 1]]);
      var before := ReceivedAll(w, pieces[..n - 1]);
      assert [pieces[n - 1]][1..] == [];
      assert ReceivedAll(before, [pieces[n - 1]]) == Received(before, Data(pieces[n - 1]));
      ConcatAppend(pieces[..n - 1], pieces[n - 1]);
      NonEmptyParts(pieces[n..]);
    }
  }

  lemma FirstPiece(pieces: seq<seq<byte>>, rest: seq<seq<byte>>, n: nat)
    requires n <= |pieces| + |rest|
    ensures (pieces + rest)[..n] == if n <= |pieces| then pieces[..n] else pieces + rest[..n - |pieces|]
  {
  }

  /** After `n` reads, `j` messages are complete and `k` reads of the next have come. */
  ghost predicate Moment(w: Wire, msgs: seq<Message>, splits: seq<seq<seq<byte>>>, n: nat, j: nat, k: nat)
    requires |splits| == |msgs| && n <= |Flatten(splits)|
  {
    var t := ReceivedAll(w, Flatten(splits)[..n]);
    && j <= |msgs| && (if j == |msgs| then k == 0 else k < |splits[j]|)
    && Flatten(splits)[..n] == Flatten(splits[..j]) + (if j == |msgs| then [] else splits[j][..k])
    && (t.writing <==> k > 0)
    && (k > 0 ==> |Concat(splits[j][..k])| >= CMD_LEN && Midway(t, msgs[j], |Concat(splits[j][..k])| - CMD_LEN))
  }

  lemma MomentLater(w: Wire, msgs: seq<Message>, splits: seq<seq<seq<byte>>>, n: nat, j: nat, k: nat)
    requires |splits| == |msgs| > 0 && |splits[0]| <= n <= |Flatten(splits)|
    requires Moment(ReceivedAll(w, splits[0]), msgs[1..], splits[1..], n - |splits[0]|, j, k)
    ensures Moment(w, msgs, splits, n, j + 1, k)
  {
    var later := Flatten(splits[1..])[..n - |splits[0]|];
    FirstPiece(splits[0], Flatten(splits[1..]), n);
    ReceivedAppend(w, splits[0], later);
    assert splits[..j + 1][1..] == splits[1..][..j] && splits[..j + 1][0] == splits[0];
    assert Flatten(splits[..j + 1]) == splits[0] + Flatten(splits[1..][..j]);
    Associate(splits[0], Flatten(splits[1..][..j]), if j + 1 == |msgs| then [] else splits[j + 1][..k]);
  }

  lemma MomentNow(w: Wire, msgs: seq<Message>, splits: seq<seq<seq<byte>>>, n: nat)
    requires |splits| == |msgs| > 0 && !w.writing && n < |splits[0]| && n <= |Flatten(splits)|
    requires WriteMessage(msgs[0]) && ReadsOf(msgs[0], splits[0])
    ensures Moment(w, msgs, splits, n, 0, n)
  {
    FirstPiece(splits[0], Flatten(splits[1..]), n);
    assert splits[..0] == [] && Flatten(splits[..0]) == [] && [] + splits[0][..n] == splits[0][..n];
    if n > 0 { PartOfMessage(w, msgs[0], splits[0], n); }
  }

  /**
   * At any moment of any messages, `write_state` is set exactly inside a message, and then `write_index`
   * is the payload of that message received so far and `write_total_size` its length.
   */
  lemma {:induction false} AnyMoment(w: Wire, msgs: seq<Message>, splits: seq<seq<seq<byte>>>, n: nat) returns (j: nat, k: nat)
    requires |splits| == |msgs| && !w.writing && n <= |Flatten(splits)|
    requires forall i :: 0 <= i < |msgs| ==> WriteMessage(msgs[i]) && ReadsOf(msgs[i], splits[i])
    ensures Moment(w, msgs, splits, n, j, k)
    decreases |msgs|
  {
    if msgs == [] {
      j, k := 0, 0;
    } else if n < |splits[0]| {
      j, k := 0, n;
      MomentNow(w, msgs, splits, n);
    } else {
      OneMessage(w, msgs[0], splits[0]);
      j, k := AnyMoment(ReceivedAll(w, splits[0]), msgs[1..], splits[1..], n - |splits[0]|);
      MomentLater(w, msgs, splits, n, j, k);
      j := j + 1;
    }
  }

  lemma {:induction false} NextPart(parts: seq<seq<byte>>, k: nat)
    requires k < |parts|
    ensures Concat(parts[..k]) + parts[k] <= Concat(parts)
    decreases |parts|
  {
    var n := |parts| - 1;
    if k < n {
      NextPart(parts[..n], k);
      assert parts[..n][..k] == parts[..k];
    }
  }

  /** From the start: the fragments passed on, and what they spell. */
  lemma FromIdle(msgs: seq<Message>, splits: seq<seq<seq<byte>>>)
    requires |splits| == |msgs| && forall i :: 0 <= i < |msgs| ==> WriteMessage(msgs[i]) && ReadsOf(msgs[i], splits[i])
    ensures ReceivedAll(IDLE, Flatten(splits)).fed == AllFragments(splits)
    ensures Concat(AllFragments(splits)) == Payloads(msgs)
  {
    Messages(IDLE, msgs, splits);
    assert IDLE.fed + AllFragments(splits) == AllFragments(splits);
    assert Concat(IDLE.fed) + Payloads(msgs) == Payloads(msgs);
  }

  /** Fragment by fragment, what reaches `write_buf` is the next piece of the concatenated payloads. */
  lemma FragmentsSpellPayloads(msgs: seq<Message>, splits: seq<seq<seq<byte>>>, k: nat)
    requires |splits| == |msgs| && forall i :: 0 <= i < |msgs| ==> WriteMessage(msgs[i]) && ReadsOf(msgs[i], splits[i])
    requires k < |ReceivedAll(IDLE, Flatten(splits)).fed|
    ensures var fed := ReceivedAll(IDLE, Flatten(splits)).fed;
            Concat(fed[..k]) + fed[k] <= Payloads(msgs) == Concat(fed)
  {
    FromIdle(msgs, splits);
    NextPart(AllFragments(splits), k);
  }

  /** Every fragment comes out of one read of at most MAXLINE bytes, well below a slot's capacity. */
  lemma {:induction false} FragmentsFit(w: Wire, pieces: seq<seq<byte>>)
    requires forall f :: f in w.fed ==> |f| <= MAXLINE
    requires forall i :: 0 <= i < |pieces| ==> |pieces[i]| <= MAXLINE
    ensures forall f :: f in ReceivedAll(w, pieces).fed ==> |f| <= MAXLINE < READ_BUF_SIZE
    decreases |pieces|
  {
    if pieces != [] { FragmentsFit(Received(w, Data(pieces[0])), pieces[1..]); }
  }
}
