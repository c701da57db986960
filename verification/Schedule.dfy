/**
 * The consumer's loop against a given schedule: before each of its accesses the other threads do what the
 * schedule lists, as far as they can. Which steps that makes, that every run can be had that way, and when
 * the loop returns.
 */
module Schedule {
  import opened Bytes
  import opened Slots
  import BufXor
  import opened Pipeline
  import opened Ending

  /** Where the loop is: the state, what the others will try before each coming access, what the file will take. */
  datatype Point = Point(state: Group, schedule: seq<seq<Action>>, accepts: seq<nat>)

  function Head<T>(lists: seq<seq<T>>): seq<T> {
    if lists == [] then [] else lists[0]
  }

  function Tail<T>(list: seq<T>): seq<T> {
    if list == [] then [] else list[1..]
  }

  // ----- One access -----

  /** The listed steps of other threads that can be made, in their order. */
  ghost function Made(l: Limits, s: Group, events: seq<Action>): (acts: seq<Action>)
    decreases |events|
  {
    if events == [] then []
    else if Enabled(l, s, events[0]) && !events[0].Consumer? then [events[0]] + Made(l, Next(l, s, events[0]), events[1..])
    else Made(l, s, events[1..])
  }

  ghost function Paused(l: Limits, s: Group, events: seq<Action>): (t: Group)
    ensures t.phase == s.phase && |t.files| == |s.files| && t.drains == s.drains
    decreases |events|
  {
    if events == [] then s
    else if Enabled(l, s, events[0]) && !events[0].Consumer? then
      OthersKeepPhase(l, s, events[0]);
      Paused(l, Next(l, s, events[0]), events[1..])
    else Paused(l, s, events[1..])
  }

  lemma OthersKeepPhase(l: Limits, s: Group, a: Action)
    requires Enabled(l, s, a) && !a.Consumer?
    ensures var t := Next(l, s, a); t.phase == s.phase && |t.files| == |s.files| && t.drains == s.drains
  {
  }

  /** How many bytes the file takes, if the consumer's step is the XOR call. */
  function Accepted(phase: Phase, accepts: seq<nat>): nat {
    if phase.Xoring? && accepts != [] then accepts[0] else 0
  }

  /** The others do what they can, then the consumer makes one step. */
  ghost function Access(l: Limits, p: Point): (q: Point)
    requires p.state.files != [] && !p.state.phase.Returned?
    ensures |q.state.files| == |p.state.files|
  {
    var s := Paused(l, p.state, Head(p.schedule));
    Point(Consumed(l, s, Accepted(s.phase, p.accepts)), Tail(p.schedule),
          if s.phase.Xoring? then Tail(p.accepts) else p.accepts)
  }

  ghost function AccessSteps(l: Limits, p: Point): seq<Action> {
    Made(l, p.state, Head(p.schedule)) + [Consumer(Accepted(p.state.phase, p.accepts))]
  }

  // ----- The loop -----

  /** The loop is over, or it is back at its head and the schedule has run out. */
  ghost predicate Stops(p: Point) {
    p.state.files == [] || p.state.phase.Returned? || (p.state.phase == Testing(0) && p.schedule == [])
  }

  /** How far the consumer is from the loop's head. */
  function StepsToHead(n: nat, phase: Phase): nat {
    match phase
    case Testing(k) => if k == 0 then 0 else n + 6
    case Xoring(_) => n + 5
    case Resetting(_) => n + 4
    case Clearing(_, next) => if next < n then n - next + 3 else 3
    case LoopTest => 2
    case Deciding => 1
    case Returned(_) => 0
  }

  lemma AccessFalls(l: Limits, p: Point)
    requires !Stops(p)
    ensures var q := Access(l, p);
            || |q.schedule| < |p.schedule|
            || (q.schedule == p.schedule && StepsToHead(|q.state.files|, q.state.phase) < StepsToHead(|p.state.files|, p.state.phase))
  {
  }

  /** The steps from here until the loop stops. */
  ghost function Play(l: Limits, p: Point): seq<Action>
    decreases |p.schedule|, StepsToHead(|p.state.files|, p.state.phase)
  {
    if Stops(p) then []
    else
      AccessFalls(l, p);
      AccessSteps(l, p) + Play(l, Access(l, p))
  }

  /** Where it stops. */
  ghost function End(l: Limits, p: Point): (q: Point)
    ensures Stops(q) && |q.state.files| == |p.state.files|
    decreases |p.schedule|, StepsToHead(|p.state.files|, p.state.phase)
  {
    if Stops(p) then p
    else
      AccessFalls(l, p);
      End(l, Access(l, p))
  }

  // ----- What is played is a run -----

  lemma {:induction false} RunsThen(l: Limits, s: Group, a: seq<Action>, b: seq<Action>)
    requires Runs(l, s, a) && Runs(l, After(l, s, a), b)
    ensures Runs(l, s, a + b) && After(l, s, a + b) == After(l, After(l, s, a), b)
    decreases |a|
  {
    if a == [] {
      assert a + b == b;
    } else {
      RunsThen(l, Next(l, s, a[0]), a[1..], b);
      assert (a + b)[1..] == a[1..] + b;
    }
  }

  lemma {:induction false} MadeRuns(l: Limits, s: Group, events: seq<Action>)
    ensures Runs(l, s, Made(l, s, events)) && After(l, s, Made(l, s, events)) == Paused(l, s, events)
    decreases |events|
  {
    if events != [] {
      if Enabled(l, s, events[0]) && !events[0].Consumer? {
        MadeRuns(l, Next(l, s, events[0]), events[1..]);
        assert Made(l, s, events)[1..] == Made(l, Next(l, s, events[0]), events[1..]);
      } else {
        MadeRuns(l, s, events[1..]);
      }
    }
  }

  lemma SingleStep(l: Limits, s: Group, a: Action)
    requires Enabled(l, s, a)
    ensures Runs(l, s, [a]) && After(l, s, [a]) == Next(l, s, a)
  {
    var t := Next(l, s, a);
    assert [a][1..] == [] && Runs(l, t, []) && After(l, t, []) == t;
  }

  lemma AccessRuns(l: Limits, p: Point)
    requires !Stops(p)
    ensures Runs(l, p.state, AccessSteps(l, p)) && After(l, p.state, AccessSteps(l, p)) == Access(l, p).state
  {
    MadeRuns(l, p.state, Head(p.schedule));
    var s, a := Paused(l, p.state, Head(p.schedule)), Consumer(Accepted(p.state.phase, p.accepts));
    SingleStep(l, s, a);
    RunsThen(l, p.state, Made(l, p.state, Head(p.schedule)), [a]);
  }

  lemma {:induction false} PlayRuns(l: Limits, p: Point)
    ensures Runs(l, p.state, Play(l, p)) && After(l, p.state, Play(l, p)) == End(l, p).state
    decreases |p.schedule|, StepsToHead(|p.state.files|, p.state.phase)
  {
    if !Stops(p) {
      AccessFalls(l, p);
      AccessRuns(l, p);
      PlayRuns(l, Access(l, p));
      RunsThen(l, p.state, AccessSteps(l, p), Play(l, Access(l, p)));
    }
  }

  // ----- Every run is played -----

  ghost predicate OthersOnly(acts: seq<Action>) {
    forall a :: a in acts ==> !a.Consumer?
  }

  /** What the others can do as listed, they do. */
  lemma {:induction false} MadeAsListed(l: Limits, s: Group, events: seq<Action>)
    requires Runs(l, s, events) && OthersOnly(events)
    ensures Made(l, s, events) == events && Paused(l, s, events) == After(l, s, events)
    decreases |events|
  {
    if events != [] {
      assert events[0] in events;
      MadeAsListed(l, Next(l, s, events[0]), events[1..]);
    }
  }

  /** The number of bytes taken is a matter of the XOR call only. */
  ghost predicate Plain(l: Limits, s: Group, acts: seq<Action>)
    requires Runs(l, s, acts)
    decreases |acts|
  {
    acts != [] ==>
      && (acts[0].Consumer? && !s.phase.Xoring? ==> acts[0].accepted == 0)
      && Plain(l, Next(l, s, acts[0]), acts[1..])
  }

  /** The first step is put in front of the first access of the rest. */
  lemma EventInFront(l: Limits, s: Group, a: Action, q: Point) returns (p: Point)
    requires Enabled(l, s, a) && !a.Consumer? && q.state == Next(l, s, a) && q.schedule != [] && !Stops(q)
    ensures p.state == s && p.schedule != [] && !Stops(p)
    ensures Play(l, p) == [a] + Play(l, q)
  {
    OthersKeepPhase(l, s, a);
    p := Point(s, [[a] + q.schedule[0]] + q.schedule[1..], q.accepts);
    var events := [a] + q.schedule[0];
    assert events[1..] == q.schedule[0] && Head(p.schedule) == events && Tail(p.schedule) == Tail(q.schedule);
    assert Made(l, s, events) == [a] + Made(l, q.state, q.schedule[0]);
    assert Paused(l, s, events) == Paused(l, q.state, q.schedule[0]);
    assert AccessSteps(l, p) == [a] + AccessSteps(l, q) && Access(l, p) == Access(l, q);
  }

  /** An access with nobody coming in, then the rest. */
  lemma AccessInFront(l: Limits, s: Group, a: Action, q: Point) returns (p: Point)
    requires Enabled(l, s, a) && a.Consumer? && (!s.phase.Xoring? ==> a.accepted == 0) && q.state == Next(l, s, a)
    ensures p.state == s && p.schedule != [] && !Stops(p)
    ensures Play(l, p) == [a] + Play(l, q)
  {
    p := Point(s, [[]] + q.schedule, if s.phase.Xoring? then [a.accepted] + q.accepts else q.accepts);
    assert Head(p.schedule) == [] && Tail(p.schedule) == q.schedule;
    assert Accepted(s.phase, p.accepts) == a.accepted;
    assert s.phase.Xoring? ==> Tail(p.accepts) == q.accepts;
    assert AccessSteps(l, p) == [a] && Access(l, p) == q;
  }

  /**
   * Every run that ends with the consumer at the head of its loop, or returned, is what some schedule makes
   * of the loop.
   */
  lemma {:induction false} EveryRunIsPlayed(l: Limits, s: Group, acts: seq<Action>) returns (p: Point)
    requires Runs(l, s, acts) && Plain(l, s, acts) && acts != [] && acts[|acts| - 1].Consumer?
    requires var t := After(l, s, acts); t.phase == Testing(0) || t.phase.Returned?
    ensures p.state == s && p.schedule != [] && !Stops(p) && Play(l, p) == acts
    decreases |acts|
  {
    var a, rest := acts[0], acts[1..];
    var t := Next(l, s, a);
    if rest == [] {
      p := AccessInFront(l, s, a, Point(t, [], []));
    } else {
      assert rest[|rest| - 1] == acts[|acts| - 1];
      var q := EveryRunIsPlayed(l, t, rest);
      if a.Consumer? { p := AccessInFront(l, s, a, q); } else { p := EventInFront(l, s, a, q); }
    }
    assert acts == [a] + rest;
  }

  // ----- What the file takes -----

  /** The XOR calls from here on write as much as the file takes of each. */
  ghost predicate WritesAccepted(before: nat, drains: seq<Drain>, accepts: seq<nat>) {
    before <= |drains| && forall d :: before <= d < |drains| && drains[d].inputs != [] ==>
      drains[d].emitted == BufXor.XorOutcome(drains[d].inputs, if d - before < |accepts| then accepts[d - before] else 0).emitted
  }

  lemma AccessWrites(l: Limits, p: Point)
    requires !Stops(p)
    ensures var q := Access(l, p);
            if p.state.phase.Xoring? then
              |q.state.drains| == |p.state.drains| + 1 && q.accepts == Tail(p.accepts)
              && WritesAccepted(|p.state.drains|, q.state.drains, p.accepts)
            else q.state.drains == p.state.drains && q.accepts == p.accepts
  {
  }

  lemma DrainsKept(l: Limits, p: Point)
    requires !Stops(p)
    ensures p.state.drains <= Access(l, p).state.drains
  {
  }

  /** The d-th XOR call from here writes what the d-th number lets it. */
  lemma {:induction false} EndWrites(l: Limits, p: Point)
    ensures p.state.drains <= End(l, p).state.drains
    ensures WritesAccepted(|p.state.drains|, End(l, p).state.drains, p.accepts)
    decreases |p.schedule|, StepsToHead(|p.state.files|, p.state.phase)
  {
    if !Stops(p) {
      var q := Access(l, p);
      AccessFalls(l, p);
      AccessWrites(l, p);
      DrainsKept(l, p);
      EndWrites(l, q);
    }
  }

  // ----- When the loop returns -----

  /** The point after `n` accesses, if the loop gets that far. */
  ghost predicate GetsTo(l: Limits, p: Point, n: nat, q: Point)
    decreases n
  {
    if n == 0 then q == p else !Stops(p) && GetsTo(l, Access(l, p), n - 1, q)
  }

  lemma {:induction false} SameEnd(l: Limits, p: Point, n: nat, q: Point)
    requires GetsTo(l, p, n, q)
    ensures End(l, p) == End(l, q)
    decreases n
  {
    if n > 0 { SameEnd(l, Access(l, p), n - 1, q); }
  }

  /** No more fragments and no failures are listed. */
  ghost predicate Calm(schedule: seq<seq<Action>>) {
    forall r, a :: 0 <= r < |schedule| && a in schedule[r] ==> !a.PeerFails? && !(a.FileMoves? && a.move.Feed?)
  }

  lemma {:induction false} NobodyMoves(l: Limits, streams: seq<seq<byte>>, s: Group, events: seq<Action>)
    requires AllComplete(l, streams, s)
    requires forall a :: a in events ==> !a.PeerFails? && !(a.FileMoves? && a.move.Feed?)
    ensures Made(l, s, events) == [] && Paused(l, s, events) == s
    decreases |events|
  {
    if events != [] {
      assert events[0] in events;
      NobodyMoves(l, streams, s, events[1..]);
    }
  }

  lemma CalmAccess(l: Limits, streams: seq<seq<byte>>, p: Point)
    requires AllComplete(l, streams, p.state) && Calm(p.schedule) && !Stops(p)
    ensures Access(l, p).state == Consumed(l, p.state, Accepted(p.state.phase, p.accepts))
    ensures Access(l, p).schedule == Tail(p.schedule) && Calm(Tail(p.schedule))
  {
    NobodyMoves(l, streams, p.state, Head(p.schedule));
    assert forall r :: 0 <= r < |Tail(p.schedule)| ==> Tail(p.schedule)[r] == p.schedule[r + 1];
  }

  lemma {:induction false} PlaysToReturn(l: Limits, streams: seq<seq<byte>>, p: Point)
    requires AllComplete(l, streams, p.state) && Calm(p.schedule) && WillReturn(p.state)
    requires |p.schedule| >= EndWork(l, p.state)
    ensures End(l, p).state.phase.Returned?
    decreases |p.schedule|
  {
    if !p.state.phase.Returned? {
      EndStep(l, streams, p.state, Accepted(p.state.phase, p.accepts));
      CalmAccess(l, streams, p);
      PlaysToReturn(l, streams, Access(l, p));
    }
  }

  lemma {:induction false} PlaysInVain(l: Limits, streams: seq<seq<byte>>, p: Point)
    requires Undecided(l, streams, p.state) && Calm(p.schedule)
    ensures !End(l, p).state.phase.Returned?
    decreases |p.schedule|, StepsToHead(|p.state.files|, p.state.phase)
  {
    if !Stops(p) {
      AccessFalls(l, p);
      StaysUndecided(l, streams, p.state, Accepted(p.state.phase, p.accepts));
      CalmAccess(l, streams, p);
      PlaysInVain(l, streams, Access(l, p));
    }
  }

  /** From some access on every file is complete, nothing is listed but polls, and enough accesses are left. */
  ghost predicate Settles(l: Limits, streams: seq<seq<byte>>, p: Point, n: nat, q: Point) {
    && GetsTo(l, p, n, q) && AllComplete(l, streams, q.state) && Calm(q.schedule)
    && |q.schedule| >= EndWork(l, q.state)
  }

  /**
   * If the schedule leaves every file complete, with enough accesses to come, the loop returns if and only
   * if a fault is on record, or everything has been XORed, or all files have sealed equally many chunks into
   * each slot.
   */
  lemma LoopReturnsIff(l: Limits, streams: seq<seq<byte>>, p: Point, n: nat, q: Point)
    requires Settles(l, streams, p, n, q)
    ensures End(l, p).state.phase.Returned? <==> WillReturn(q.state)
  {
    SameEnd(l, p, n, q);
    if WillReturn(q.state) { PlaysToReturn(l, streams, q); } else { PlaysInVain(l, streams, q); }
  }
}
