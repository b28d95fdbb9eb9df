/**
 * The write side of a connection. A response frame may carry a release to call
 * once its bytes no longer need to be held: after the write attempt, or when the
 * connection closes under it. Steps are the channel operations, the vectored
 * write and the single release calls, so the handler, the writer, Close and the
 * final drain interleave freely.
 */
module ConnReleases {
  import opened Sums

  type Rid = nat

  const QUEUE := 256

  datatype State = State(
    next: Rid,                 // releases handed to WriteFrames so far
    sending: Option<Rid>,      // the handler, past the closed check, not in the queue yet
    queue: seq<Rid>,
    writing: seq<Rid>,         // the writer's batch, releases still to call
    attempted: bool,           // the batch's write was attempted
    fired: seq<Rid>,           // releases called, in order
    written: set<Rid>,         // releases whose frame's write was attempted
    closed: bool,
    readerGone: bool,
    writerGone: bool)

  const EMPTY := State(0, None, [], [], false, [], {}, false, false, false)

  datatype Step =
    | WriteFrames
    | Enqueue
    | GiveUp
    | Close
    | Take(k: nat)
    | Attempt
    | Fire
    | ReaderExit
    | WriterExit
    | Drain

  predicate Enabled(s: State, step: Step) {
    match step
    case WriteFrames => !s.readerGone && s.sending.None?
    case Enqueue => s.sending.Some? && |s.queue| < QUEUE
    case GiveUp => s.sending.Some? && s.closed
    case Close => true
    case Take(k) => !s.writerGone && s.writing == [] && 0 < k <= |s.queue|
    case Attempt => s.writing != [] && !s.attempted
    case Fire => s.writing != [] && s.attempted
    case ReaderExit => s.sending.None?
    case WriterExit => s.writing == []
    case Drain => s.readerGone && s.writerGone && s.queue != []
  }

  function Elements(q: seq<Rid>): set<Rid> { set r | r in q }

  function Next(s: State, step: Step): State {
    if !Enabled(s, step) then s
    else
      match step
      case WriteFrames =>
        s.(next := s.next + 1, fired := if s.closed then s.fired + [s.next] else s.fired,
           sending := if s.closed then None else Some(s.next))
      case Enqueue => s.(queue := s.queue + [s.sending.value], sending := None)
      case GiveUp => s.(fired := s.fired + [s.sending.value], sending := None)
      case Close => s.(closed := true)
      case Take(k) => s.(writing := s.queue[..k], queue := s.queue[k..], attempted := false)
      case Attempt => s.(attempted := true, written := s.written + Elements(s.writing))
      case Fire => s.(fired := s.fired + [s.writing[0]], writing := s.writing[1..])
      case ReaderExit => s.(readerGone := true)
      case WriterExit => s.(writerGone := true, closed := true)
      case Drain => s.(fired := s.fired + [s.queue[0]], queue := s.queue[1..])
  }

  function Run(s: State, steps: seq<Step>): State
    decreases |steps|
  {
    if steps == [] then s else Run(Next(s, steps[0]), steps[1..])
  }

  // ---- counting -----------------------------------------------------------------------------------

  /** A release is in exactly one place: with the handler, queued, with the writer, or called. */
  ghost predicate Placed(s: State, r: Rid) {
    InHand(s.sending, r) + Occurs(s.queue, r) + Occurs(s.writing, r) + Occurs(s.fired, r) == if r < s.next then 1 else 0
  }

  ghost predicate Inv(s: State) {
    && (forall r: Rid :: Placed(s, r))
    && (s.attempted ==> forall r :: r in s.writing ==> r in s.written)
    && (forall r :: r in s.fired ==> r in s.written || s.closed)
    && (s.readerGone ==> s.sending.None?) && (s.writerGone ==> s.closed && s.writing == [])
  }

  lemma NextPlaced(s: State, step: Step, r: Rid)
    requires Placed(s, r) && (s.writerGone ==> s.writing == [])
    ensures Placed(Next(s, step), r)
  {
    hide Occurs, Elements;
    if Enabled(s, step) {
      match step
      case WriteFrames => OccursSnoc(s.fired, s.next, r);
      case Enqueue => OccursSnoc(s.queue, s.sending.value, r);
      case GiveUp => OccursSnoc(s.fired, s.sending.value, r);
      case Close =>
      case Take(k) =>
        OccursNever(r);
        OccursConcat(s.queue[..k], s.queue[k..], r);
        assert s.queue == s.queue[..k] + s.queue[k..];
      case Attempt =>
      case Fire =>
        OccursSnoc(s.fired, s.writing[0], r);
        OccursHead(s.writing, r);
      case ReaderExit =>
      case WriterExit =>
      case Drain =>
        OccursSnoc(s.fired, s.queue[0], r);
        OccursHead(s.queue, r);
    }
  }

  lemma NextInv(s: State, step: Step)
    requires Inv(s)
    ensures Inv(Next(s, step))
  {
    forall r: Rid ensures Placed(Next(s, step), r) {
      assert Placed(s, r);
      NextPlaced(s, step, r);
    }
    hide Placed, Occurs;
    var n := Next(s, step);
    if !Enabled(s, step) {
    } else if step.Attempt? {
      forall r | r in n.writing ensures r in n.written { assert r in Elements(s.writing); }
    } else {
    }
  }

  lemma {:induction false} RunInv(s: State, steps: seq<Step>)
    requires Inv(s)
    ensures Inv(Run(s, steps))
    decreases |steps|
  {
    hide Inv, Next;
    if steps == [] {
    } else {
      NextInv(s, steps[0]);
      RunInv(Next(s, steps[0]), steps[1..]);
    }
  }

  lemma Reachable(steps: seq<Step>)
    ensures Inv(Run(EMPTY, steps))
  {
    forall r: Rid ensures Placed(EMPTY, r) {}
    RunInv(EMPTY, steps);
  }

  // ---- what every run guarantees -----------------------------------------------------------------------

  /** No release is ever called twice, and none that was not handed over. */
  lemma NeverTwice(steps: seq<Step>, r: Rid)
    ensures var s := Run(EMPTY, steps); Occurs(s.fired, r) <= if r < s.next then 1 else 0
  {
    hide Run;
    Reachable(steps);
    assert Placed(Run(EMPTY, steps), r);
  }

  /** None is called before its frame's write was attempted or the connection was closed. */
  lemma NotTooEarly(steps: seq<Step>, r: Rid)
    requires r in Run(EMPTY, steps).fired
    ensures r in Run(EMPTY, steps).written || Run(EMPTY, steps).closed
  {
    hide Run;
    Reachable(steps);
  }

  /** Both loops have exited and the final drain found the queue empty. */
  predicate Finished(s: State) { s.readerGone && s.writerGone && s.queue == [] }

  /** When the connection is done, every release handed over was called exactly once. */
  lemma ExactlyOnceWhenDone(steps: seq<Step>, r: Rid)
    requires Finished(Run(EMPTY, steps))
    ensures var s := Run(EMPTY, steps); Occurs(s.fired, r) == if r < s.next then 1 else 0
  {
    hide Run;
    Reachable(steps);
    assert Placed(Run(EMPTY, steps), r);
  }

  /** And done is always within reach once both loops have exited: the drain empties the queue. */
  lemma {:induction false} DrainFinishes(s: State) returns (steps: seq<Step>)
    requires s.readerGone && s.writerGone
    ensures Finished(Run(s, steps)) && forall i :: 0 <= i < |steps| ==> steps[i] == Drain
    decreases |s.queue|
  {
    if s.queue == [] {
      steps := [];
    } else {
      var rest := DrainFinishes(Next(s, Drain));
      steps := [Drain] + rest;
      assert steps[0] == Drain && steps[1..] == rest;
    }
  }

  // ---- order ------------------------------------------------------------------------------------------

  function Upto(n: nat): seq<Rid> { seq(n, i => i) }

  function Hand(v: Option<Rid>): seq<Rid> { if v.Some? then [v.value] else [] }

  /** Called, being written, queued, with the handler: together the releases handed over, in order. */
  predicate InOrder(s: State) { !s.writerGone && s.fired + s.writing + s.queue + Hand(s.sending) == Upto(s.next) }

  lemma NextInOrder(s: State, step: Step)
    requires InOrder(s) && !Next(s, step).closed
    ensures InOrder(Next(s, step))
  {
    var n := Next(s, step);
    if Enabled(s, step) {
      match step
      case WriteFrames => assert Upto(s.next + 1) == Upto(s.next) + [s.next];
      case Enqueue => assert n.fired + n.writing + n.queue + Hand(n.sending) == s.fired + s.writing + s.queue + Hand(s.sending);
      case Take(k) =>
        assert s.writing == [];
        assert n.fired + n.writing + n.queue + Hand(n.sending) == s.fired + s.writing + s.queue + Hand(s.sending);
      case Fire => assert n.fired + n.writing + n.queue + Hand(n.sending) == s.fired + s.writing + s.queue + Hand(s.sending);
      case Attempt =>
      case ReaderExit =>
    }
  }

  lemma {:induction false} RunInOrder(s: State, steps: seq<Step>)
    requires InOrder(s) && !Run(s, steps).closed
    ensures InOrder(Run(s, steps)) && !s.closed
    decreases |steps|
  {
    hide InOrder;
    if steps == [] {
    } else {
      StaysClosed(Next(s, steps[0]), steps[1..]);
      NextInOrder(s, steps[0]);
      RunInOrder(Next(s, steps[0]), steps[1..]);
    }
  }

  lemma {:induction false} StaysClosed(s: State, steps: seq<Step>)
    ensures s.closed ==> Run(s, steps).closed
    decreases |steps|
  {
    if steps != [] { StaysClosed(Next(s, steps[0]), steps[1..]); }
  }

  /** Until the connection closes, releases are called in the order their frames were handed over, none skipped. */
  lemma CalledInOrder(steps: seq<Step>)
    requires !Run(EMPTY, steps).closed
    ensures var s := Run(EMPTY, steps); |s.fired| <= s.next && s.fired == Upto(|s.fired|)
  {
    hide Run;
    RunInOrder(EMPTY, steps);
    var s := Run(EMPTY, steps);
    var all := s.fired + s.writing + s.queue + Hand(s.sending);
    assert all[..|s.fired|] == s.fired;
    assert Upto(s.next)[..|s.fired|] == Upto(|s.fired|);
  }

  // ---- one frame, with nobody in between -------------------------------------------------------------

  /** On an idle open connection a frame is queued, written, and its release called; on a closed one it is called at once. */
  lemma FrameGoesOut(s: State)
    requires !s.readerGone && !s.writerGone && s.sending.None? && s.queue == [] && s.writing == []
    ensures s.closed ==> Next(s, WriteFrames) == s.(next := s.next + 1, fired := s.fired + [s.next])
    ensures !s.closed ==>
      var n := Next(Next(Next(Next(Next(s, WriteFrames), Enqueue), Take(1)), Attempt), Fire);
      n.fired == s.fired + [s.next] && n.written == s.written + {s.next} && n.queue == [] && n.writing == [] && n.sending.None?
  {
    if !s.closed {
      var a := Next(Next(s, WriteFrames), Enqueue);
      assert a == s.(next := s.next + 1, queue := [s.next]);
      var b := Next(a, Take(1));
      assert b == s.(next := s.next + 1, writing := [s.next], attempted := false);
      assert Elements([s.next]) == {s.next};
    }
  }
}
