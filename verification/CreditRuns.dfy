/**
 * One client and the server exchanging frames: the client's sends, the server's
 * receive, answer and flush, and both channels, in any interleaving. Sends are
 * not restricted, so conservation is proved for every client; that no frame is
 * ever refused is proved for clients that keep to their window.
 */
module CreditRuns {
  import opened Credit
  import opened Sums

  /** What HELLO negotiates, and the window before it. */
  datatype Terms = Terms(initial: nat, maxFrame: nat, preCap: nat)

  datatype Phase = Unopened | Greeting | Open
  datatype Request = Request(len: nat, hello: bool)
  datatype Reply = Reply(credit: nat, hello: bool)

  datatype State = State(
    phase: Phase,
    credit: int,
    c2s: seq<Request>,
    w: Window,
    handling: seq<Request>,
    outq: seq<bool>,
    s2c: seq<Reply>,
    closed: bool)

  function Init(t: Terms): State {
    State(Unopened, 0, [], Window(t.preCap, t.preCap, 0, 0, 0, 0, 0), [], [], [], false)
  }

  datatype Step =
    | Greet(n: nat)
    | Send(n: nat)
    | Receive
    | Answer(i: nat, replies: nat)
    | Flush(k: nat)
    | Tick
    | Deliver

  /** Over the frame cap: debited and granted back, no strike. Else the window rules. */
  function Admit(s: State): State
    requires s.c2s != []
  {
    var r := s.c2s[0];
    var v := Verdict(s.w, r.len);
    if r.len > s.w.maxFrame then
      s.(c2s := s.c2s[1..], w := Granted(Accounted(s.w, r.len), r.len), outq := s.outq + [false])
    else if v == ViolationNone then
      s.(c2s := s.c2s[1..], w := Consumed(s.w, r.len), handling := s.handling + [r])
    else
      s.(c2s := s.c2s[1..], w := Granted(Consumed(s.w, r.len), r.len),
         outq := if v == ViolationBusy then s.outq + [false] else s.outq, closed := v == ViolationFatal)
  }

  /** The handler is done with a frame's bytes; HELLO installs the negotiated window before it is answered. */
  function Respond(t: Terms, s: State, i: nat, replies: nat): State
    requires i < |s.handling|
  {
    var r := s.handling[i];
    var g := Granted(s.w, r.len);
    s.(handling := Without(s.handling, i),
       w := if r.hello then g.(window := t.initial, maxFrame := t.maxFrame) else g,
       outq := s.outq + if r.hello then [true] else seq(replies, _ => false))
  }

  /** One flush: the first header carries what is pending, the others nothing. */
  function Replies(first: nat, q: seq<bool>): seq<Reply> {
    seq(|q|, i requires 0 <= i < |q| => Reply(if i == 0 then first else 0, q[i]))
  }

  function Next(t: Terms, s: State, step: Step): State {
    match step
    case Greet(n) =>
      if s.phase.Unopened? && n <= t.preCap && n <= MAX_UINT32 then s.(phase := Greeting, c2s := s.c2s + [Request(n, true)]) else s
    case Send(n) =>
      if s.phase.Open? && n <= MAX_UINT32 then s.(credit := s.credit - n, c2s := s.c2s + [Request(n, false)]) else s
    case Receive => if s.c2s != [] && !s.closed then Admit(s) else s
    case Answer(i, replies) => if i < |s.handling| then Respond(t, s, i, replies) else s
    case Flush(k) =>
      if 0 < k <= |s.outq| then
        s.(s2c := s.s2c + Replies(Harvest(s.w), s.outq[..k]), outq := s.outq[k..], w := Harvested(s.w))
      else s
    case Tick =>
      if s.w.pending > 0 then s.(s2c := s.s2c + [Reply(Harvest(s.w), false)], w := Harvested(s.w)) else s
    case Deliver =>
      if s.s2c == [] then s
      else s.(s2c := s.s2c[1..], credit := if s.s2c[0].hello then t.initial else s.credit + s.s2c[0].credit,
              phase := if s.s2c[0].hello then Open else s.phase)
  }

  function Run(t: Terms, s: State, steps: seq<Step>): State
    decreases |steps|
  {
    if steps == [] then s else Run(t, Next(t, s, steps[0]), steps[1..])
  }

  // ---- totals -----------------------------------------------------------------------------------

  function Lens(q: seq<Request>): nat { if q == [] then 0 else q[0].len + Lens(q[1..]) }
  function Credits(q: seq<Reply>): nat { if q == [] then 0 else q[0].credit + Credits(q[1..]) }

  lemma {:induction false} LensConcat(a: seq<Request>, b: seq<Request>)
    ensures Lens(a + b) == Lens(a) + Lens(b)
    decreases |a|
  {
    if a == [] {
      assert a + b == b;
    } else {
      assert (a + b)[1..] == a[1..] + b;
      LensConcat(a[1..], b);
    }
  }

  lemma {:induction false} CreditsConcat(a: seq<Reply>, b: seq<Reply>)
    ensures Credits(a + b) == Credits(a) + Credits(b)
    decreases |a|
  {
    if a == [] {
      assert a + b == b;
    } else {
      assert (a + b)[1..] == a[1..] + b;
      CreditsConcat(a[1..], b);
    }
  }

  lemma LensSnoc(q: seq<Request>, r: Request)
    ensures Lens(q + [r]) == Lens(q) + r.len
  {
    LensConcat(q, [r]);
    assert Lens([r]) == r.len + Lens([r][1..]);
  }

  lemma LensWithout(q: seq<Request>, i: nat)
    requires i < |q|
    ensures Lens(q) == Lens(Without(q, i)) + q[i].len
  {
    assert q == q[..i] + ([q[i]] + q[i + 1..]);
    LensConcat(q[..i], [q[i]] + q[i + 1..]);
    LensConcat(q[..i], q[i + 1..]);
    assert ([q[i]] + q[i + 1..])[1..] == q[i + 1..];
  }

  lemma {:induction false} RepliesCarry(first: nat, q: seq<bool>)
    requires q != []
    ensures Credits(Replies(first, q)) == first
  {
    var rs := Replies(first, q);
    ZeroCredits(rs[1..]);
  }

  lemma {:induction false} ZeroCredits(rs: seq<Reply>)
    requires forall i :: 0 <= i < |rs| ==> rs[i].credit == 0
    ensures Credits(rs) == 0
    decreases |rs|
  {
    if rs != [] { ZeroCredits(rs[1..]); }
  }

  // ---- invariant ----------------------------------------------------------------------------------

  /** Where every byte of the initial credit is. */
  ghost function Located(s: State): int {
    s.credit + Lens(s.c2s) + s.w.outstanding + s.w.pending + Credits(s.s2c)
  }

  predicate NoHello(s: State) {
    && (forall i :: 0 <= i < |s.c2s| ==> !s.c2s[i].hello) && (forall i :: 0 <= i < |s.handling| ==> !s.handling[i].hello)
    && (forall i :: 0 <= i < |s.outq| ==> !s.outq[i]) && (forall i :: 0 <= i < |s.s2c| ==> !s.s2c[i].hello)
  }

  /** The server's outstanding bytes are those of the frames being handled, and its totals agree. */
  ghost predicate Ledger(s: State) {
    s.w.outstanding == Lens(s.handling) && s.w.consumed == s.w.granted + s.w.outstanding
  }

  /** Before any frame; HELLO sent; HELLO being handled; answered; its answer in flight. */
  predicate Quiet(s: State) { s.c2s == [] && s.handling == [] && s.outq == [] && s.s2c == [] && s.w.pending == 0 }
  predicate Sent(s: State) { |s.c2s| == 1 && s.c2s[0].hello && Quiet(s.(c2s := [])) && s.c2s[0].len <= MAX_UINT32 }
  predicate Handled(s: State) { |s.handling| == 1 && s.handling[0].hello && Quiet(s.(handling := [])) && s.handling[0].len <= MAX_UINT32 }
  predicate Answered(s: State) {
    s.c2s == [] && s.handling == [] && s.outq == [true] && s.w.pending <= MAX_UINT32 && forall i :: 0 <= i < |s.s2c| ==> !s.s2c[i].hello
  }
  predicate Returning(s: State) {
    && s.c2s == [] && s.handling == [] && s.outq == [] && s.w.pending == 0 && s.s2c != [] && s.s2c[|s.s2c| - 1].hello
    && forall i :: 0 <= i < |s.s2c| - 1 ==> !s.s2c[i].hello
  }

  ghost predicate Phased(t: Terms, s: State) {
    match s.phase
    case Unopened => Quiet(s) && !s.closed && s.w.window == t.preCap && s.w.maxFrame == t.preCap && s.w.strikes == 0
    case Greeting =>
      && !s.closed && s.w.strikes == 0
      && ((Sent(s) && s.c2s[0].len <= t.preCap && s.w.window == t.preCap && s.w.maxFrame == t.preCap)
          || Handled(s)
          || ((Answered(s) || Returning(s)) && s.w.window == t.initial && s.w.maxFrame == t.maxFrame))
    case Open => NoHello(s) && Located(s) == t.initial && s.w.window == t.initial && s.w.maxFrame == t.maxFrame
  }

  ghost predicate Inv(t: Terms, s: State) { Ledger(s) && Phased(t, s) }

  // ---- steps --------------------------------------------------------------------------------------

  lemma AdmitBooks(s: State)
    requires Ledger(s) && s.c2s != []
    ensures Ledger(Admit(s)) && Located(Admit(s)) == Located(s)
  {
    LensSnoc(s.handling, s.c2s[0]);
  }

  lemma RespondBooks(t: Terms, s: State, i: nat, replies: nat)
    requires Ledger(s) && i < |s.handling|
    ensures Ledger(Respond(t, s, i, replies)) && Located(Respond(t, s, i, replies)) == Located(s)
  {
    LensWithout(s.handling, i);
  }

  lemma FlushBooks(t: Terms, s: State, step: Step)
    requires step.Flush? || step.Tick?
    ensures Located(Next(t, s, step)) == Located(s)
  {
    if step.Flush? {
      if 0 < step.k <= |s.outq| {
        RepliesCarry(Harvest(s.w), s.outq[..step.k]);
        CreditsConcat(s.s2c, Replies(Harvest(s.w), s.outq[..step.k]));
      }
    } else if s.w.pending > 0 {
      CreditsConcat(s.s2c, [Reply(Harvest(s.w), false)]);
      assert Credits([Reply(Harvest(s.w), false)]) == Harvest(s.w);
    }
  }

  /** Every step but the client's opening keeps the located bytes in place. */
  lemma NextLocated(t: Terms, s: State, step: Step)
    requires Ledger(s)
    ensures Ledger(Next(t, s, step))
    ensures !step.Greet? && !(step.Deliver? && s.s2c != [] && s.s2c[0].hello) ==> Located(Next(t, s, step)) == Located(s)
  {
    hide Harvest, Granted, Consumed, Accounted;
    match step
    case Greet(n) =>
    case Send(n) => LensSnoc(s.c2s, Request(n, false));
    case Receive => if s.c2s != [] && !s.closed { AdmitBooks(s); }
    case Answer(i, replies) => if i < |s.handling| { RespondBooks(t, s, i, replies); }
    case Flush(k) => FlushBooks(t, s, step);
    case Tick => FlushBooks(t, s, step);
    case Deliver =>
  }

  lemma OpenKeeps(t: Terms, s: State, step: Step)
    requires Inv(t, s) && s.phase.Open?
    ensures Phased(t, Next(t, s, step))
  {
    hide Located;
    NextLocated(t, s, step);
    var n := Next(t, s, step);
    match step
    case Receive =>
    case Answer(i, replies) =>
    case Flush(k) =>
    case _ =>
  }

  lemma HandledKeeps(t: Terms, s: State, step: Step)
    requires Inv(t, s) && s.phase.Greeting? && Handled(s)
    ensures Phased(t, Next(t, s, step))
  {
  }

  /** Whatever was pending rides the HELLO answer or precedes it; nothing follows it until the client opens. */
  lemma AnsweredKeeps(t: Terms, s: State, step: Step)
    requires Inv(t, s) && s.phase.Greeting? && Answered(s)
    ensures Phased(t, Next(t, s, step))
  {
  }

  lemma ReturningKeeps(t: Terms, s: State, step: Step)
    requires Inv(t, s) && s.phase.Greeting? && Returning(s)
    ensures Phased(t, Next(t, s, step))
  {
  }

  lemma NextInv(t: Terms, s: State, step: Step)
    requires Inv(t, s)
    ensures Inv(t, Next(t, s, step))
  {
    NextLocated(t, s, step);
    hide Next, Located, Ledger, Quiet, NoHello;
    match s.phase
    case Unopened =>
    case Open => OpenKeeps(t, s, step);
    case Greeting =>
      if Sent(s) {}
      else if Handled(s) { HandledKeeps(t, s, step); }
      else if Answered(s) { AnsweredKeeps(t, s, step); }
      else { ReturningKeeps(t, s, step); }
  }

  lemma {:induction false} RunInv(t: Terms, s: State, steps: seq<Step>)
    requires Inv(t, s)
    ensures Inv(t, Run(t, s, steps))
    decreases |steps|
  {
    hide Inv, Next;
    if steps == [] {
    } else {
      NextInv(t, s, steps[0]);
      RunInv(t, Next(t, s, steps[0]), steps[1..]);
    }
  }

  // ---- conservation ---------------------------------------------------------------------------------

  /**
   * Once the HELLO answer has opened the window, and whatever the client sends:
   * the initial credit is the window plus the request bytes in flight plus what
   * the server has outstanding plus what it has pending plus the grants in
   * flight. The server's totals differ by exactly what it is still handling.
   */
  lemma CreditConserved(t: Terms, steps: seq<Step>)
    requires Run(t, Init(t), steps).phase.Open?
    ensures var s := Run(t, Init(t), steps);
      && t.initial == s.credit + Lens(s.c2s) + s.w.outstanding + s.w.pending + Credits(s.s2c)
      && s.w.outstanding == Lens(s.handling) && s.w.consumed == s.w.granted + s.w.outstanding
  {
    RunInv(t, Init(t), steps);
  }

  /** A client blocked at a window that is not positive has at least the whole initial credit on its way back. */
  lemma BlockedMeansBytesReturning(t: Terms, steps: seq<Step>)
    requires Run(t, Init(t), steps).phase.Open? && Run(t, Init(t), steps).credit <= 0
    ensures var s := Run(t, Init(t), steps); Lens(s.c2s) + Lens(s.handling) + s.w.pending + Credits(s.s2c) >= t.initial
  {
    hide Run;
    CreditConserved(t, steps);
  }

  // ---- what the server enforces on any client ---------------------------------------------------------

  /** The server reads a frame within the cap that would take what it holds past the window and one frame. */
  predicate Breaches(s: State, step: Step) {
    && step.Receive? && s.c2s != [] && !s.closed && s.c2s[0].len <= s.w.maxFrame
    && s.w.outstanding + s.c2s[0].len > s.w.window + s.w.maxFrame
  }

  /** How many frames of the run breach the window. */
  ghost function Breached(t: Terms, s: State, steps: seq<Step>): nat
    decreases |steps|
  {
    if steps == [] then 0 else (if Breaches(s, steps[0]) then 1 else 0) + Breached(t, Next(t, s, steps[0]), steps[1..])
  }

  /** Memory is bounded, and the second strike ends the connection. */
  predicate Enforced(s: State) {
    s.w.outstanding <= s.w.window + s.w.maxFrame && s.w.strikes <= 2 && (s.closed <==> s.w.strikes == 2)
  }

  lemma StepEnforced(t: Terms, s: State, step: Step)
    requires Inv(t, s) && Enforced(s)
    ensures var n := Next(t, s, step); Enforced(n) && n.w.strikes == s.w.strikes + if Breaches(s, step) then 1 else 0
  {
    if step.Answer? && step.i < |s.handling| { LensWithout(s.handling, step.i); }
  }

  lemma {:induction false} RunEnforced(t: Terms, s: State, steps: seq<Step>)
    requires Inv(t, s) && Enforced(s)
    ensures var n := Run(t, s, steps); Enforced(n) && n.w.strikes == s.w.strikes + Breached(t, s, steps)
    decreases |steps|
  {
    hide Inv, Next, Enforced, Breaches;
    if steps == [] {
    } else {
      NextInv(t, s, steps[0]);
      StepEnforced(t, s, steps[0]);
      RunEnforced(t, Next(t, s, steps[0]), steps[1..]);
    }
  }

  /**
   * Whatever the client sends, the server never holds more than the window and
   * one frame, and it closes the connection at the second breach, neither
   * earlier nor later.
   */
  lemma WindowEnforced(t: Terms, steps: seq<Step>)
    ensures var s := Run(t, Init(t), steps);
      && s.w.outstanding <= s.w.window + s.w.maxFrame
      && s.w.strikes == Breached(t, Init(t), steps) <= 2
      && (s.closed <==> Breached(t, Init(t), steps) == 2)
  {
    RunEnforced(t, Init(t), steps);
  }

  /**
   * What becomes of the frame the server reads next: over the cap, it is refused
   * and its bytes go back; within the cap it is handled, unless it breaches the
   * window; then its bytes go back too, with one more answer queued the first time
   * and the connection closed the second.
   */
  lemma FrameRuling(t: Terms, s: State)
    requires Inv(t, s) && Enforced(s) && s.c2s != [] && !s.closed
    ensures var n, len := Next(t, s, Receive), s.c2s[0].len;
      && n.c2s == s.c2s[1..]
      && (n.handling == s.handling + [s.c2s[0]] <==> len <= s.w.maxFrame && s.w.outstanding + len <= s.w.window + s.w.maxFrame)
      && (n.handling != s.handling + [s.c2s[0]] ==> n.handling == s.handling && n.w.pending == s.w.pending + len)
      && (n.closed <==> Breaches(s, Receive) && s.w.strikes == 1)
      && n.outq == s.outq + if n.handling == s.handling && !n.closed then [false] else []
  {
  }

  // ---- a client that keeps to its window --------------------------------------------------------------

  /** Payload only while the window is positive, in frames within the negotiated cap. */
  predicate Lawful(t: Terms, s: State, step: Step) { step.Send? ==> step.n <= t.maxFrame && (step.n > 0 ==> s.credit > 0) }

  predicate AllLawful(t: Terms, s: State, steps: seq<Step>)
    decreases |steps|
  {
    steps == [] || (Lawful(t, s, steps[0]) && AllLawful(t, Next(t, s, steps[0]), steps[1..]))
  }

  /** The overshoot is at most one frame, every frame in flight is within the cap, and no strike was drawn. */
  ghost predicate WithinWindow(t: Terms, s: State) {
    && s.w.strikes == 0 && !s.closed
    && (s.phase.Open? ==> s.credit + t.maxFrame >= 0 && forall i :: 0 <= i < |s.c2s| ==> s.c2s[i].len <= t.maxFrame)
  }

  /** The next frame the server reads is never refused. */
  lemma FrameAdmitted(t: Terms, s: State)
    requires Inv(t, s) && WithinWindow(t, s) && s.phase.Open? && s.c2s != []
    ensures s.c2s[0].len <= s.w.maxFrame && Verdict(s.w, s.c2s[0].len) == ViolationNone
  {
  }

  lemma LawfulKeeps(t: Terms, s: State, step: Step)
    requires Inv(t, s) && WithinWindow(t, s) && Lawful(t, s, step)
    ensures WithinWindow(t, Next(t, s, step))
  {
  }

  lemma {:induction false} LawfulRun(t: Terms, s: State, steps: seq<Step>)
    requires Inv(t, s) && WithinWindow(t, s) && AllLawful(t, s, steps)
    ensures Inv(t, Run(t, s, steps)) && WithinWindow(t, Run(t, s, steps))
    decreases |steps|
  {
    hide Inv, Next, WithinWindow, Lawful;
    if steps == [] {
    } else {
      NextInv(t, s, steps[0]);
      LawfulKeeps(t, s, steps[0]);
      LawfulRun(t, Next(t, s, steps[0]), steps[1..]);
    }
  }

  /** A client that keeps to its window never draws a refusal, however frames and grants interleave. */
  lemma NeverRefused(t: Terms, steps: seq<Step>)
    requires AllLawful(t, Init(t), steps)
    ensures var s := Run(t, Init(t), steps);
      && s.w.strikes == 0 && !s.closed
      && (s.phase.Open? ==> s.w.outstanding <= t.initial + t.maxFrame)
      && (s.phase.Open? && s.c2s != [] ==> s.c2s[0].len <= s.w.maxFrame && Verdict(s.w, s.c2s[0].len) == ViolationNone)
  {
    LawfulRun(t, Init(t), steps);
    hide Run;
    var s := Run(t, Init(t), steps);
    if s.phase.Open? && s.c2s != [] { FrameAdmitted(t, s); }
  }

  // ---- no wedge -----------------------------------------------------------------------------------

  function Backlog(s: State): nat { 4 * |s.c2s| + 3 * |s.handling| + 2 * |s.outq| }
  predicate Nearer(n: State, s: State) {
    || Backlog(n) < Backlog(s)
    || (Backlog(n) == Backlog(s) && (n.w.pending < s.w.pending || (n.w.pending == s.w.pending && |n.s2c| < |s.s2c|)))
  }

  /** Without another send: the server reads, answers and flushes, and the client reads, until nothing is under way. */
  lemma DrainRestores(t: Terms, s: State) returns (steps: seq<Step>)
    requires Inv(t, s) && WithinWindow(t, s) && s.phase.Open?
    ensures forall i :: 0 <= i < |steps| ==> !steps[i].Send?
    ensures var n := Run(t, s, steps); Quiet(n) && n.phase.Open? && n.credit == t.initial
    decreases Backlog(s), s.w.pending, |s.s2c|
  {
    if Quiet(s) {
      steps := [];
    } else {
      var step := if s.c2s != [] then Receive else if s.handling != [] then Answer(0, 0)
                  else if s.outq != [] then Flush(|s.outq|) else if s.w.pending > 0 then Tick else Deliver;
      NextInv(t, s, step);
      LawfulKeeps(t, s, step);
      if s.c2s != [] { FrameAdmitted(t, s); }
      DrainStep(t, s, step);
      var rest := DrainRestores(t, Next(t, s, step));
      steps := [step] + rest;
      assert steps[0] == step && steps[1..] == rest;
    }
  }

  lemma DrainStep(t: Terms, s: State, step: Step)
    requires Inv(t, s) && WithinWindow(t, s) && s.phase.Open? && !Quiet(s)
    requires step == if s.c2s != [] then Receive else if s.handling != [] then Answer(0, 0)
                     else if s.outq != [] then Flush(|s.outq|) else if s.w.pending > 0 then Tick else Deliver
    ensures Next(t, s, step).phase.Open? && Nearer(Next(t, s, step), s)
  {
  }

  /** So after any lawful run the window can always come back in full: no grant is ever lost. */
  lemma NeverWedged(t: Terms, before: seq<Step>) returns (drain: seq<Step>)
    requires AllLawful(t, Init(t), before) && Run(t, Init(t), before).phase.Open?
    ensures forall i :: 0 <= i < |drain| ==> !drain[i].Send?
    ensures Run(t, Run(t, Init(t), before), drain).credit == t.initial
  {
    LawfulRun(t, Init(t), before);
    drain := DrainRestores(t, Run(t, Init(t), before));
  }
}
