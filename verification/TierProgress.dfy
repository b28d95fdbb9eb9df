/**
 * No segment stays latched for want of a way out: from every state, the owner of
 * a latch alone can finish what it is doing and let go, whatever the others left
 * behind.
 */
module TierProgress {
  import opened Sums
  import opened TierMachine

  /** The step is one the owner of id's latch takes. */
  predicate Owns(step: Step, id: SegId) {
    match step
    case Writer(w) => false
    case Entry(e) => false
    case Spill(j, p) => j == id && !p.SLatch?
    case Reclaim(j, r) => j == id && !r.RLatch?
    case Restore(j, t) => j == id && !t.TLatch?
    case Collect(j, c) => j == id && !c.CLatch?
  }

  predicate AllOwn(steps: seq<Step>, id: SegId) { forall i :: 0 <= i < |steps| ==> Owns(steps[i], id) }

  lemma OneMore(s: State, step: Step, rest: seq<Step>, id: SegId)
    requires Owns(step, id) && AllOwn(rest, id)
    ensures AllOwn([step] + rest, id) && Run(s, [step] + rest) == Run(Next(s, step), rest)
  {
    hide Next;
    assert ([step] + rest)[0] == step && ([step] + rest)[1..] == rest;
  }

  /** The footer keys the walk has still to visit. */
  function Left(s: State, id: SegId): set<Key> { if id in s.latch then Unvisited(s.latch[id], Walk(s, id)) else {} }

  function Unvisited(o: Owner, keys: set<Key>): set<Key> {
    match o
    case Flagging(done, peek) => if peek.Some? then keys - done - {peek.value.0} else keys - done
    case FlippingOut(done, stranded) => keys - done
    case Removing(done, blocked) => if blocked then {} else keys - done
    case FlippingHome(done) => keys - done
    case _ => {}
  }

  /** What is left to do besides the walk. */
  function Stage(o: Owner): nat {
    match o
    case Spilling => 1
    case Flagging(done, peek) => if peek.Some? then 2 else 1
    case Dropping => 3
    case DroppingIdle => 2
    case _ => 1
  }

  function Effort(s: State, id: SegId): nat { if id in s.latch then 3 * |Left(s, id)| + Stage(s.latch[id]) else 0 }

  lemma Fewer(a: set<Key>, b: set<Key>, k: Key)
    requires k in a && b <= a - {k}
    ensures |b| < |a|
  {
    Smaller(b, a - {k});
    assert |a - {k}| == |a| - 1;
  }

  lemma {:induction false} Smaller(b: set<Key>, a: set<Key>)
    requires b <= a
    ensures |b| <= |a|
    decreases |b|
  {
    if b != {} {
      var k :| k in b;
      Smaller(b - {k}, a - {k});
    }
  }

  lemma LessReleased(s: State, n: State, id: SegId)
    requires id in s.latch && id !in n.latch
    ensures Effort(n, id) < Effort(s, id)
  {
  }

  lemma LessToDo(s: State, n: State, id: SegId)
    requires id in s.latch && id in n.latch && Unvisited(n.latch[id], Walk(n, id)) == Unvisited(s.latch[id], Walk(s, id))
    requires Stage(n.latch[id]) < Stage(s.latch[id])
    ensures Effort(n, id) < Effort(s, id)
  {
    hide Unvisited, Stage, Walk;
  }

  /** One key visited is less to do. */
  lemma Visited(s: State, n: State, id: SegId, k: Key)
    requires id in s.latch && id in n.latch && Walk(n, id) == Walk(s, id) && Stage(n.latch[id]) <= Stage(s.latch[id]) + 1
    requires k in Unvisited(s.latch[id], Walk(s, id)) && Unvisited(n.latch[id], Walk(s, id)) <= Unvisited(s.latch[id], Walk(s, id)) - {k}
    ensures Effort(n, id) < Effort(s, id)
  {
    hide Unvisited, Stage, Walk;
    Fewer(Unvisited(s.latch[id], Walk(s, id)), Unvisited(n.latch[id], Walk(s, id)), k);
  }

  // What each owner's critical section does to its own latch.

  lemma FlagLatch(s: State, id: SegId, k: Key)
    requires id in s.latch && s.latch[id].Flagging?
    ensures s.latch[id].peek.None? ==>
      var n := FlagPeek(s, id, k);
      && id in n.latch && n.segs == s.segs && n.footer == s.footer
      && (n.latch[id] == Flagging(s.latch[id].done + {k}, None)
          || (n.latch[id].Flagging? && n.latch[id].done == s.latch[id].done && n.latch[id].peek.Some? && n.latch[id].peek.value.0 == k))
    ensures s.latch[id].peek.Some? ==>
      var n := FlagStore(s, id);
      && id in n.latch && n.latch[id] == Flagging(s.latch[id].done + {s.latch[id].peek.value.0}, None) && n.segs == s.segs && n.footer == s.footer
  {
  }

  lemma FlipLatch(s: State, id: SegId, k: Key, now: int)
    requires id in s.latch && s.latch[id].FlippingOut?
    ensures var n := FlipOut(s, id, k, now);
      id in n.latch && n.latch[id].FlippingOut? && n.latch[id].done == s.latch[id].done + {k} && n.segs == s.segs && n.footer == s.footer
  {
  }

  lemma RemoveLatch(s: State, id: SegId, k: Key, now: int)
    requires id in s.latch && s.latch[id].Removing? && !s.latch[id].blocked
    ensures var n := RemoveVisit(s, id, k, now);
      && id in n.latch && n.latch[id].Removing? && n.segs == s.segs && n.footer == s.footer
      && (n.latch[id].blocked || n.latch[id].done == s.latch[id].done + {k})
  {
  }

  lemma HomeLatch(s: State, id: SegId, k: Key)
    requires id in s.latch && s.latch[id].FlippingHome?
    ensures var n := FlipHome(s, id, k);
      id in n.latch && n.latch[id] == FlippingHome(s.latch[id].done + {k}) && n.segs == s.segs && n.footer == s.footer
  {
  }

  // The owner's next step: give up where that is allowed, else visit a key, else finish.

  lemma SpillOnward(s: State, id: SegId) returns (p: SpillStep)
    requires id in s.latch && (s.latch[id].Spilling? || s.latch[id].Flagging?)
    ensures !p.SLatch? && Effort(NextSpill(s, id, p), id) < Effort(s, id)
  {
    hide Effort, FlagStore, FlagPeek;
    var o := s.latch[id];
    if o.Spilling? {
      p := SFail;
      LessReleased(s, NextSpill(s, id, p), id);
    } else if o.peek.Some? {
      p := SStore;
      FlagLatch(s, id, o.peek.value.0);
      LessToDo(s, NextSpill(s, id, p), id);
    } else if Walk(s, id) <= o.done {
      p := SMark;
      LessReleased(s, NextSpill(s, id, p), id);
    } else {
      var k :| k in Walk(s, id) && k !in o.done;
      p := SPeek(k);
      FlagLatch(s, id, k);
      Visited(s, NextSpill(s, id, p), id, k);
    }
  }

  lemma ReclaimOnward(s: State, id: SegId) returns (r: ReclaimStep)
    requires id in s.latch && (s.latch[id].Reclaiming? || s.latch[id].FlippingOut? || s.latch[id].Removing?)
    ensures !r.RLatch? && Effort(NextReclaim(s, id, r), id) < Effort(s, id)
  {
    hide Effort, NextReclaim;
    var o := s.latch[id];
    if o.Reclaiming? || Doomed(o) || Walk(s, id) <= o.done {
      r := if o.Reclaiming? then RSkip else if Doomed(o) then RAbort else RFinish;
      LetsGo(s, id, r);
      LessReleased(s, NextReclaim(s, id, r), id);
    } else {
      r := VisitOnward(s, id);
    }
  }

  lemma LetsGo(s: State, id: SegId, r: ReclaimStep)
    requires id in s.latch
    requires r.RSkip? ==> s.latch[id].Reclaiming?
    requires r.RAbort? ==> Doomed(s.latch[id])
    requires r.RFinish? ==> Walked(s, id)
    requires r.RSkip? || r.RAbort? || r.RFinish?
    ensures id !in NextReclaim(s, id, r).latch
  {
    match r
    case RSkip =>
    case RAbort =>
    case RFinish =>
  }

  lemma VisitOnward(s: State, id: SegId) returns (r: ReclaimStep)
    requires id in s.latch && (s.latch[id].FlippingOut? || s.latch[id].Removing?) && !Doomed(s.latch[id]) && !(Walk(s, id) <= s.latch[id].done)
    ensures !r.RLatch? && Effort(NextReclaim(s, id, r), id) < Effort(s, id)
  {
    hide Effort, FlipOut, RemoveVisit, RetireBegin, RetireAbort, RetireFinish;
    var o := s.latch[id];
    var k :| k in Walk(s, id) && k !in o.done;
    if o.FlippingOut? {
      r := RFlip(k, 0);
      FlipLatch(s, id, k, 0);
      Visited(s, FlipOut(s, id, k, 0), id, k);
    } else {
      r := RRemove(k, 0);
      RemoveLatch(s, id, k, 0);
      Visited(s, RemoveVisit(s, id, k, 0), id, k);
    }
  }

  lemma RestoreOnward(s: State, id: SegId) returns (t: RestoreStep)
    requires id in s.latch && (s.latch[id].Restoring? || s.latch[id].FlippingHome?)
    ensures !t.TLatch? && Effort(NextRestore(s, id, t), id) < Effort(s, id)
  {
    hide Effort, FlipHome;
    var o := s.latch[id];
    if o.Restoring? {
      t := TSkip;
      LessReleased(s, NextRestore(s, id, t), id);
    } else if Walk(s, id) <= o.done {
      t := TDone;
      LessReleased(s, NextRestore(s, id, t), id);
    } else {
      var k :| k in Walk(s, id) && k !in o.done;
      t := TFlip(k);
      HomeLatch(s, id, k);
      Visited(s, NextRestore(s, id, t), id, k);
    }
  }

  lemma CollectOnward(s: State, id: SegId) returns (c: CollectStep)
    requires id in s.latch && (s.latch[id].Dropping? || s.latch[id].DroppingIdle? || s.latch[id].DroppingDead?)
    ensures !c.CLatch? && Effort(NextCollect(s, id, c), id) < Effort(s, id)
  {
    hide Effort;
    c := if s.latch[id].Dropping? then CLive else if s.latch[id].DroppingIdle? then CSpilled else CDrop(true);
    var n := NextCollect(s, id, c);
    if id in n.latch { LessToDo(s, n, id); } else { LessReleased(s, n, id); }
  }

  /** Some step of the owner leaves less to do. */
  lemma Onward(s: State, id: SegId) returns (step: Step)
    requires id in s.latch
    ensures Owns(step, id) && Effort(Next(s, step), id) < Effort(s, id)
  {
    hide Effort, NextSpill, NextReclaim, NextRestore, NextCollect;
    match s.latch[id]
    case Spilling => var p := SpillOnward(s, id); step := Spill(id, p);
    case Flagging(_, _) => var p := SpillOnward(s, id); step := Spill(id, p);
    case Restoring => var t := RestoreOnward(s, id); step := Restore(id, t);
    case FlippingHome(_) => var t := RestoreOnward(s, id); step := Restore(id, t);
    case Reclaiming => var r := ReclaimOnward(s, id); step := Reclaim(id, r);
    case FlippingOut(_, _) => var r := ReclaimOnward(s, id); step := Reclaim(id, r);
    case Removing(_, _) => var r := ReclaimOnward(s, id); step := Reclaim(id, r);
    case _ => var c := CollectOnward(s, id); step := Collect(id, c);
  }

  /** The owner of a latch can always let go of it by its own steps alone. */
  lemma {:induction false} LatchReleasable(s: State, id: SegId) returns (steps: seq<Step>)
    ensures AllOwn(steps, id) && id !in Run(s, steps).latch
    decreases Effort(s, id)
  {
    hide Effort, Next;
    if id !in s.latch {
      steps := [];
    } else {
      var step := Onward(s, id);
      var rest := LatchReleasable(Next(s, step), id);
      steps := [step] + rest;
      OneMore(s, step, rest, id);
    }
  }
}
