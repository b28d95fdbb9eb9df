/**
 * The segment latch: while one goroutine holds it, no step of any other
 * goroutine changes the latch, the segment's flags or its footer.
 */
module TierOwners {
  import opened Sums
  import opened TierMachine
  import opened TierLedger
  import opened TierDurability

  /** The step is not one that only the owner of id's latch takes. */
  predicate Foreign(step: Step, id: SegId) {
    match step
    case Writer(w) => !w.RecoverEntry?
    case Entry(e) => true
    case Spill(j, p) => j != id
    case Reclaim(j, r) => j != id
    case Restore(j, t) => j != id
    case Collect(j, c) => j != id
  }

  predicate Polite(steps: seq<Step>, id: SegId) { forall i :: 0 <= i < |steps| ==> Foreign(steps[i], id) }

  ghost predicate LatchKept(a: map<SegId, Owner>, b: map<SegId, Owner>, id: SegId) {
    (id in a <==> id in b) && (id in a ==> b[id] == a[id])
  }
  ghost predicate SegKept(a: Segs, b: Segs, id: SegId) { id in a && a[id].sealed ==> id in b && b[id] == a[id] }

  /** What an owner can rely on while it holds the latch. */
  ghost predicate Kept(s: State, t: State, id: SegId) {
    && LatchKept(s.latch, t.latch, id) && SegKept(s.segs, t.segs, id)
    && (id in s.segs && s.segs[id].sealed ==> Footer(t, id) == Footer(s, id))
    && (s.started ==> t.started)
  }

  /** The owner of another segment leaves the footers alone. */
  ghost predicate Apart(s: State, t: State, id: SegId) {
    && LatchKept(s.latch, t.latch, id) && SegKept(s.segs, t.segs, id) && t.footer == s.footer && t.started == s.started
    && t.active == s.active && t.nextSeg == s.nextSeg
  }

  // What the owner of another segment does is invisible at id: first the maps, then step by step.

  lemma Unmoved(s: State, id: SegId)
    ensures Apart(s, s, id) && LatchKept(s.latch, s.latch, id) && SegKept(s.segs, s.segs, id)
  {
  }

  lemma LatchSet(a: map<SegId, Owner>, j: SegId, o: Owner, id: SegId)
    requires j != id
    ensures LatchKept(a, a[j := o], id)
  {
  }

  lemma LatchFreed(a: map<SegId, Owner>, j: SegId, id: SegId)
    requires j != id
    ensures LatchKept(a, a - {j}, id)
  {
  }

  lemma SegSet(g: Segs, j: SegId, x: Seg, id: SegId)
    requires j != id
    ensures SegKept(g, g[j := x], id)
  {
  }

  lemma SegGone(g: Segs, j: SegId, id: SegId)
    requires j != id
    ensures SegKept(g, g - {j}, id)
  {
  }

  lemma SetLatchApart(s: State, j: SegId, o: Owner, id: SegId)
    requires j != id
    ensures Apart(s, SetLatch(s, j, o), id)
  {
    hide LatchKept, SegKept;
    Unmoved(s, id);
    LatchSet(s.latch, j, o, id);
  }

  lemma UnlatchApart(s: State, j: SegId, id: SegId)
    requires j != id
    ensures Apart(s, Unlatch(s, j), id)
  {
    hide LatchKept, SegKept;
    Unmoved(s, id);
    LatchFreed(s.latch, j, id);
  }

  /** The index, the ledgers and the objects do not matter. */
  lemma ApartBy(s: State, t: State, u: State, id: SegId)
    requires Apart(s, t, id) && u.latch == t.latch && u.segs == t.segs && u.footer == t.footer && u.started == t.started
    requires u.active == t.active && u.nextSeg == t.nextSeg
    ensures Apart(s, u, id)
  {
    hide LatchKept, SegKept;
  }

  lemma SpillLatchApart(s: State, j: SegId, id: SegId)
    requires j != id
    ensures Apart(s, SpillLatch(s, j), id)
  {
    hide Apart, LatchKept, SegKept;
    if !s.started || j in s.latch || s.active == Some(j) || j >= s.nextSeg {
      Unmoved(s, id);
    } else {
      SetLatchApart(s, j, Spilling, id);
    }
  }

  lemma SpillFailApart(s: State, j: SegId, id: SegId)
    requires j != id
    ensures Apart(s, SpillFail(s, j), id)
  {
    hide Apart, LatchKept, SegKept;
    if j !in s.latch || !s.latch[j].Spilling? {
      Unmoved(s, id);
    } else {
      UnlatchApart(s, j, id);
    }
  }

  lemma SpillUpApart(s: State, j: SegId, id: SegId)
    requires j != id
    ensures Apart(s, SpillUp(s, j), id)
  {
    hide Apart, LatchKept, SegKept;
    if j !in s.latch || !s.latch[j].Spilling? || j !in s.segs {
      Unmoved(s, id);
    } else {
      SetLatchApart(s, j, Flagging({}, None), id);
      ApartBy(s, SetLatch(s, j, Flagging({}, None)), SpillUp(s, j), id);
    }
  }

  lemma FlagPeekApart(s: State, j: SegId, k: Key, id: SegId)
    requires j != id
    ensures Apart(s, FlagPeek(s, j, k), id)
  {
    hide Apart, LatchKept, SegKept;
    if j !in s.latch || !s.latch[j].Flagging? || s.latch[j].peek.Some? {
      Unmoved(s, id);
    } else {
      SetLatchApart(s, j, FlagPeek(s, j, k).latch[j], id);
    }
  }

  lemma FlagStoreApart(s: State, j: SegId, id: SegId)
    requires j != id
    ensures Apart(s, FlagStore(s, j), id)
  {
    hide Apart, LatchKept, SegKept, Peeked;
    if j !in s.latch || !s.latch[j].Flagging? || s.latch[j].peek.None? {
      Unmoved(s, id);
    } else {
      var o := Flagging(s.latch[j].done + {s.latch[j].peek.value.0}, None);
      SetLatchApart(s, j, o, id);
      ApartBy(s, SetLatch(s, j, o), FlagStore(s, j), id);
    }
  }

  lemma MarkSpilledApart(s: State, j: SegId, id: SegId)
    requires j != id
    ensures Apart(s, MarkSpilled(s, j), id)
  {
    hide LatchKept, SegKept, Walk;
    Unmoved(s, id);
    if j !in s.latch || !s.latch[j].Flagging? || s.latch[j].peek.Some? || !(Walk(s, j) <= s.latch[j].done) {
    } else {
      if j in s.segs { SegSet(s.segs, j, s.segs[j].(spilled := true), id); }
      LatchFreed(s.latch, j, id);
    }
  }

  lemma SpillApart(s: State, j: SegId, p: SpillStep, id: SegId)
    requires j != id
    ensures Apart(s, NextSpill(s, j, p), id)
  {
    hide Apart, SpillLatch, SpillFail, SpillUp, FlagPeek, FlagStore, MarkSpilled;
    match p
    case SLatch => SpillLatchApart(s, j, id);
    case SFail => SpillFailApart(s, j, id);
    case SUp => SpillUpApart(s, j, id);
    case SPeek(k) => FlagPeekApart(s, j, k, id);
    case SStore => FlagStoreApart(s, j, id);
    case SMark => MarkSpilledApart(s, j, id);
  }

  lemma ReclaimLatchApart(s: State, j: SegId, id: SegId)
    requires j != id
    ensures Apart(s, ReclaimLatch(s, j), id)
  {
    hide Apart, LatchKept, SegKept;
    if !s.started || j in s.latch {
      Unmoved(s, id);
    } else {
      SetLatchApart(s, j, Reclaiming, id);
    }
  }

  lemma ReclaimSkipApart(s: State, j: SegId, id: SegId)
    requires j != id
    ensures Apart(s, ReclaimSkip(s, j), id)
  {
    hide Apart, LatchKept, SegKept;
    if j !in s.latch || !s.latch[j].Reclaiming? {
      Unmoved(s, id);
    } else {
      UnlatchApart(s, j, id);
    }
  }

  lemma RetireBeginApart(s: State, j: SegId, id: SegId)
    requires j != id
    ensures Apart(s, RetireBegin(s, j), id)
  {
    hide LatchKept, SegKept;
    Unmoved(s, id);
    if j !in s.latch || !s.latch[j].Reclaiming? || j !in s.segs || !s.segs[j].sealed || s.segs[j].dying {
    } else {
      SegSet(s.segs, j, s.segs[j].(dying := true), id);
      LatchSet(s.latch, j, if s.segs[j].spilled then FlippingOut({}, 0) else Removing({}, false), id);
    }
  }

  lemma FlipOutApart(s: State, j: SegId, k: Key, now: int, id: SegId)
    requires j != id
    ensures Apart(s, FlipOut(s, j, k, now), id)
  {
    hide Apart, LatchKept, SegKept, Refund, Charge, SegAdd, Flippable;
    if j !in s.latch || !s.latch[j].FlippingOut? {
      Unmoved(s, id);
    } else {
      var t := FlipOut(s, j, k, now);
      SetLatchApart(s, j, t.latch[j], id);
      if FlipsOut(s, j, k, now) {} else {}
      ApartBy(s, SetLatch(s, j, t.latch[j]), t, id);
    }
  }

  lemma RemoveVisitApart(s: State, j: SegId, k: Key, now: int, id: SegId)
    requires j != id
    ensures Apart(s, RemoveVisit(s, j, k, now), id)
  {
    hide Apart, LatchKept, SegKept, Removable;
    if j !in s.latch || !s.latch[j].Removing? || s.latch[j].blocked {
      Unmoved(s, id);
    } else {
      var t := RemoveVisit(s, j, k, now);
      SetLatchApart(s, j, t.latch[j], id);
      if Removes(s, j, k, now) {} else {}
      ApartBy(s, SetLatch(s, j, t.latch[j]), t, id);
    }
  }

  lemma RetireAbortApart(s: State, j: SegId, id: SegId)
    requires j != id
    ensures Apart(s, RetireAbort(s, j), id)
  {
    hide LatchKept, SegKept, Doomed;
    Unmoved(s, id);
    if j !in s.latch || !Doomed(s.latch[j]) {
    } else {
      if j in s.segs { SegSet(s.segs, j, s.segs[j].(dying := false), id); }
      LatchFreed(s.latch, j, id);
    }
  }

  lemma RetireFinishApart(s: State, j: SegId, id: SegId)
    requires j != id
    ensures Apart(s, RetireFinish(s, j), id)
  {
    hide LatchKept, SegKept, Walked;
    Unmoved(s, id);
    if !Walked(s, j) {
    } else {
      SegGone(s.segs, j, id);
      LatchFreed(s.latch, j, id);
    }
  }

  lemma ReclaimApart(s: State, j: SegId, r: ReclaimStep, id: SegId)
    requires j != id
    ensures Apart(s, NextReclaim(s, j, r), id)
  {
    hide Apart, ReclaimLatch, ReclaimSkip, RetireBegin, FlipOut, RemoveVisit, RetireAbort, RetireFinish;
    match r
    case RLatch => ReclaimLatchApart(s, j, id);
    case RSkip => ReclaimSkipApart(s, j, id);
    case RBegin => RetireBeginApart(s, j, id);
    case RFlip(k, now) => FlipOutApart(s, j, k, now, id);
    case RRemove(k, now) => RemoveVisitApart(s, j, k, now, id);
    case RAbort => RetireAbortApart(s, j, id);
    case RFinish => RetireFinishApart(s, j, id);
  }

  lemma RestoreLatchApart(s: State, j: SegId, id: SegId)
    requires j != id
    ensures Apart(s, RestoreLatch(s, j), id)
  {
    hide Apart, LatchKept, SegKept;
    if !s.started || j in s.latch {
      Unmoved(s, id);
    } else {
      SetLatchApart(s, j, Restoring, id);
    }
  }

  lemma RestoreSkipApart(s: State, j: SegId, id: SegId)
    requires j != id
    ensures Apart(s, RestoreSkip(s, j), id)
  {
    hide Apart, LatchKept, SegKept;
    if j !in s.latch || !s.latch[j].Restoring? {
      Unmoved(s, id);
    } else {
      UnlatchApart(s, j, id);
    }
  }

  lemma AdoptApart(s: State, j: SegId, id: SegId)
    requires j != id
    ensures Apart(s, Adopt(s, j), id)
  {
    hide LatchKept, SegKept;
    Unmoved(s, id);
    if j !in s.latch || !s.latch[j].Restoring? || j in s.segs || j !in s.objects || j >= s.nextSeg {
    } else {
      SegSet(s.segs, j, Seg(true, true, false), id);
    }
  }

  lemma FlipHomeBeginApart(s: State, j: SegId, id: SegId)
    requires j != id
    ensures Apart(s, FlipHomeBegin(s, j), id)
  {
    hide Apart, LatchKept, SegKept;
    if j !in s.latch || !s.latch[j].Restoring? || j !in s.segs {
      Unmoved(s, id);
    } else {
      SetLatchApart(s, j, FlippingHome({}), id);
    }
  }

  lemma FlipHomeApart(s: State, j: SegId, k: Key, id: SegId)
    requires j != id
    ensures Apart(s, FlipHome(s, j, k), id)
  {
    hide Apart, LatchKept, SegKept, Refund, Charge, SegAdd;
    if j !in s.latch || !s.latch[j].FlippingHome? {
      Unmoved(s, id);
    } else {
      var t := FlipHome(s, j, k);
      SetLatchApart(s, j, t.latch[j], id);
      if FlipsHome(s, j, k) {} else {}
      ApartBy(s, SetLatch(s, j, t.latch[j]), t, id);
    }
  }

  lemma RestoreDoneApart(s: State, j: SegId, id: SegId)
    requires j != id
    ensures Apart(s, RestoreDone(s, j), id)
  {
    hide Apart, LatchKept, SegKept, Walk;
    if j !in s.latch || !s.latch[j].FlippingHome? || !(Walk(s, j) <= s.latch[j].done) {
      Unmoved(s, id);
    } else {
      UnlatchApart(s, j, id);
    }
  }

  lemma RestoreApart(s: State, j: SegId, t: RestoreStep, id: SegId)
    requires j != id
    ensures Apart(s, NextRestore(s, j, t), id)
  {
    hide Apart, RestoreLatch, RestoreSkip, Adopt, FlipHomeBegin, FlipHome, RestoreDone;
    match t
    case TLatch => RestoreLatchApart(s, j, id);
    case TSkip => RestoreSkipApart(s, j, id);
    case TAdopt => AdoptApart(s, j, id);
    case TBegin => FlipHomeBeginApart(s, j, id);
    case TFlip(k) => FlipHomeApart(s, j, k, id);
    case TDone => RestoreDoneApart(s, j, id);
  }

  lemma DropLatchApart(s: State, j: SegId, id: SegId)
    requires j != id
    ensures Apart(s, DropLatch(s, j), id)
  {
    hide Apart, LatchKept, SegKept;
    if !s.started || j in s.latch {
      Unmoved(s, id);
    } else {
      SetLatchApart(s, j, Dropping, id);
    }
  }

  lemma DropLiveApart(s: State, j: SegId, id: SegId)
    requires j != id
    ensures Apart(s, DropCheckLive(s, j), id)
  {
    hide Apart, LatchKept, SegKept;
    if j !in s.latch || !s.latch[j].Dropping? {
      Unmoved(s, id);
    } else {
      if Bal(s.segRefs, j) > 0 { UnlatchApart(s, j, id); } else { SetLatchApart(s, j, DroppingIdle, id); }
    }
  }

  lemma DropSpilledApart(s: State, j: SegId, id: SegId)
    requires j != id
    ensures Apart(s, DropCheckSpilled(s, j), id)
  {
    hide Apart, LatchKept, SegKept;
    if j !in s.latch || !s.latch[j].DroppingIdle? {
      Unmoved(s, id);
    } else {
      if j in s.segs && s.segs[j].spilled { UnlatchApart(s, j, id); } else { SetLatchApart(s, j, DroppingDead, id); }
    }
  }

  lemma DropApart(s: State, j: SegId, gone: bool, id: SegId)
    requires j != id
    ensures Apart(s, Drop(s, j, gone), id)
  {
    hide Apart, LatchKept, SegKept;
    if j !in s.latch || !s.latch[j].DroppingDead? {
      Unmoved(s, id);
    } else {
      UnlatchApart(s, j, id);
      ApartBy(s, Unlatch(s, j), Drop(s, j, gone), id);
    }
  }

  lemma CollectApart(s: State, j: SegId, c: CollectStep, id: SegId)
    requires j != id
    ensures Apart(s, NextCollect(s, j, c), id)
  {
    hide Apart, DropLatch, DropCheckLive, DropCheckSpilled, Drop;
    match c
    case CLatch => DropLatchApart(s, j, id);
    case CLive => DropLiveApart(s, j, id);
    case CSpilled => DropSpilledApart(s, j, id);
    case CDrop(gone) => DropApart(s, j, gone, id);
  }

  lemma WriterKept(s: State, w: WriterStep, id: SegId)
    requires Durable(s) && s.started && !w.RecoverEntry?
    ensures Kept(s, NextWriter(s, w), id)
  {
    hide KeysOk, SegmentsOk, OwnersOk, Enter;
    OpenFresh(s);
    match w
    case OpenSeg =>
    case FlushRecord(k, len) => if s.active.None? || len == 0 {} else {}
    case Ack => PublishFrame(s);
    case Nack =>
    case SealSeg => if s.active.None? {} else {}
    case StartLoops =>
  }

  lemma PublishFrame(s: State)
    ensures Publish(s).latch == s.latch && Publish(s).segs == s.segs && Publish(s).footer == s.footer
    ensures Publish(s).started == s.started && Publish(s).active == s.active && Publish(s).nextSeg == s.nextSeg
  {
  }

  ghost predicate SameSegments(s: State, t: State) {
    t.latch == s.latch && t.segs == s.segs && t.footer == s.footer && t.started == s.started
    && t.active == s.active && t.nextSeg == s.nextSeg
  }

  lemma RefundFrame(s: State, g: nat)
    ensures SameSegments(s, Unlink(s, g)) && SameSegments(s, Return(s, g))
  {
    hide Refund, SegAdd;
  }

  lemma RemoveFrame(s: State, k: Key)
    ensures SameSegments(s, Evict(s, k, Removed))
  {
  }

  lemma EntryFrame(s: State, e: EntryStep)
    ensures SameSegments(s, NextEntry(s, e))
  {
    hide Unlink, Return, Evict;
    match e
    case DeleteKey(k, force, now) => RemoveFrame(s, k);
    case HealKey(k, i) => RemoveFrame(s, k);
    case UnlinkRef(g) => RefundFrame(s, g);
    case ReturnCharge(g) => RefundFrame(s, g);
    case SetProtection(k, until, pin) =>
  }

  lemma EntryKept(s: State, e: EntryStep, id: SegId)
    ensures Kept(s, NextEntry(s, e), id)
  {
    hide NextEntry;
    EntryFrame(s, e);
  }

  lemma ForeignKeeps(s: State, step: Step, id: SegId)
    requires Durable(s) && s.started && Foreign(step, id)
    ensures Kept(s, Next(s, step), id)
  {
    hide Durable, LatchKept, SegKept, NextWriter, NextEntry, NextSpill, NextReclaim, NextRestore, NextCollect;
    match step
    case Writer(w) => WriterKept(s, w, id);
    case Entry(e) => EntryKept(s, e, id);
    case Spill(j, p) => SpillApart(s, j, p, id);
    case Reclaim(j, r) => ReclaimApart(s, j, r, id);
    case Restore(j, t) => RestoreApart(s, j, t, id);
    case Collect(j, c) => CollectApart(s, j, c, id);
  }

  lemma OpenFresh(s: State)
    requires SegmentsOk(s)
    ensures s.nextSeg !in s.segs
  {
  }

  lemma {:induction false} PoliteKeeps(s: State, steps: seq<Step>, id: SegId)
    requires Durable(s) && LedgerInv(s) && s.started && Polite(steps, id)
    ensures Kept(s, Run(s, steps), id)
    decreases |steps|
  {
    hide Durable, LedgerInv, Next;
    if steps == [] {
    } else {
      ForeignKeeps(s, steps[0], id);
      NextDurable(s, steps[0]);
      NextKeeps(s, steps[0]);
      PoliteKeeps(Next(s, steps[0]), steps[1..], id);
    }
  }

  /** A segment that was minted and is no longer being written: it can never be written again, so its footer is final. */
  predicate Closed(s: State, id: SegId) { s.started && id < s.nextSeg && s.active != Some(id) }

  lemma FlushClosed(s: State, k: Key, len: nat, id: SegId)
    requires Closed(s, id)
    ensures Closed(Flush(s, k, len), id) && Footer(Flush(s, k, len), id) == Footer(s, id)
  {
  }

  lemma OpenClosed(s: State, id: SegId)
    requires Closed(s, id)
    ensures Closed(OpenActive(s), id) && Footer(OpenActive(s), id) == Footer(s, id)
  {
  }

  lemma QuietWriterClosed(s: State, w: WriterStep, id: SegId)
    requires Closed(s, id) && !w.OpenSeg? && !w.FlushRecord?
    ensures var t := NextWriter(s, w); Closed(t, id) && t.footer == s.footer
  {
    hide Enter, Evict, Publish;
    PublishFrame(s);
    match w
    case Ack =>
    case Nack =>
    case SealSeg =>
    case RecoverEntry(k, seg, len) =>
    case StartLoops =>
  }

  lemma WriterClosed(s: State, w: WriterStep, id: SegId)
    requires Closed(s, id)
    ensures Closed(NextWriter(s, w), id) && Footer(NextWriter(s, w), id) == Footer(s, id)
  {
    hide Flush, OpenActive, Closed;
    if w.OpenSeg? {
      OpenClosed(s, id);
    } else if w.FlushRecord? {
      FlushClosed(s, w.k, w.len, id);
    } else {
      hide NextWriter;
      QuietWriterClosed(s, w, id);
    }
  }

  lemma ClosedKept(s: State, step: Step, id: SegId)
    requires Closed(s, id)
    ensures Closed(Next(s, step), id) && Footer(Next(s, step), id) == Footer(s, id)
  {
    hide NextWriter, NextEntry, NextSpill, NextReclaim, NextRestore, NextCollect;
    match step
    case Writer(w) => WriterClosed(s, w, id);
    case Entry(e) => EntryFrame(s, e);
    case Spill(j, p) => SpillApart(s, j, p, j + 1);
    case Reclaim(j, r) => ReclaimApart(s, j, r, j + 1);
    case Restore(j, t) => RestoreApart(s, j, t, j + 1);
    case Collect(j, c) => CollectApart(s, j, c, j + 1);
  }

  lemma {:induction false} StaysClosed(s: State, steps: seq<Step>, id: SegId)
    requires Closed(s, id)
    ensures Closed(Run(s, steps), id) && Footer(Run(s, steps), id) == Footer(s, id)
    decreases |steps|
  {
    hide Closed, Next, Footer;
    if steps == [] {
    } else {
      ClosedKept(s, steps[0], id);
      StaysClosed(Next(s, steps[0]), steps[1..], id);
    }
  }

  // ---- a removed ref waits for the goroutine that removed it --------------------------------------

  predicate Owes(s: State, g: nat, x: Gone) { g in s.gone && s.gone[g] == x }

  predicate HandsOff(steps: seq<Step>, g: nat) {
    forall i :: 0 <= i < |steps| ==> steps[i] != Entry(UnlinkRef(g)) && steps[i] != Entry(ReturnCharge(g))
  }

  lemma SameOwes(s: State, t: State, g: nat, x: Gone)
    requires Owes(s, g, x) && t.gone == s.gone
    ensures Owes(t, g, x)
  {
  }

  lemma WriterOwes(s: State, w: WriterStep, g: nat, x: Gone)
    requires Owes(s, g, x) && Shaped(s)
    ensures Owes(NextWriter(s, w), g, x)
  {
  }

  lemma EntryOwes(s: State, e: EntryStep, g: nat, x: Gone)
    requires Owes(s, g, x) && Shaped(s) && e != UnlinkRef(g) && e != ReturnCharge(g)
    ensures Owes(NextEntry(s, e), g, x)
  {
  }

  lemma ReclaimOwes(s: State, id: SegId, r: ReclaimStep, g: nat, x: Gone)
    requires Owes(s, g, x) && Shaped(s)
    ensures Owes(NextReclaim(s, id, r), g, x)
  {
  }

  lemma QuietOwes(s: State, step: Step, g: nat, x: Gone)
    requires Owes(s, g, x) && (step.Spill? || step.Restore? || step.Collect?)
    ensures Owes(Next(s, step), g, x)
  {
    hide Owes, NextSpill, NextRestore, NextCollect;
    match step
    case Spill(id, p) => SpillGone(s, id, p); SameOwes(s, NextSpill(s, id, p), g, x);
    case Restore(id, t) => RestoreGone(s, id, t); SameOwes(s, NextRestore(s, id, t), g, x);
    case Collect(id, c) => CollectGone(s, id, c); SameOwes(s, NextCollect(s, id, c), g, x);
  }

  lemma SpillGone(s: State, id: SegId, p: SpillStep) ensures NextSpill(s, id, p).gone == s.gone {}
  lemma RestoreGone(s: State, id: SegId, t: RestoreStep) ensures NextRestore(s, id, t).gone == s.gone {}
  lemma CollectGone(s: State, id: SegId, c: CollectStep) ensures NextCollect(s, id, c).gone == s.gone {}

  lemma NextOwes(s: State, step: Step, g: nat, x: Gone)
    requires Owes(s, g, x) && Shaped(s) && step != Entry(UnlinkRef(g)) && step != Entry(ReturnCharge(g))
    ensures Owes(Next(s, step), g, x)
  {
    hide Owes, Shaped, NextWriter, NextEntry, NextSpill, NextReclaim, NextRestore, NextCollect;
    match step
    case Writer(w) => WriterOwes(s, w, g, x);
    case Entry(e) => EntryOwes(s, e, g, x);
    case Reclaim(id, r) => ReclaimOwes(s, id, r, g, x);
    case _ => QuietOwes(s, step, g, x);
  }

  lemma {:induction false} RunOwes(s: State, steps: seq<Step>, g: nat, x: Gone)
    requires Owes(s, g, x) && LedgerInv(s) && HandsOff(steps, g)
    ensures Owes(Run(s, steps), g, x)
    decreases |steps|
  {
    hide Owes, Next, Balanced, Shaped;
    if steps == [] {
    } else {
      NextOwes(s, steps[0], g, x);
      NextKeeps(s, steps[0]);
      RunOwes(Next(s, steps[0]), steps[1..], g, x);
    }
  }
}
