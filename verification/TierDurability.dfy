/**
 * No indexed entry ever loses its bytes, over every run of spill, reclaim (both
 * branches, with aborts), restore and object collection under the per-segment
 * latch: its segment is live, or it is s3-resident and its object was not
 * dropped. On the way: every entry of a spilled segment carries the S3 flag, so
 * only a lease or a pin can strand a retire.
 */
module TierDurability {
  import opened Sums
  import opened TierMachine
  import opened TierLedger
  import opened TierExact

  type Idx = map<Key, Ref>
  type Segs = map<SegId, Seg>

  // ---- what holds of the entries homed in one segment ----------------------------------------

  ghost predicate AllFlagged(idx: Idx, id: SegId) { forall k :: k in idx && idx[k].seg == id ==> idx[k].s3 }
  ghost predicate NoneOut(idx: Idx, id: SegId) { forall k :: k in idx && idx[k].seg == id ==> !idx[k].s3Only }
  ghost predicate DoneFlagged(idx: Idx, id: SegId, done: set<Key>) {
    forall k :: k in idx && idx[k].seg == id && k in done ==> idx[k].s3
  }
  ghost predicate DoneOut(idx: Idx, id: SegId, done: set<Key>) {
    forall k :: k in idx && idx[k].seg == id && k in done ==> idx[k].s3Only
  }
  ghost predicate DoneHome(idx: Idx, id: SegId, done: set<Key>) {
    forall k :: k in idx && idx[k].seg == id && k in done ==> !idx[k].s3Only
  }
  ghost predicate DoneGone(idx: Idx, id: SegId, done: set<Key>) {
    forall k :: k in idx && k in done ==> idx[k].seg != id
  }
  ghost predicate PeekFresh(idx: Idx, id: SegId, peek: Option<(Key, RefId)>) {
    peek.Some? && peek.value.0 in idx && idx[peek.value.0].seg == id ==> idx[peek.value.0].id == peek.value.1
  }

  // ---- invariants --------------------------------------------------------------------------

  /** The bytes of entry r exist somewhere. */
  predicate Stored(r: Ref, segs: Segs, objects: set<SegId>) {
    r.seg in segs || (r.s3Only && r.seg in objects)
  }

  ghost predicate KeyOk(idx: Idx, segs: Segs, objects: set<SegId>, footer: map<SegId, set<Key>>, nextSeg: SegId, k: Key)
    requires k in idx
  {
    var r := idx[k];
    && r.seg < nextSeg
    && r.seg in footer && k in footer[r.seg]
    && Stored(r, segs, objects)
    && (r.s3Only ==> r.s3 && r.seg in objects)
  }

  ghost predicate SegmentOk(idx: Idx, segs: Segs, objects: set<SegId>, nextSeg: SegId, id: SegId)
    requires id in segs
  {
    && id < nextSeg
    && (segs[id].spilled ==> segs[id].sealed && id in objects && AllFlagged(idx, id))
    && (!segs[id].sealed ==> NoneOut(idx, id))
  }

  ghost predicate OwnerOk(idx: Idx, segs: Segs, objects: set<SegId>, active: Option<SegId>, nextSeg: SegId, id: SegId, o: Owner) {
    match o
    case Spilling => id < nextSeg && active != Some(id)
    case Flagging(done, peek) => id < nextSeg && active != Some(id) && id in segs && segs[id].sealed && id in objects
                                 && DoneFlagged(idx, id, done) && PeekFresh(idx, id, peek)
    case FlippingOut(done, stranded) => id in segs && segs[id].sealed && segs[id].spilled
                                        && (stranded == 0 ==> DoneOut(idx, id, done))
    case Removing(done, blocked) => id in segs && segs[id].sealed && (!blocked ==> DoneGone(idx, id, done))
    case FlippingHome(done) => id in segs && DoneHome(idx, id, done)
    case DroppingIdle => NoneOut(idx, id)
    case DroppingDead => NoneOut(idx, id) && !(id in segs && segs[id].spilled)
    case _ => true
  }

  ghost predicate ActiveOk(s: State) {
    && (s.active.Some? ==> s.active.value in s.segs && !s.segs[s.active.value].sealed && s.active.value < s.nextSeg
                           && s.active.value in s.footer)
    && (forall id :: id in s.segs && !s.segs[id].sealed ==> s.active == Some(id))
    && (s.active.None? ==> s.written == [])
    && (!s.started ==> s.active.None? && s.latch == map[] && forall id :: id in s.segs ==> !s.segs[id].spilled)
    && (forall j :: 0 <= j < |s.written| ==> s.active.Some? && s.active.value in s.footer && s.written[j].key in s.footer[s.active.value])
  }

  ghost predicate KeysOk(s: State) {
    forall k :: k in s.idx ==> KeyOk(s.idx, s.segs, s.objects, s.footer, s.nextSeg, k)
  }
  ghost predicate SegmentsOk(s: State) {
    forall id :: id in s.segs ==> SegmentOk(s.idx, s.segs, s.objects, s.nextSeg, id)
  }
  ghost predicate OwnersOk(s: State) {
    forall id :: id in s.latch ==> OwnerOk(s.idx, s.segs, s.objects, s.active, s.nextSeg, id, s.latch[id])
  }

  ghost predicate Durable(s: State) {
    ActiveOk(s) && KeysOk(s) && SegmentsOk(s) && OwnersOk(s)
  }

  // ---- changes of one component ----------------------------------------------------------------

  /** Only the latch of id changes, to an owner whose claims hold. */
  lemma LatchStep(s: State, t: State, id: SegId)
    requires Durable(s) && s.started && t == s.(latch := t.latch)
    requires forall j :: j in t.latch && j != id ==> j in s.latch && t.latch[j] == s.latch[j]
    requires id in t.latch ==> OwnerOk(s.idx, s.segs, s.objects, s.active, s.nextSeg, id, t.latch[id])
    ensures Durable(t)
  {
  }

  /** The entry at k changes in place; only its own segment's claims must be re-established. */
  lemma EntryStep1(s: State, k: Key, r: Ref)
    requires Durable(s) && k in s.idx && r.seg == s.idx[k].seg
    requires s.idx[k].s3 ==> r.s3
    requires r.s3Only ==> r.s3 && r.seg in s.objects
    requires r.s3Only && r.seg in s.segs ==> s.idx[k].s3Only || s.segs[r.seg].sealed
    requires Stored(r, s.segs, s.objects)
    requires r.seg in s.latch ==> OwnerOk(s.idx[k := r], s.segs, s.objects, s.active, s.nextSeg, r.seg, s.latch[r.seg])
    ensures Durable(s.(idx := s.idx[k := r]))
  {
  }

  lemma EvictStep(s: State, k: Key, stage: Stage)
    requires Durable(s)
    ensures Durable(Evict(s, k, stage))
  {
  }

  /** Ledger fields do not matter here. */
  lemma Ignore(s: State, t: State)
    requires Durable(s)
    requires t.idx == s.idx && t.segs == s.segs && t.objects == s.objects && t.active == s.active
    requires t.nextSeg == s.nextSeg && t.footer == s.footer && t.written == s.written
    requires t.latch == s.latch && t.started == s.started
    ensures Durable(t)
  {
  }

  // ---- the writer -----------------------------------------------------------------------------

  lemma OpenKeeps(s: State)
    requires Durable(s)
    ensures Durable(OpenActive(s))
  {
  }

  lemma RefuseKeeps(s: State)
    requires Durable(s)
    ensures Durable(Refuse(s))
  {
  }

  /** A new entry in the active segment touches no claim: that segment is unsealed, so no walk is on it. */
  lemma EnterKeepsDurable(s: State, r: Ref)
    requires Durable(s) && r.key !in s.idx && !r.s3Only && s.active == Some(r.seg)
    requires r.seg in s.footer && r.key in s.footer[r.seg]
    ensures Durable(s.(idx := s.idx[r.key := r]))
  {
  }

  lemma PublishKeepsDurable(s: State)
    requires Durable(s)
    ensures Durable(Publish(s))
  {
    hide KeysOk, SegmentsOk, OwnersOk, KeyOk, SegmentOk, OwnerOk;
    if s.active.Some? && s.written != [] {
      var w := s.written[0];
      var e := Evict(s, w.key, Orphaned);
      var r := Ref(s.nextRef, w.key, s.active.value, w.len, false, false, 0, false);
      EvictStep(s, w.key, Orphaned);
      assert e.written[0] == w;
      EnterKeepsDurable(e, r);
      var u := e.(idx := e.idx[r.key := r]);
      RefuseKeeps(u);
      Ignore(Refuse(u), Publish(s));
    } else {
    }
  }

  lemma RecoverKeepsDurable(s: State, k: Key, seg: SegId, len: nat)
    requires Durable(s)
    ensures Durable(Recover(s, k, seg, len))
  {
    if !s.started && k !in s.idx && len > 0 {
      var t := Recover(s, k, seg, len);
      assert KeysOk(t) by {
        forall j | j in t.idx ensures KeyOk(t.idx, t.segs, t.objects, t.footer, t.nextSeg, j) {
          if j != k { assert KeyOk(s.idx, s.segs, s.objects, s.footer, s.nextSeg, j); }
        }
      }
      assert SegmentsOk(t) by {
        forall id | id in t.segs ensures SegmentOk(t.idx, t.segs, t.objects, t.nextSeg, id) {
          if id != seg { assert SegmentOk(s.idx, s.segs, s.objects, s.nextSeg, id); }
        }
      }
    } else {
    }
  }

  // ---- spill ----------------------------------------------------------------------------------

  lemma SpillUpKeeps(s: State, id: SegId)
    requires Durable(s)
    ensures Durable(SpillUp(s, id))
  {
  }

  lemma FlagPeekKeeps(s: State, id: SegId, k: Key)
    requires Durable(s)
    ensures Durable(FlagPeek(s, id, k))
  {
  }

  /** Setting an entry's S3 flag breaks no claim. */
  lemma FlagOne(s: State, k: Key)
    requires Durable(s) && k in s.idx
    ensures Durable(s.(idx := s.idx[k := s.idx[k].(s3 := true)]))
  {
  }

  lemma KeyAt(s: State, k: Key)
    requires KeysOk(s) && k in s.idx
    ensures KeyOk(s.idx, s.segs, s.objects, s.footer, s.nextSeg, k)
  {
  }

  lemma SegmentAt(s: State, id: SegId)
    requires SegmentsOk(s) && id in s.segs
    ensures SegmentOk(s.idx, s.segs, s.objects, s.nextSeg, id)
  {
  }

  lemma FlagStoreClaims(s: State, id: SegId)
    requires Durable(s) && Peeked(s, id)
    ensures var k := s.latch[id].peek.value.0;
      OwnerOk(s.idx[k := s.idx[k].(s3 := true)], s.segs, s.objects, s.active, s.nextSeg, id,
              Flagging(s.latch[id].done + {k}, None))
  {
  }

  /** The peeked key is settled: nothing homed here is left under it, or it was not the peeked ref. */
  lemma FlagMissClaims(s: State, id: SegId)
    requires Durable(s) && id in s.latch && s.latch[id].Flagging? && s.latch[id].peek.Some? && !Peeked(s, id)
    ensures OwnerOk(s.idx, s.segs, s.objects, s.active, s.nextSeg, id,
                    Flagging(s.latch[id].done + {s.latch[id].peek.value.0}, None))
  {
  }

  lemma FlagLatch(s: State, id: SegId, o: Owner)
    requires Durable(s) && id in s.latch && OwnerOk(s.idx, s.segs, s.objects, s.active, s.nextSeg, id, o)
    ensures Durable(SetLatch(s, id, o))
  {
  }

  lemma FlagStoreKeepsDurable(s: State, id: SegId)
    requires Durable(s)
    ensures Durable(FlagStore(s, id))
  {
    hide Durable, OwnerOk;
    if id in s.latch && s.latch[id].Flagging? && s.latch[id].peek.Some? {
      var k := s.latch[id].peek.value.0;
      if Peeked(s, id) {
        FlagOne(s, k);
        FlagStoreClaims(s, id);
        FlagLatch(s.(idx := s.idx[k := s.idx[k].(s3 := true)]), id, Flagging(s.latch[id].done + {k}, None));
      } else {
        FlagMissClaims(s, id);
        FlagLatch(s, id, Flagging(s.latch[id].done + {k}, None));
      }
    } else {
    }
  }

  lemma MarkSpilledKeeps(s: State, id: SegId)
    requires Durable(s)
    ensures Durable(MarkSpilled(s, id))
  {
  }

  // ---- reclaim ----------------------------------------------------------------------------------

  lemma OwnerAt(s: State, id: SegId)
    requires OwnersOk(s) && id in s.latch
    ensures OwnerOk(s.idx, s.segs, s.objects, s.active, s.nextSeg, id, s.latch[id])
  {
  }

  /** Taking a free latch with an owner that claims nothing yet, or letting go of one. */
  lemma TakeKeeps(s: State, id: SegId, o: Owner)
    requires Durable(s) && s.started
    requires o.Reclaiming? || o.Restoring? || o.Dropping? || (o.Spilling? && id < s.nextSeg && s.active != Some(id))
    ensures Durable(SetLatch(s, id, o))
  {
  }

  lemma UnlatchKeeps(s: State, id: SegId)
    requires Durable(s)
    ensures Durable(Unlatch(s, id))
  {
  }

  lemma RetireBeginKeeps(s: State, id: SegId)
    requires Durable(s)
    ensures Durable(RetireBegin(s, id))
  {
  }

  /** The flip's gate makes the entry s3-resident while its object is known to exist. */
  lemma FlipOutMoves(s: State, id: SegId, k: Key, now: int)
    requires Durable(s) && FlipsOut(s, id, k, now)
    ensures Durable(s.(idx := s.idx[k := s.idx[k].(s3Only := true)]))
    ensures OwnerOk(s.idx[k := s.idx[k].(s3Only := true)], s.segs, s.objects, s.active, s.nextSeg, id,
                    FlippingOut(s.latch[id].done + {k}, 0))
  {
  }

  lemma FlipOutKeepsDurable(s: State, id: SegId, k: Key, now: int)
    requires Durable(s)
    ensures Durable(FlipOut(s, id, k, now))
  {
    hide KeysOk, SegmentsOk, KeyOk, SegmentOk;
    if FlipsOut(s, id, k, now) {
      FlipOutMoves(s, id, k, now);
      hide OwnerOk, OwnersOk;
      var u := s.(idx := s.idx[k := s.idx[k].(s3Only := true)]);
      LatchStep(u, SetLatch(u, id, FlippingOut(s.latch[id].done + {k}, 0)), id);
      Ignore(SetLatch(u, id, FlippingOut(s.latch[id].done + {k}, 0)), FlipOut(s, id, k, now));
    } else if id in s.latch && s.latch[id].FlippingOut? {
      OwnerAt(s, id);
      LatchStep(s, FlipOut(s, id, k, now), id);
    } else {
    }
  }

  lemma RemoveVisitKeepsDurable(s: State, id: SegId, k: Key, now: int)
    requires Durable(s)
    ensures Durable(RemoveVisit(s, id, k, now))
  {
    hide KeysOk, SegmentsOk, KeyOk, SegmentOk;
    if Removes(s, id, k, now) {
      EvictStep(s, k, Removed);
      OwnerAt(s, id);
      var u := Evict(s, k, Removed);
      LatchStep(u, RemoveVisit(s, id, k, now), id);
    } else if id in s.latch && s.latch[id].Removing? && !s.latch[id].blocked {
      OwnerAt(s, id);
      LatchStep(s, RemoveVisit(s, id, k, now), id);
    } else {
    }
  }

  lemma RetireAbortKeeps(s: State, id: SegId)
    requires Durable(s)
    ensures Durable(RetireAbort(s, id))
  {
  }

  /** When the walk is complete and nothing blocked it, whatever is still homed here is s3-resident. */
  lemma WalkedOut(s: State, id: SegId)
    requires Durable(s) && Walked(s, id)
    ensures id in s.segs && s.segs[id].sealed
    ensures forall k :: k in s.idx && s.idx[k].seg == id ==> s.idx[k].s3Only
  {
  }

  lemma RetireFinishKeeps(s: State, id: SegId)
    requires Durable(s)
    ensures Durable(RetireFinish(s, id))
  {
  }

  // ---- restore ----------------------------------------------------------------------------------

  lemma AdoptKeeps(s: State, id: SegId)
    requires Durable(s)
    ensures Durable(Adopt(s, id))
  {
  }

  lemma FlipHomeBeginKeeps(s: State, id: SegId)
    requires Durable(s)
    ensures Durable(FlipHomeBegin(s, id))
  {
  }

  lemma FlipHomeKeepsDurable(s: State, id: SegId, k: Key)
    requires Durable(s)
    ensures Durable(FlipHome(s, id, k))
  {
    hide KeysOk, SegmentsOk, KeyOk, SegmentOk;
    if FlipsHome(s, id, k) {
      OwnerAt(s, id);
      var o := FlippingHome(s.latch[id].done + {k});
      EntryStep1(s, k, s.idx[k].(s3Only := false));
      var u := s.(idx := s.idx[k := s.idx[k].(s3Only := false)]);
      LatchStep(u, SetLatch(u, id, o), id);
      hide OwnerOk, OwnersOk;
      Ignore(SetLatch(u, id, o), FlipHome(s, id, k));
    } else if id in s.latch && s.latch[id].FlippingHome? {
      OwnerAt(s, id);
      LatchStep(s, FlipHome(s, id, k), id);
    } else {
    }
  }

  // ---- object collection ------------------------------------------------------------------------

  /** A zero liveness count means no indexed entry of the segment is s3-resident. */
  lemma IdleMeansNoneOut(s: State, id: SegId)
    requires LedgerInv(s) && Bal(s.segRefs, id) <= 0
    ensures NoneOut(s.idx, id)
  {
    forall k | k in s.idx && s.idx[k].seg == id ensures !s.idx[k].s3Only {
      IndexedCovered(s, k);
    }
  }

  lemma DropCheckLiveKeeps(s: State, id: SegId)
    requires Durable(s) && LedgerInv(s)
    ensures Durable(DropCheckLive(s, id))
  {
    hide KeysOk, SegmentsOk, KeyOk, SegmentOk, LedgerInv;
    if id in s.latch && s.latch[id].Dropping? {
      if Bal(s.segRefs, id) > 0 {
        UnlatchKeeps(s, id);
      } else {
        IdleMeansNoneOut(s, id);
        LatchStep(s, DropCheckLive(s, id), id);
      }
    } else {
    }
  }

  lemma DropCheckSpilledKeeps(s: State, id: SegId)
    requires Durable(s)
    ensures Durable(DropCheckSpilled(s, id))
  {
  }

  lemma DropKeeps(s: State, id: SegId, gone: bool)
    requires Durable(s)
    ensures Durable(Drop(s, id, gone))
  {
  }

  // ---- runs -------------------------------------------------------------------------------------

  lemma WriterDurable(s: State, w: WriterStep)
    requires Durable(s)
    ensures Durable(NextWriter(s, w))
  {
    match w
    case OpenSeg => OpenKeeps(s);
    case FlushRecord(k, len) =>
    case Ack => PublishKeepsDurable(s);
    case Nack => RefuseKeeps(s);
    case SealSeg =>
    case RecoverEntry(k, seg, len) => RecoverKeepsDurable(s, k, seg, len);
    case StartLoops => hide KeyOk, SegmentOk, OwnerOk;
  }

  lemma ProtectDurable(s: State, k: Key, until: int, pin: bool)
    requires Durable(s)
    ensures Durable(Protect(s, k, until, pin))
  {
    hide KeysOk, SegmentsOk, SegmentOk;
    if k in s.idx {
      KeyAt(s, k);
      if s.idx[k].seg in s.latch { OwnerAt(s, s.idx[k].seg); }
      EntryStep1(s, k, s.idx[k].(leaseUntil := until, pinned := pin));
    } else {
    }
  }

  lemma EntryDurable(s: State, e: EntryStep)
    requires Durable(s)
    ensures Durable(NextEntry(s, e))
  {
    hide Durable, Refund, SegAdd;
    match e
    case DeleteKey(k, force, now) => EvictStep(s, k, Removed);
    case HealKey(k, i) => EvictStep(s, k, Removed);
    case UnlinkRef(g) => Ignore(s, Unlink(s, g));
    case ReturnCharge(g) => Ignore(s, Return(s, g));
    case SetProtection(k, until, pin) => ProtectDurable(s, k, until, pin);
  }

  lemma SpillDurable(s: State, id: SegId, p: SpillStep)
    requires Durable(s)
    ensures Durable(NextSpill(s, id, p))
  {
    hide Durable;
    match p
    case SLatch => if s.started && id !in s.latch && s.active != Some(id) && id < s.nextSeg { TakeKeeps(s, id, Spilling); }
    case SFail => UnlatchKeeps(s, id);
    case SUp => SpillUpKeeps(s, id);
    case SPeek(k) => FlagPeekKeeps(s, id, k);
    case SStore => FlagStoreKeepsDurable(s, id);
    case SMark => MarkSpilledKeeps(s, id);
  }

  lemma ReclaimDurable(s: State, id: SegId, r: ReclaimStep)
    requires Durable(s)
    ensures Durable(NextReclaim(s, id, r))
  {
    hide Durable, FlipOut, RemoveVisit;
    match r
    case RLatch => if s.started && id !in s.latch { TakeKeeps(s, id, Reclaiming); }
    case RSkip => UnlatchKeeps(s, id);
    case RBegin => RetireBeginKeeps(s, id);
    case RFlip(k, now) => FlipOutKeepsDurable(s, id, k, now);
    case RRemove(k, now) => RemoveVisitKeepsDurable(s, id, k, now);
    case RAbort => RetireAbortKeeps(s, id);
    case RFinish => RetireFinishKeeps(s, id);
  }

  lemma RestoreDurable(s: State, id: SegId, t: RestoreStep)
    requires Durable(s)
    ensures Durable(NextRestore(s, id, t))
  {
    hide Durable, FlipHome;
    match t
    case TLatch => if s.started && id !in s.latch { TakeKeeps(s, id, Restoring); }
    case TSkip => UnlatchKeeps(s, id);
    case TAdopt => AdoptKeeps(s, id);
    case TBegin => FlipHomeBeginKeeps(s, id);
    case TFlip(k) => FlipHomeKeepsDurable(s, id, k);
    case TDone => UnlatchKeeps(s, id);
  }

  lemma CollectDurable(s: State, id: SegId, c: CollectStep)
    requires Durable(s) && LedgerInv(s)
    ensures Durable(NextCollect(s, id, c))
  {
    hide Durable, LedgerInv;
    match c
    case CLatch => if s.started && id !in s.latch { TakeKeeps(s, id, Dropping); }
    case CLive => DropCheckLiveKeeps(s, id);
    case CSpilled => DropCheckSpilledKeeps(s, id);
    case CDrop(gone) => DropKeeps(s, id, gone);
  }

  lemma NextDurable(s: State, step: Step)
    requires Durable(s) && LedgerInv(s)
    ensures Durable(Next(s, step))
  {
    hide Durable, LedgerInv, NextWriter, NextEntry, NextSpill, NextReclaim, NextRestore, NextCollect;
    match step
    case Writer(w) => WriterDurable(s, w);
    case Entry(e) => EntryDurable(s, e);
    case Spill(id, p) => SpillDurable(s, id, p);
    case Reclaim(id, r) => ReclaimDurable(s, id, r);
    case Restore(id, t) => RestoreDurable(s, id, t);
    case Collect(id, c) => CollectDurable(s, id, c);
  }

  lemma {:induction false} RunDurable(s: State, steps: seq<Step>)
    requires Durable(s) && LedgerInv(s)
    ensures Durable(Run(s, steps)) && LedgerInv(Run(s, steps))
    decreases |steps|
  {
    hide Durable, LedgerInv, Next;
    if steps == [] {
    } else {
      NextDurable(s, steps[0]);
      NextKeeps(s, steps[0]);
      RunDurable(Next(s, steps[0]), steps[1..]);
    }
  }

  // ---- what every run guarantees ------------------------------------------------------------------

  /** From a fresh process, after any run, both invariants hold. */
  lemma Reachable(objects: set<SegId>, steps: seq<Step>)
    ensures Durable(Run(Init(objects), steps)) && LedgerInv(Run(Init(objects), steps))
  {
    InitBalanced(objects);
    RunDurable(Init(objects), steps);
  }

  /** No run loses the bytes of an entry it still indexes, or forgets that an s3-resident entry needs its object. */
  lemma NoEntryLost(objects: set<SegId>, steps: seq<Step>, k: Key)
    requires k in Run(Init(objects), steps).idx
    ensures var s := Run(Init(objects), steps);
      && Stored(s.idx[k], s.segs, s.objects)
      && (s.idx[k].s3Only ==> s.idx[k].seg in s.objects && Bal(s.segRefs, s.idx[k].seg) >= 1)
  {
    hide KeyOk, Run;
    var s := Run(Init(objects), steps);
    Reachable(objects, steps);
    assert KeyOk(s.idx, s.segs, s.objects, s.footer, s.nextSeg, k) by { KeyAt(s, k); }
    StoredAt(s, k);
    IndexedCovered(s, k);
  }

  lemma StoredAt(s: State, k: Key)
    requires k in s.idx && KeyOk(s.idx, s.segs, s.objects, s.footer, s.nextSeg, k)
    ensures Stored(s.idx[k], s.segs, s.objects) && (s.idx[k].s3Only ==> s.idx[k].s3 && s.idx[k].seg in s.objects)
  {
  }

  /** In every run, a segment marked spilled has its object, and every entry homed in it knows of the copy. */
  lemma SpilledMeansFlagged(objects: set<SegId>, steps: seq<Step>, id: SegId)
    requires id in Run(Init(objects), steps).segs && Run(Init(objects), steps).segs[id].spilled
    ensures var s := Run(Init(objects), steps);
      id in s.objects && forall k :: k in s.idx && s.idx[k].seg == id ==> s.idx[k].s3
  {
    hide Run;
    Reachable(objects, steps);
    SegmentAt(Run(Init(objects), steps), id);
  }

  /** So a visit of the flip walk strands an entry exactly when a lease or a pin protects it, never for want of a copy. */
  lemma StrandsIffProtected(objects: set<SegId>, steps: seq<Step>, id: SegId, k: Key, now: int)
    requires Flippable(Run(Init(objects), steps), id, k)
    ensures var s := Run(Init(objects), steps);
      FlipOut(s, id, k, now).latch[id].stranded > 0 <==> s.idx[k].Protected(now)
  {
    hide Run;
    var s := Run(Init(objects), steps);
    Reachable(objects, steps);
    OwnerAt(s, id);
    SegmentAt(s, id);
  }

  /** Reclaim retires a file only when nothing local is left in it: every entry still homed there is s3-resident. */
  lemma RetireLeavesOnlyResident(objects: set<SegId>, steps: seq<Step>, id: SegId)
    requires Walked(Run(Init(objects), steps), id)
    ensures var s := Run(Init(objects), steps);
      forall k :: k in s.idx && s.idx[k].seg == id ==> s.idx[k].s3Only && id in s.objects
  {
    hide Run;
    var s := Run(Init(objects), steps);
    Reachable(objects, steps);
    WalkedOut(s, id);
    forall k | k in s.idx && s.idx[k].seg == id ensures s.idx[k].s3Only && id in s.objects {
      KeyAt(s, k);
    }
  }

  /** The collector deletes an object only when no entry is s3-resident there and no live segment vouches for it. */
  lemma DropOnlyGarbage(objects: set<SegId>, steps: seq<Step>, id: SegId, k: Key)
    requires var s := Run(Init(objects), steps); id in s.objects && id !in Drop(s, id, true).objects
    requires k in Run(Init(objects), steps).idx && Run(Init(objects), steps).idx[k].seg == id
    ensures var s := Run(Init(objects), steps); !s.idx[k].s3Only && id in s.segs && !s.segs[id].spilled
  {
    hide Run;
    var s := Run(Init(objects), steps);
    Reachable(objects, steps);
    OwnerAt(s, id);
    KeyAt(s, k);
  }
}
