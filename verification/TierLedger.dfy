/**
 * The tenant ledger of the two lower tiers, over every run.
 *
 * Charges and liveness counts always equal the sums over the refs that still
 * carry a charge. They equal the sums over indexed and not-yet-refunded refs
 * exactly when no publish replaced an indexed ref: nobody returns a replaced
 * ref's charge.
 */
module TierLedger {
  import opened Sums
  import opened TierMachine

  // ---- measures ----------------------------------------------------------------------------

  function NvmeCharge(ns: Ns): Ref -> int { (r: Ref) => if r.key.ns == ns && !r.s3Only then r.len else 0 }
  function S3Charge(ns: Ns): Ref -> int { (r: Ref) => if r.key.ns == ns && r.s3Only then r.len else 0 }
  function SegCount(id: SegId): Ref -> int { (r: Ref) => if r.seg == id && r.s3Only then 1 else 0 }

  /** The same measures on refs that left the index; an unlinked ref is no longer counted live. */
  function OnGone(f: Ref -> int): Gone -> int { (g: Gone) => f(g.ref) }
  function OnLinked(f: Ref -> int): Gone -> int { (g: Gone) => if g.stage == Unlinked then 0 else f(g.ref) }

  ghost function Charged(idx: map<Key, Ref>, gone: map<nat, Gone>, f: Ref -> int): int {
    Sum(idx, f) + Sum(gone, OnGone(f))
  }
  ghost function Counted(idx: map<Key, Ref>, gone: map<nat, Gone>, f: Ref -> int): int {
    Sum(idx, f) + Sum(gone, OnLinked(f))
  }

  // ---- invariants --------------------------------------------------------------------------

  ghost predicate NsOk(s: State, ns: Ns) {
    && Bal(s.nvmeUsed, ns) == Charged(s.idx, s.gone, NvmeCharge(ns))
    && Bal(s.s3Used, ns) == Charged(s.idx, s.gone, S3Charge(ns))
  }
  ghost predicate SegOk(s: State, id: SegId) {
    Bal(s.segRefs, id) == Counted(s.idx, s.gone, SegCount(id))
  }
  ghost predicate Balanced(s: State) {
    && (forall ns: Ns :: NsOk(s, ns))
    && (forall id: SegId :: SegOk(s, id))
  }

  ghost predicate Shaped(s: State) {
    && (forall k :: k in s.idx ==> s.idx[k].key == k && s.idx[k].len > 0)
    && (forall g :: g in s.gone ==> g < s.nextGone && s.gone[g].ref.len > 0)
    && (forall j :: 0 <= j < |s.written| ==> s.written[j].len > 0)
  }

  ghost predicate LedgerInv(s: State) { Balanced(s) && Shaped(s) }

  // ---- moving one ref ------------------------------------------------------------------------

  /** An indexed ref changes: each total shifts by that ref's change of measure. */
  lemma IndexShift(idx: map<Key, Ref>, gone: map<nat, Gone>, k: Key, r: Ref, f: Ref -> int)
    requires k in idx
    ensures Charged(idx[k := r], gone, f) == Charged(idx, gone, f) - f(idx[k]) + f(r)
    ensures Counted(idx[k := r], gone, f) == Counted(idx, gone, f) - f(idx[k]) + f(r)
  {
    SumUpdate(idx, k, r, f);
  }

  /** A ref leaves the index but stays charged: no total changes. */
  lemma EvictShift(idx: map<Key, Ref>, gone: map<nat, Gone>, k: Key, n: nat, stage: Stage, f: Ref -> int)
    requires k in idx && n !in gone && stage != Unlinked
    ensures Charged(idx - {k}, gone[n := Gone(idx[k], stage)], f) == Charged(idx, gone, f)
    ensures Counted(idx - {k}, gone[n := Gone(idx[k], stage)], f) == Counted(idx, gone, f)
  {
    SumPick(idx, k, f);
    SumInsert(gone, n, Gone(idx[k], stage), OnGone(f));
    SumInsert(gone, n, Gone(idx[k], stage), OnLinked(f));
  }

  /** An unindexed ref stops being counted live. */
  lemma UnlinkShift(idx: map<Key, Ref>, gone: map<nat, Gone>, g: nat, f: Ref -> int)
    requires g in gone && gone[g].stage != Unlinked
    ensures Charged(idx, gone[g := Gone(gone[g].ref, Unlinked)], f) == Charged(idx, gone, f)
    ensures Counted(idx, gone[g := Gone(gone[g].ref, Unlinked)], f) == Counted(idx, gone, f) - f(gone[g].ref)
  {
    SumUpdate(gone, g, Gone(gone[g].ref, Unlinked), OnGone(f));
    SumUpdate(gone, g, Gone(gone[g].ref, Unlinked), OnLinked(f));
  }

  /** An unlinked ref's charge is returned. */
  lemma ReturnShift(idx: map<Key, Ref>, gone: map<nat, Gone>, g: nat, f: Ref -> int)
    requires g in gone && gone[g].stage == Unlinked
    ensures Charged(idx, gone - {g}, f) == Charged(idx, gone, f) - f(gone[g].ref)
    ensures Counted(idx, gone - {g}, f) == Counted(idx, gone, f)
  {
    SumPick(gone, g, OnGone(f));
    SumPick(gone, g, OnLinked(f));
  }

  lemma NonNegative(idx: map<Key, Ref>, gone: map<nat, Gone>, f: Ref -> int)
    requires forall r :: f(r) >= 0
    ensures Charged(idx, gone, f) >= 0 && Counted(idx, gone, f) >= 0
  {
    assert forall g: Gone :: OnGone(f)(g) == f(g.ref) >= 0 && OnLinked(f)(g) >= 0;
    SumBound(idx, f);
    SumBound(gone, OnGone(f));
    SumBound(gone, OnLinked(f));
  }

  // ---- steps ---------------------------------------------------------------------------------

  lemma EvictKeeps(s: State, k: Key, stage: Stage)
    requires Balanced(s) && Shaped(s) && stage != Unlinked
    ensures Balanced(Evict(s, k, stage)) && Shaped(Evict(s, k, stage))
  {
    if k in s.idx {
      var t := Evict(s, k, stage);
      forall ns: Ns ensures NsOk(t, ns) {
        assert NsOk(s, ns);
        EvictShift(s.idx, s.gone, k, s.nextGone, stage, NvmeCharge(ns));
        EvictShift(s.idx, s.gone, k, s.nextGone, stage, S3Charge(ns));
      }
      forall id: SegId ensures SegOk(t, id) {
        assert SegOk(s, id);
        EvictShift(s.idx, s.gone, k, s.nextGone, stage, SegCount(id));
      }
    }
  }

  lemma EnterKeeps(s: State, r: Ref)
    requires Balanced(s) && Shaped(s) && r.key !in s.idx && !r.s3Only && r.len > 0
    ensures Balanced(Enter(s, r)) && Shaped(Enter(s, r))
  {
    var t := Enter(s, r);
    forall ns: Ns ensures NsOk(t, ns) {
      assert NsOk(s, ns);
      SumInsert(s.idx, r.key, r, NvmeCharge(ns));
      SumInsert(s.idx, r.key, r, S3Charge(ns));
    }
    forall id: SegId ensures SegOk(t, id) {
      assert SegOk(s, id);
      SumInsert(s.idx, r.key, r, SegCount(id));
    }
  }

  /** A change to an indexed ref that moves no charge and no liveness. */
  lemma RelabelKeeps(s: State, k: Key, r: Ref)
    requires Balanced(s) && Shaped(s) && k in s.idx
    requires r.key == k && r.len == s.idx[k].len && r.seg == s.idx[k].seg && r.s3Only == s.idx[k].s3Only
    ensures Balanced(s.(idx := s.idx[k := r])) && Shaped(s.(idx := s.idx[k := r]))
  {
    var t := s.(idx := s.idx[k := r]);
    forall ns: Ns ensures NsOk(t, ns) {
      assert NsOk(s, ns);
      IndexShift(s.idx, s.gone, k, r, NvmeCharge(ns));
      IndexShift(s.idx, s.gone, k, r, S3Charge(ns));
    }
    forall id: SegId ensures SegOk(t, id) {
      assert SegOk(s, id);
      IndexShift(s.idx, s.gone, k, r, SegCount(id));
    }
  }

  lemma MoveNs(s: State, k: Key, out: bool, ns: Ns)
    requires k in s.idx && s.idx[k].key == k && s.idx[k].s3Only == !out && NsOk(s, ns)
    ensures NsOk(if out then MoveOut(s, k) else MoveHome(s, k), ns)
  {
    var r := s.idx[k].(s3Only := out);
    IndexShift(s.idx, s.gone, k, r, NvmeCharge(ns));
    IndexShift(s.idx, s.gone, k, r, S3Charge(ns));
    NonNegative(s.idx[k := r], s.gone, NvmeCharge(ns));
    NonNegative(s.idx[k := r], s.gone, S3Charge(ns));
  }

  lemma MoveSeg(s: State, k: Key, out: bool, id: SegId)
    requires k in s.idx && s.idx[k].s3Only == !out && SegOk(s, id)
    ensures SegOk(if out then MoveOut(s, k) else MoveHome(s, k), id)
  {
    var r := s.idx[k].(s3Only := out);
    IndexShift(s.idx, s.gone, k, r, SegCount(id));
    NonNegative(s.idx[k := r], s.gone, SegCount(id));
    NonNegative(s.idx, s.gone, SegCount(id));
  }

  /** Both flips keep the books: the charge and the liveness count move together. */
  lemma MoveKeeps(s: State, k: Key, out: bool)
    requires Balanced(s) && Shaped(s) && k in s.idx && s.idx[k].s3Only == !out
    ensures var t := if out then MoveOut(s, k) else MoveHome(s, k); Balanced(t) && Shaped(t)
  {
    var t := if out then MoveOut(s, k) else MoveHome(s, k);
    forall ns: Ns ensures NsOk(t, ns) {
      MoveNs(s, k, out, ns);
    }
    forall id: SegId ensures SegOk(t, id) {
      MoveSeg(s, k, out, id);
    }
  }

  lemma UnlinkKeeps(s: State, g: nat)
    requires Balanced(s) && Shaped(s)
    ensures Balanced(Unlink(s, g)) && Shaped(Unlink(s, g))
  {
    if g in s.gone && s.gone[g].stage == Removed {
      var t := Unlink(s, g);
      forall ns: Ns ensures NsOk(t, ns) {
        assert NsOk(s, ns);
        UnlinkShift(s.idx, s.gone, g, NvmeCharge(ns));
        UnlinkShift(s.idx, s.gone, g, S3Charge(ns));
      }
      forall id: SegId ensures SegOk(t, id) {
        assert SegOk(s, id);
        UnlinkShift(s.idx, s.gone, g, SegCount(id));
        NonNegative(t.idx, t.gone, SegCount(id));
      }
    }
  }

  lemma ReturnNs(s: State, g: nat, ns: Ns)
    requires g in s.gone && s.gone[g].stage == Unlinked && NsOk(s, ns)
    ensures NsOk(Return(s, g), ns)
  {
    var t := Return(s, g);
    ReturnShift(s.idx, s.gone, g, NvmeCharge(ns));
    ReturnShift(s.idx, s.gone, g, S3Charge(ns));
    NonNegative(t.idx, t.gone, NvmeCharge(ns));
    NonNegative(t.idx, t.gone, S3Charge(ns));
  }

  lemma ReturnKeeps(s: State, g: nat)
    requires Balanced(s) && Shaped(s)
    ensures Balanced(Return(s, g)) && Shaped(Return(s, g))
  {
    if g in s.gone && s.gone[g].stage == Unlinked {
      var t := Return(s, g);
      forall ns: Ns ensures NsOk(t, ns) {
        ReturnNs(s, g, ns);
      }
      forall id: SegId ensures SegOk(t, id) {
        assert SegOk(s, id);
        ReturnShift(s.idx, s.gone, g, SegCount(id));
      }
    }
  }

  /** The books are untouched. */
  predicate SameBooks(s: State, t: State) {
    && t.idx == s.idx && t.gone == s.gone && t.nextGone == s.nextGone
    && t.nvmeUsed == s.nvmeUsed && t.s3Used == s.s3Used && t.segRefs == s.segRefs
    && (forall w :: w in t.written ==> w in s.written || w.len > 0)
  }

  lemma Same(s: State, t: State)
    requires LedgerInv(s) && SameBooks(s, t)
    ensures LedgerInv(t)
  {
    forall ns: Ns ensures NsOk(t, ns) { assert NsOk(s, ns); }
    forall id: SegId ensures SegOk(t, id) { assert SegOk(s, id); }
  }

  lemma EvictFrame(s: State, k: Key, stage: Stage)
    ensures k !in Evict(s, k, stage).idx && Evict(s, k, stage).written == s.written
  {
  }

  lemma PublishKeeps(s: State)
    requires LedgerInv(s)
    ensures LedgerInv(Publish(s))
  {
    hide Balanced, Shaped, Evict;
    if s.active.Some? && s.written != [] {
      var w := s.written[0];
      assert w.len > 0 by { WrittenPositive(s); }
      var e := Evict(s, w.key, Orphaned);
      EvictFrame(s, w.key, Orphaned);
      EvictKeeps(s, w.key, Orphaned);
      var r := Ref(s.nextRef, w.key, s.active.value, w.len, false, false, 0, false);
      EnterKeeps(e, r);
      Same(Enter(e, r), Publish(s));
    }
  }

  lemma WrittenPositive(s: State)
    requires Shaped(s)
    ensures forall j :: 0 <= j < |s.written| ==> s.written[j].len > 0
  {
  }

  lemma RecoverKeeps(s: State, k: Key, seg: SegId, len: nat)
    requires LedgerInv(s)
    ensures LedgerInv(Recover(s, k, seg, len))
  {
    hide Balanced, Shaped;
    if !s.started && k !in s.idx && len > 0 {
      var r := Ref(s.nextRef, k, seg, len, false, false, 0, false);
      EnterKeeps(s, r);
      Same(Enter(s, r), Recover(s, k, seg, len));
    }
  }

  lemma FlagStoreKeeps(s: State, id: SegId)
    requires LedgerInv(s)
    ensures LedgerInv(FlagStore(s, id))
  {
    hide Balanced;
    if Peeked(s, id) {
      var k := s.latch[id].peek.value.0;
      var r := s.idx[k].(s3 := true);
      RelabelKeeps(s, k, r);
      Same(s.(idx := s.idx[k := r]), FlagStore(s, id));
    } else {
      Same(s, FlagStore(s, id));
    }
  }

  lemma FlipOutKeeps(s: State, id: SegId, k: Key, now: int)
    requires LedgerInv(s)
    ensures LedgerInv(FlipOut(s, id, k, now))
  {
    hide Balanced, Shaped;
    if FlipsOut(s, id, k, now) {
      MoveKeeps(s, k, true);
      Same(MoveOut(s, k), FlipOut(s, id, k, now));
    } else {
      Same(s, FlipOut(s, id, k, now));
    }
  }

  lemma FlipHomeKeeps(s: State, id: SegId, k: Key)
    requires LedgerInv(s)
    ensures LedgerInv(FlipHome(s, id, k))
  {
    hide Balanced, Shaped;
    if FlipsHome(s, id, k) {
      MoveKeeps(s, k, false);
      Same(MoveHome(s, k), FlipHome(s, id, k));
    } else {
      Same(s, FlipHome(s, id, k));
    }
  }

  lemma RemoveVisitKeeps(s: State, id: SegId, k: Key, now: int)
    requires LedgerInv(s)
    ensures LedgerInv(RemoveVisit(s, id, k, now))
  {
    hide Balanced, Shaped;
    if Removes(s, id, k, now) {
      DeleteKeeps(s, k);
      Same(Evict(s, k, Removed), RemoveVisit(s, id, k, now));
    } else {
      Same(s, RemoveVisit(s, id, k, now));
    }
  }

  lemma ProtectKeeps(s: State, k: Key, until: int, pin: bool)
    requires LedgerInv(s)
    ensures LedgerInv(Protect(s, k, until, pin))
  {
    if k in s.idx {
      RelabelKeeps(s, k, s.idx[k].(leaseUntil := until, pinned := pin));
    }
  }

  lemma DeleteKeeps(s: State, k: Key)
    requires LedgerInv(s)
    ensures LedgerInv(Evict(s, k, Removed))
  {
    EvictKeeps(s, k, Removed);
  }

  lemma RefundKeeps(s: State, g: nat)
    requires LedgerInv(s)
    ensures LedgerInv(Unlink(s, g)) && LedgerInv(Return(s, g))
  {
    UnlinkKeeps(s, g);
    ReturnKeeps(s, g);
  }

  lemma WriterKeeps(s: State, w: WriterStep)
    requires LedgerInv(s)
    ensures LedgerInv(NextWriter(s, w))
  {
    hide LedgerInv, SameBooks, Publish, Recover, OpenActive, Flush, Seal, Refuse;
    match w
    case Ack => PublishKeeps(s);
    case RecoverEntry(k, seg, len) => RecoverKeeps(s, k, seg, len);
    case FlushRecord(k, len) => FlushFrame(s, k, len); Same(s, Flush(s, k, len));
    case Nack => RefuseFrame(s); Same(s, Refuse(s));
    case OpenSeg => OpenFrame(s); Same(s, OpenActive(s));
    case SealSeg => SealFrame(s); Same(s, Seal(s));
    case StartLoops => SealFrame(s); Same(s, Start(s));
  }

  lemma FlushFrame(s: State, k: Key, len: nat)
    ensures SameBooks(s, Flush(s, k, len))
  {
    if s.active.None? || len == 0 {} else {}
  }

  lemma RefuseFrame(s: State)
    ensures SameBooks(s, Refuse(s))
  {
    if s.written == [] {} else {}
  }

  lemma OpenFrame(s: State)
    ensures SameBooks(s, OpenActive(s))
  {
  }

  lemma SealFrame(s: State)
    ensures SameBooks(s, Seal(s)) && SameBooks(s, Start(s))
  {
    if s.active.None? || s.active.value !in s.segs || s.written != [] {} else {}
  }

  lemma EntryKeeps(s: State, e: EntryStep)
    requires LedgerInv(s)
    ensures LedgerInv(NextEntry(s, e))
  {
    hide LedgerInv, Unlink, Return, Protect, Evict;
    match e
    case DeleteKey(k, _, _) => DeleteKeeps(s, k);
    case HealKey(k, _) => DeleteKeeps(s, k);
    case UnlinkRef(g) => RefundKeeps(s, g);
    case ReturnCharge(g) => RefundKeeps(s, g);
    case SetProtection(k, until, pin) => ProtectKeeps(s, k, until, pin);
  }

  lemma SpillKeeps(s: State, id: SegId, p: SpillStep)
    requires LedgerInv(s)
    ensures LedgerInv(NextSpill(s, id, p))
  {
    hide LedgerInv, FlagStore, SameBooks;
    match p
    case SLatch => Same(s, SpillLatch(s, id));
    case SFail => Same(s, SpillFail(s, id));
    case SUp => Same(s, SpillUp(s, id));
    case SPeek(k) => Same(s, FlagPeek(s, id, k));
    case SStore => FlagStoreKeeps(s, id);
    case SMark => Same(s, MarkSpilled(s, id));
  }

  lemma ReclaimKeeps(s: State, id: SegId, r: ReclaimStep)
    requires LedgerInv(s)
    ensures LedgerInv(NextReclaim(s, id, r))
  {
    hide LedgerInv, FlipOut, RemoveVisit, SameBooks;
    match r
    case RLatch => Same(s, ReclaimLatch(s, id));
    case RSkip => Same(s, ReclaimSkip(s, id));
    case RBegin => Same(s, RetireBegin(s, id));
    case RFlip(k, now) => FlipOutKeeps(s, id, k, now);
    case RRemove(k, now) => RemoveVisitKeeps(s, id, k, now);
    case RAbort => RetireAbortQuiet(s, id); Same(s, RetireAbort(s, id));
    case RFinish => RetireFinishQuiet(s, id); Same(s, RetireFinish(s, id));
  }

  lemma RetireAbortQuiet(s: State, id: SegId)
    ensures SameBooks(s, RetireAbort(s, id))
  {
  }

  lemma RetireFinishQuiet(s: State, id: SegId)
    ensures SameBooks(s, RetireFinish(s, id))
  {
  }

  lemma RestoreKeeps(s: State, id: SegId, t: RestoreStep)
    requires LedgerInv(s)
    ensures LedgerInv(NextRestore(s, id, t))
  {
    hide LedgerInv, FlipHome;
    match t
    case TFlip(k) => FlipHomeKeeps(s, id, k);
    case _ => Same(s, NextRestore(s, id, t));
  }

  lemma CollectKeeps(s: State, id: SegId, c: CollectStep)
    requires LedgerInv(s)
    ensures LedgerInv(NextCollect(s, id, c))
  {
    hide LedgerInv;
    var t := NextCollect(s, id, c);
    assert t == s.(latch := t.latch, objects := t.objects);
    hide NextCollect;
    Same(s, t);
  }

  /** Every critical section of every component keeps the ledger. */
  lemma NextKeeps(s: State, step: Step)
    requires LedgerInv(s)
    ensures LedgerInv(Next(s, step))
  {
    hide LedgerInv, NextWriter, NextEntry, NextSpill, NextReclaim, NextRestore, NextCollect;
    match step
    case Writer(w) => WriterKeeps(s, w);
    case Entry(e) => EntryKeeps(s, e);
    case Spill(id, p) => SpillKeeps(s, id, p);
    case Reclaim(id, r) => ReclaimKeeps(s, id, r);
    case Restore(id, t) => RestoreKeeps(s, id, t);
    case Collect(id, c) => CollectKeeps(s, id, c);
  }

  /** So does every run. */
  lemma {:induction false} RunKeeps(s: State, steps: seq<Step>)
    requires LedgerInv(s)
    ensures LedgerInv(Run(s, steps))
    decreases |steps|
  {
    hide LedgerInv, Next;
    if steps != [] {
      NextKeeps(s, steps[0]);
      RunKeeps(Next(s, steps[0]), steps[1..]);
    }
  }
}
