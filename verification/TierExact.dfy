/**
 * When the ledger equals what the index holds.
 *
 * A publish over an indexed key drops the old ref without a refund or a count
 * down, so the charges are exact on a run if and only if no publish of that run
 * met an indexed key, and a segment's liveness count if and only if none met an
 * s3-resident key of the segment. Refunds never underflow either way.
 */
module TierExact {
  import opened Sums
  import opened TierMachine
  import opened TierLedger

  function OnPending(f: Ref -> int): Gone -> int { (g: Gone) => if g.stage == Orphaned then 0 else f(g.ref) }
  function OnRemoved(f: Ref -> int): Gone -> int { (g: Gone) => if g.stage == Removed then f(g.ref) else 0 }
  function OnOrphan(f: Ref -> int): Gone -> int { (g: Gone) => if g.stage == Orphaned then f(g.ref) else 0 }

  /** What a tenant holds on a tier: indexed entries plus removed, not yet refunded ones. */
  ghost function Held(s: State, f: Ref -> int): int { Sum(s.idx, f) + Sum(s.gone, OnPending(f)) }

  /** What is live: indexed entries plus removed ones that are not counted down yet. */
  ghost function Live(s: State, f: Ref -> int): int { Sum(s.idx, f) + Sum(s.gone, OnRemoved(f)) }

  ghost predicate Exact(s: State) {
    forall ns: Ns :: Bal(s.nvmeUsed, ns) == Held(s, NvmeCharge(ns)) && Bal(s.s3Used, ns) == Held(s, S3Charge(ns))
  }

  ghost predicate CountExact(s: State, id: SegId) { Bal(s.segRefs, id) == Live(s, SegCount(id)) }

  /** Which refs a statement is about. */
  type Kind = Ref -> bool

  function Any(): Kind { (r: Ref) => true }
  function OutAt(id: SegId): Kind { (r: Ref) => r.seg == id && r.s3Only }

  ghost predicate Orphans(s: State, p: Kind) { exists g :: g in s.gone && s.gone[g].stage == Orphaned && p(s.gone[g].ref) }

  /** The guard of the branch that loses a charge: the acknowledged key is already indexed, with a ref of the kind. */
  predicate Overwrites(s: State, step: Step, p: Kind) {
    step == Writer(Ack) && s.active.Some? && s.written != [] && s.written[0].key in s.idx && p(s.idx[s.written[0].key])
  }

  predicate EverOverwrites(s: State, steps: seq<Step>, p: Kind)
    decreases |steps|
  {
    steps != [] && (Overwrites(s, steps[0], p) || EverOverwrites(Next(s, steps[0]), steps[1..], p))
  }

  // ---- exactness and orphans ---------------------------------------------------------------

  lemma OrphanShare(s: State, f: Ref -> int)
    ensures Charged(s.idx, s.gone, f) == Held(s, f) + Sum(s.gone, OnOrphan(f))
  {
    assert forall g: Gone :: OnGone(f)(g) == OnPending(f)(g) + OnOrphan(f)(g);
    SumSplit(s.gone, OnGone(f), OnPending(f), OnOrphan(f));
  }

  lemma NoOrphanShare(s: State, f: Ref -> int)
    requires forall g :: g in s.gone && s.gone[g].stage == Orphaned ==> f(s.gone[g].ref) == 0
    ensures Sum(s.gone, OnOrphan(f)) == 0
  {
    assert forall g :: g in s.gone ==> OnOrphan(f)(s.gone[g]) == 0;
    SumCongruent(s.gone, OnOrphan(f), (g: Gone) => 0);
    ZeroSum(s.gone);
  }

  lemma {:induction false} ZeroSum(m: map<nat, Gone>)
    ensures Sum(m, (g: Gone) => 0) == 0
    decreases |m|
  {
    if m != map[] {
      var k :| k in m;
      SumPick(m, k, (g: Gone) => 0);
      ZeroSum(m - {k});
    }
  }

  lemma OrphanCosts(s: State, g: nat, f: Ref -> int)
    requires g in s.gone && s.gone[g].stage == Orphaned && f(s.gone[g].ref) > 0
    requires forall r :: f(r) >= 0
    ensures Sum(s.gone, OnOrphan(f)) > 0
  {
    forall h: Gone ensures OnOrphan(f)(h) >= 0 { assert f(h.ref) >= 0; }
    SumBound(s.gone, OnOrphan(f));
    assert OnOrphan(f)(s.gone[g]) <= Sum(s.gone, OnOrphan(f));
  }

  /** The ledger is exact if and only if no ref was orphaned. */
  lemma ExactIffNoOrphans(s: State)
    requires LedgerInv(s)
    ensures Exact(s) <==> !Orphans(s, Any())
  {
    forall ns: Ns
      ensures Bal(s.nvmeUsed, ns) == Held(s, NvmeCharge(ns)) + Sum(s.gone, OnOrphan(NvmeCharge(ns)))
      ensures Bal(s.s3Used, ns) == Held(s, S3Charge(ns)) + Sum(s.gone, OnOrphan(S3Charge(ns)))
    {
      assert NsOk(s, ns);
      OrphanShare(s, NvmeCharge(ns));
      OrphanShare(s, S3Charge(ns));
    }
    if Orphans(s, Any()) {
      var g :| g in s.gone && s.gone[g].stage == Orphaned;
      var ns := s.gone[g].ref.key.ns;
      OrphanCosts(s, g, if s.gone[g].ref.s3Only then S3Charge(ns) else NvmeCharge(ns));
    } else {
      forall ns: Ns ensures Sum(s.gone, OnOrphan(NvmeCharge(ns))) == 0 && Sum(s.gone, OnOrphan(S3Charge(ns))) == 0 {
        assert forall g :: g in s.gone ==> s.gone[g].stage != Orphaned || Any()(s.gone[g].ref);
        NoOrphanShare(s, NvmeCharge(ns));
        NoOrphanShare(s, S3Charge(ns));
      }
    }
  }

  /** A segment's liveness count is exact if and only if no s3-resident ref of it was orphaned. */
  lemma CountExactIffNoOrphans(s: State, id: SegId)
    requires LedgerInv(s)
    ensures CountExact(s, id) <==> !Orphans(s, OutAt(id))
  {
    var f := SegCount(id);
    assert SegOk(s, id);
    forall k | k in s.gone ensures OnLinked(f)(s.gone[k]) == OnRemoved(f)(s.gone[k]) + OnOrphan(f)(s.gone[k]) {
      match s.gone[k].stage case Removed => case Unlinked => case Orphaned =>
    }
    SumSplit(s.gone, OnLinked(f), OnRemoved(f), OnOrphan(f));
    if Orphans(s, OutAt(id)) {
      var g :| g in s.gone && s.gone[g].stage == Orphaned && OutAt(id)(s.gone[g].ref);
      OrphanCosts(s, g, f);
    } else {
      forall g | g in s.gone && s.gone[g].stage == Orphaned ensures f(s.gone[g].ref) == 0 {
        assert !OutAt(id)(s.gone[g].ref);
      }
      NoOrphanShare(s, f);
    }
  }

  // ---- orphans appear only where a publish meets an indexed key ------------------------------

  /** Only fresh non-orphan entries appear, and no orphan ever leaves. */
  lemma EvictOrphans(s: State, k: Key, stage: Stage, kind: Kind)
    requires Shaped(s)
    ensures Orphans(Evict(s, k, stage), kind) <==> Orphans(s, kind) || (stage == Orphaned && k in s.idx && kind(s.idx[k]))
  {
    var t := Evict(s, k, stage);
    if k in s.idx {
      assert t.gone[s.nextGone].stage == stage;
      if Orphans(s, kind) {
        var g :| g in s.gone && s.gone[g].stage == Orphaned && kind(s.gone[g].ref);
        assert t.gone[g].stage == Orphaned;
      }
    } else {
    }
  }

  lemma UnlinkOrphans(s: State, g: nat, kind: Kind)
    ensures Orphans(Unlink(s, g), kind) <==> Orphans(s, kind)
  {
    if Orphans(s, kind) {
      var o :| o in s.gone && s.gone[o].stage == Orphaned && kind(s.gone[o].ref);
      assert Unlink(s, g).gone[o].stage == Orphaned;
    }
  }

  lemma ReturnOrphans(s: State, g: nat, kind: Kind)
    ensures Orphans(Return(s, g), kind) <==> Orphans(s, kind)
  {
    if Orphans(s, kind) {
      var o :| o in s.gone && s.gone[o].stage == Orphaned && kind(s.gone[o].ref);
      assert Return(s, g).gone[o].stage == Orphaned;
    }
  }

  lemma PublishOrphans(s: State, kind: Kind)
    requires Shaped(s)
    ensures Orphans(Publish(s), kind) <==> Orphans(s, kind) || Overwrites(s, Writer(Ack), kind)
  {
    hide Orphans, Shaped;
    if s.active.Some? && s.written != [] {
      EvictOrphans(s, s.written[0].key, Orphaned, kind);
      SameGone(Evict(s, s.written[0].key, Orphaned), Publish(s), kind);
    } else {
    }
  }

  lemma SameGone(s: State, t: State, kind: Kind)
    requires s.gone == t.gone
    ensures Orphans(s, kind) <==> Orphans(t, kind)
  {
  }

  lemma WriterOrphans(s: State, w: WriterStep, kind: Kind)
    requires Shaped(s)
    ensures Orphans(NextWriter(s, w), kind) <==> Orphans(s, kind) || Overwrites(s, Writer(w), kind)
  {
    hide Orphans, Shaped, Publish;
    match w
    case Ack => PublishOrphans(s, kind);
    case RecoverEntry(k, seg, len) => SameGone(s, Recover(s, k, seg, len), kind);
    case OpenSeg => SameGone(s, OpenActive(s), kind);
    case FlushRecord(k, len) => SameGone(s, Flush(s, k, len), kind);
    case Nack => SameGone(s, Refuse(s), kind);
    case SealSeg => SameGone(s, Seal(s), kind);
    case StartLoops => SameGone(s, Start(s), kind);
  }

  lemma EntryOrphans(s: State, e: EntryStep, kind: Kind)
    requires Shaped(s)
    ensures Orphans(NextEntry(s, e), kind) <==> Orphans(s, kind)
  {
    hide Orphans, Shaped, Evict, Unlink, Return;
    match e
    case DeleteKey(k, _, _) => EvictOrphans(s, k, Removed, kind);
    case HealKey(k, _) => EvictOrphans(s, k, Removed, kind);
    case UnlinkRef(g) => UnlinkOrphans(s, g, kind);
    case ReturnCharge(g) => ReturnOrphans(s, g, kind);
    case SetProtection(k, until, pin) => SameGone(s, Protect(s, k, until, pin), kind);
  }

  lemma VisitOrphans(s: State, id: SegId, k: Key, now: int, kind: Kind)
    requires Shaped(s)
    ensures Orphans(RemoveVisit(s, id, k, now), kind) <==> Orphans(s, kind)
  {
    hide Orphans, Shaped;
    if Removes(s, id, k, now) {
      EvictOrphans(s, k, Removed, kind);
      SameGone(Evict(s, k, Removed), RemoveVisit(s, id, k, now), kind);
    } else {
      SameGone(s, RemoveVisit(s, id, k, now), kind);
    }
  }

  lemma ReclaimOrphans(s: State, id: SegId, r: ReclaimStep, kind: Kind)
    requires Shaped(s)
    ensures Orphans(NextReclaim(s, id, r), kind) <==> Orphans(s, kind)
  {
    hide Orphans, Shaped, RemoveVisit;
    match r
    case RRemove(k, now) => VisitOrphans(s, id, k, now, kind);
    case _ => SameGone(s, NextReclaim(s, id, r), kind);
  }

  lemma SpillOrphans(s: State, id: SegId, p: SpillStep, kind: Kind)
    ensures Orphans(NextSpill(s, id, p), kind) <==> Orphans(s, kind)
  {
    hide Orphans;
    SameGone(s, NextSpill(s, id, p), kind);
  }

  lemma RestoreOrphans(s: State, id: SegId, t: RestoreStep, kind: Kind)
    ensures Orphans(NextRestore(s, id, t), kind) <==> Orphans(s, kind)
  {
    hide Orphans;
    SameGone(s, NextRestore(s, id, t), kind);
  }

  lemma CollectOrphans(s: State, id: SegId, c: CollectStep, kind: Kind)
    ensures Orphans(NextCollect(s, id, c), kind) <==> Orphans(s, kind)
  {
    hide Orphans;
    SameGone(s, NextCollect(s, id, c), kind);
  }

  lemma NextOrphans(s: State, step: Step, kind: Kind)
    requires Shaped(s)
    ensures Orphans(Next(s, step), kind) <==> Orphans(s, kind) || Overwrites(s, step, kind)
  {
    hide Orphans, Shaped, NextWriter, NextEntry, NextSpill, NextReclaim, NextRestore, NextCollect;
    match step
    case Writer(w) => WriterOrphans(s, w, kind);
    case Entry(e) => EntryOrphans(s, e, kind);
    case Reclaim(id, r) => ReclaimOrphans(s, id, r, kind);
    case Spill(id, p) => SpillOrphans(s, id, p, kind);
    case Restore(id, t) => RestoreOrphans(s, id, t, kind);
    case Collect(id, c) => CollectOrphans(s, id, c, kind);
  }

  lemma {:induction false} RunOrphans(s: State, steps: seq<Step>, kind: Kind)
    requires LedgerInv(s)
    ensures Orphans(Run(s, steps), kind) <==> Orphans(s, kind) || EverOverwrites(s, steps, kind)
    decreases |steps|
  {
    hide Orphans, Next, Overwrites, Balanced, Shaped;
    if steps != [] {
      NextOrphans(s, steps[0], kind);
      NextKeeps(s, steps[0]);
      RunOrphans(Next(s, steps[0]), steps[1..], kind);
    }
  }

  // ---- the theorems --------------------------------------------------------------------------

  lemma InitBalanced(objects: set<SegId>)
    ensures LedgerInv(Init(objects)) && forall kind :: !Orphans(Init(objects), kind)
  {
  }

  /**
   * On every run, each tenant's NVMe and S3 charge is the summed length of its
   * indexed and not-yet-refunded entries of that tier exactly when no publish of
   * the run met an indexed key.
   */
  lemma LedgerExactIff(objects: set<SegId>, steps: seq<Step>)
    ensures Exact(Run(Init(objects), steps)) <==> !EverOverwrites(Init(objects), steps, Any())
  {
    InitBalanced(objects);
    RunKeeps(Init(objects), steps);
    RunOrphans(Init(objects), steps, Any());
    ExactIffNoOrphans(Run(Init(objects), steps));
  }

  /**
   * On every run, a segment's liveness count is the number of its s3-resident
   * entries that are indexed, or removed and not yet counted down - exactly when
   * no publish of the run met an indexed s3-resident key of the segment.
   */
  lemma LivenessExactIff(objects: set<SegId>, steps: seq<Step>, id: SegId)
    ensures CountExact(Run(Init(objects), steps), id) <==> !EverOverwrites(Init(objects), steps, OutAt(id))
  {
    InitBalanced(objects);
    RunKeeps(Init(objects), steps);
    RunOrphans(Init(objects), steps, OutAt(id));
    CountExactIffNoOrphans(Run(Init(objects), steps), id);
  }

  /**
   * On every run, no balance or count is negative, and every pending refund or
   * liveness decrement is covered: the healing branches are never taken.
   */
  lemma NoUnderflow(objects: set<SegId>, steps: seq<Step>)
    ensures var s := Run(Init(objects), steps);
      && (forall ns: Ns :: Bal(s.nvmeUsed, ns) >= 0 && Bal(s.s3Used, ns) >= 0)
      && (forall id: SegId :: Bal(s.segRefs, id) >= 0)
      && (forall g :: g in s.gone ==>
            && s.gone[g].ref.len <= Bal(if s.gone[g].ref.s3Only then s.s3Used else s.nvmeUsed, s.gone[g].ref.key.ns)
            && (s.gone[g].ref.s3Only && s.gone[g].stage != Unlinked ==> Bal(s.segRefs, s.gone[g].ref.seg) >= 1))
      && (forall k :: k in s.idx ==>
            && s.idx[k].len <= Bal(if s.idx[k].s3Only then s.s3Used else s.nvmeUsed, k.ns)
            && (s.idx[k].s3Only ==> Bal(s.segRefs, s.idx[k].seg) >= 1))
  {
    InitBalanced(objects);
    RunKeeps(Init(objects), steps);
    var s := Run(Init(objects), steps);
    forall ns: Ns ensures Bal(s.nvmeUsed, ns) >= 0 && Bal(s.s3Used, ns) >= 0 {
      assert NsOk(s, ns);
      NonNegative(s.idx, s.gone, NvmeCharge(ns));
      NonNegative(s.idx, s.gone, S3Charge(ns));
    }
    forall id: SegId ensures Bal(s.segRefs, id) >= 0 {
      assert SegOk(s, id);
      NonNegative(s.idx, s.gone, SegCount(id));
    }
    forall g | g in s.gone
      ensures s.gone[g].ref.len <= Bal(if s.gone[g].ref.s3Only then s.s3Used else s.nvmeUsed, s.gone[g].ref.key.ns)
      ensures s.gone[g].ref.s3Only && s.gone[g].stage != Unlinked ==> Bal(s.segRefs, s.gone[g].ref.seg) >= 1
    {
      GoneCovered(s, g);
    }
    forall k | k in s.idx
      ensures s.idx[k].len <= Bal(if s.idx[k].s3Only then s.s3Used else s.nvmeUsed, k.ns)
      ensures s.idx[k].s3Only ==> Bal(s.segRefs, s.idx[k].seg) >= 1
    {
      IndexedCovered(s, k);
    }
  }

  lemma GoneCovered(s: State, g: nat)
    requires LedgerInv(s) && g in s.gone
    ensures s.gone[g].ref.len <= Bal(if s.gone[g].ref.s3Only then s.s3Used else s.nvmeUsed, s.gone[g].ref.key.ns)
    ensures s.gone[g].ref.s3Only && s.gone[g].stage != Unlinked ==> Bal(s.segRefs, s.gone[g].ref.seg) >= 1
  {
    var r := s.gone[g].ref;
    var f := if r.s3Only then S3Charge(r.key.ns) else NvmeCharge(r.key.ns);
    assert NsOk(s, r.key.ns) && SegOk(s, r.seg);
    SumPick(s.gone, g, OnGone(f));
    NonNegative(s.idx, s.gone - {g}, f);
    SumPick(s.gone, g, OnLinked(SegCount(r.seg)));
    NonNegative(s.idx, s.gone - {g}, SegCount(r.seg));
  }

  lemma IndexedCovered(s: State, k: Key)
    requires LedgerInv(s) && k in s.idx
    ensures s.idx[k].len <= Bal(if s.idx[k].s3Only then s.s3Used else s.nvmeUsed, k.ns)
    ensures s.idx[k].s3Only ==> Bal(s.segRefs, s.idx[k].seg) >= 1
  {
    var r := s.idx[k];
    var f := if r.s3Only then S3Charge(k.ns) else NvmeCharge(k.ns);
    assert NsOk(s, k.ns) && SegOk(s, r.seg);
    SumPick(s.idx, k, f);
    NonNegative(s.idx - {k}, s.gone, f);
    SumPick(s.idx, k, SegCount(r.seg));
    NonNegative(s.idx - {k}, s.gone, SegCount(r.seg));
  }

  // ---- the leak is reachable -----------------------------------------------------------------------

  /** Two records of one key acknowledged one after the other: the first one's charge is never returned. */
  lemma LeakReachable(k: Key) returns (steps: seq<Step>)
    ensures EverOverwrites(Init({}), steps, Any()) && !Exact(Run(Init({}), steps))
  {
    hide Next, Run, Publish, Flush, Exact, Overwrites, EverOverwrites, OpenActive, Start;
    var a, b := [Writer(StartLoops), Writer(OpenSeg)], [Writer(FlushRecord(k, 1)), Writer(Ack)];
    steps := a + b + b;
    WriterSteps(Init({}), k);
    WriterSteps(Start(Init({})), k);
    WriterSteps(Started(), k);
    WriterSteps(Flush(Started(), k, 1), k);
    WriterSteps(Acked(Started(), k), k);
    var s2 := Started();
    var s4 := Acked(s2, k);
    var s5 := Flush(s4, k, 1);
    TwoSteps(Init({}), Writer(StartLoops), Writer(OpenSeg), b + b);
    TwoSteps(s2, Writer(FlushRecord(k, 1)), Writer(Ack), b);
    assert a + (b + b) == steps;
    assert Overwrites(s5, Writer(Ack), Any()) by { Again(s2, k); }
    TwoSteps(s4, Writer(FlushRecord(k, 1)), Writer(Ack), []);
    assert b + [] == b;
    LedgerExactIff({}, steps);
  }

  lemma WriterSteps(s: State, k: Key)
    ensures Next(s, Writer(StartLoops)) == Start(s) && Next(s, Writer(OpenSeg)) == OpenActive(s)
    ensures Next(s, Writer(FlushRecord(k, 1))) == Flush(s, k, 1) && Next(s, Writer(Ack)) == Publish(s)
  {
  }

  function Started(): State { OpenActive(Start(Init({}))) }
  function Acked(s: State, k: Key): State { Publish(Flush(s, k, 1)) }

  lemma Again(s: State, k: Key)
    requires s == Started()
    ensures Overwrites(Flush(Acked(s, k), k, 1), Writer(Ack), Any())
  {
  }

  lemma TwoSteps(s: State, x: Step, y: Step, rest: seq<Step>)
    ensures EverOverwrites(s, [x, y] + rest, Any())
            <==> Overwrites(s, x, Any()) || Overwrites(Next(s, x), y, Any()) || EverOverwrites(Next(Next(s, x), y), rest, Any())
  {
  }

  // ---- and so is the lost count --------------------------------------------------------------------

  /** k's one entry, in sealed segment 0, and how far its spill and reclaim have got. */
  ghost predicate Staged(s: State, k: Key, owner: Option<Owner>, spilled: bool, s3: bool, out: bool) {
    && s.started && s.active.None? && s.written == [] && s.nextSeg == 1
    && k in s.idx && s.idx[k].seg == 0 && s.idx[k].s3 == s3 && s.idx[k].s3Only == out && !s.idx[k].Protected(0)
    && 0 in s.segs && s.segs[0] == Seg(true, spilled, owner == Some(FlippingOut({}, 0)) || out)
    && 0 in s.footer && s.footer[0] == {k} && (0 in s.latch <==> owner.Some?) && (owner.Some? ==> s.latch[0] == owner.value)
  }

  lemma Sealed0(k: Key)
    ensures Staged(Seal(Acked(Started(), k)), k, None, false, false, false)
  {
  }

  lemma Spilled0(s: State, k: Key)
    requires Staged(s, k, None, false, false, false)
    ensures Staged(SpillUp(SpillLatch(s, 0), 0), k, Some(Flagging({}, None)), false, false, false)
  {
  }

  lemma Peeked0(s: State, k: Key)
    requires Staged(s, k, Some(Flagging({}, None)), false, false, false)
    ensures var n := FlagPeek(s, 0, k); k in n.idx && Staged(n, k, Some(Flagging({}, Some((k, n.idx[k].id)))), false, false, false)
  {
  }

  lemma Flagged0(s: State, k: Key)
    requires k in s.idx && Staged(s, k, Some(Flagging({}, Some((k, s.idx[k].id)))), false, false, false)
    ensures Staged(FlagStore(s, 0), k, Some(Flagging({k}, None)), false, true, false)
  {
    assert {} + {k} == {k};
  }

  lemma Marked0(s: State, k: Key)
    requires Staged(s, k, Some(Flagging({k}, None)), false, true, false)
    ensures Staged(MarkSpilled(s, 0), k, None, true, true, false)
  {
  }

  lemma Begun0(s: State, k: Key)
    requires Staged(s, k, None, true, true, false)
    ensures Staged(RetireBegin(ReclaimLatch(s, 0), 0), k, Some(FlippingOut({}, 0)), true, true, false)
  {
  }

  lemma Flipped0(s: State, k: Key)
    requires Staged(s, k, Some(FlippingOut({}, 0)), true, true, false)
    ensures Staged(FlipOut(s, 0, k, 0), k, Some(FlippingOut({k}, 0)), true, true, true)
  {
    assert {} + {k} == {k};
  }

  lemma Written0(s: State, k: Key)
    requires Staged(s, k, Some(FlippingOut({k}, 0)), true, true, true)
    ensures Overwrites(Flush(OpenActive(s), k, 1), Writer(Ack), OutAt(0))
  {
  }

  lemma {:induction false} EverConcat(s: State, a: seq<Step>, b: seq<Step>, kind: Kind)
    requires EverOverwrites(Run(s, a), b, kind)
    ensures EverOverwrites(s, a + b, kind)
    decreases |a|
  {
    hide Next, Overwrites;
    if a == [] {
      assert a + b == b;
    } else {
      assert (a + b)[0] == a[0] && (a + b)[1..] == a[1..] + b;
      EverConcat(Next(s, a[0]), a[1..], b, kind);
    }
  }

  lemma {:induction false} RunStep(s: State, a: seq<Step>, x: Step)
    ensures Run(s, a + [x]) == Next(Run(s, a), x)
    decreases |a|
  {
    hide Next;
    if a == [] {
      assert a + [x] == [x] && [x][1..] == [];
      assert Run(s, [x]) == Run(Next(s, x), []);
    } else {
      assert (a + [x])[0] == a[0] && (a + [x])[1..] == a[1..] + [x];
      RunStep(Next(s, a[0]), a[1..], x);
    }
  }

  lemma Then(steps: seq<Step>, x: Step) returns (more: seq<Step>)
    ensures Run(Init({}), more) == Next(Run(Init({}), steps), x)
  {
    more := steps + [x];
    RunStep(Init({}), steps, x);
  }

  /** The key is published, spilled and flipped out, then acknowledged again: its segment's count stays one too high. */
  lemma CountLeakReachable(k: Key) returns (steps: seq<Step>)
    ensures EverOverwrites(Init({}), steps, OutAt(0)) && !CountExact(Run(Init({}), steps), 0)
  {
    steps := ToFlippedOut(k);
    var s := Run(Init({}), steps);
    Written0(s, k);
    var more := Then(steps, Writer(OpenSeg));
    more := Then(more, Writer(FlushRecord(k, 1)));
    var t := Run(Init({}), more);
    assert t == Flush(OpenActive(s), k, 1);
    steps := more + [Writer(Ack)];
    EverConcat(Init({}), more, [Writer(Ack)], OutAt(0));
    LivenessExactIff({}, steps, 0);
  }

  lemma ToSealed(k: Key) returns (steps: seq<Step>)
    ensures Staged(Run(Init({}), steps), k, None, false, false, false)
  {
    assert Run(Init({}), []) == Init({});
    Sealed0(k);
    hide Staged, Run, Start, OpenActive, Flush, Publish, Seal;
    steps := Then([], Writer(StartLoops));
    steps := Then(steps, Writer(OpenSeg));
    steps := Then(steps, Writer(FlushRecord(k, 1)));
    steps := Then(steps, Writer(Ack));
    steps := Then(steps, Writer(SealSeg));
  }

  lemma ToSpilled(k: Key) returns (steps: seq<Step>)
    ensures Staged(Run(Init({}), steps), k, None, true, true, false)
  {
    hide Staged, Run, SpillLatch, SpillUp, FlagPeek, FlagStore, MarkSpilled;
    steps := ToSealed(k);
    Spilled0(Run(Init({}), steps), k);
    steps := Then(steps, Spill(0, SLatch));
    steps := Then(steps, Spill(0, SUp));
    Peeked0(Run(Init({}), steps), k);
    steps := Then(steps, Spill(0, SPeek(k)));
    Flagged0(Run(Init({}), steps), k);
    steps := Then(steps, Spill(0, SStore));
    Marked0(Run(Init({}), steps), k);
    steps := Then(steps, Spill(0, SMark));
  }

  lemma ToFlippedOut(k: Key) returns (steps: seq<Step>)
    ensures Staged(Run(Init({}), steps), k, Some(FlippingOut({k}, 0)), true, true, true)
  {
    hide Staged, Run, ReclaimLatch, RetireBegin, FlipOut;
    steps := ToSpilled(k);
    Begun0(Run(Init({}), steps), k);
    steps := Then(steps, Reclaim(0, RLatch));
    steps := Then(steps, Reclaim(0, RBegin));
    Flipped0(Run(Init({}), steps), k);
    steps := Then(steps, Reclaim(0, RFlip(k, 0)));
  }
}
