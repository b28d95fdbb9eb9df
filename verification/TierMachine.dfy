/**
 * The tier-movement protocol below DRAM, as a machine whose steps are the
 * store's own critical sections: one shard-locked closure, one latch
 * try-acquire, one volume-locked flag, or one atomic. Any sequence of steps is
 * a run, so every interleaving of publishers, deleters, the spiller, the
 * reclaimer, the restorer and the object collector is a run.
 *
 * A removal refunds only after its shard lock is released, so refs that left the
 * index are kept until their charge is returned.
 */
module TierMachine {
  import opened Sums

  type Ns = int
  type SegId = int
  type RefId = int
  datatype Key = Key(ns: Ns, hash: nat)

  /** One NVMe-index entry's metadata; id is the pointer's identity. */
  datatype Ref = Ref(id: RefId, key: Key, seg: SegId, len: nat, s3: bool, s3Only: bool,
                     leaseUntil: int, pinned: bool)
  {
    predicate Protected(now: int) { leaseUntil > now || pinned }
  }

  /** How far the removal of an unindexed ref has got. Orphaned: a publish replaced it; nobody refunds it. */
  datatype Stage = Removed | Unlinked | Orphaned

  /** A ref that left the index with its charge still on the ledger. */
  datatype Gone = Gone(ref: Ref, stage: Stage)

  datatype Seg = Seg(sealed: bool, spilled: bool, dying: bool)

  /** Who holds a segment's latch, and how far that owner has got. */
  datatype Owner =
    | Spilling
    | Flagging(done: set<Key>, peek: Option<(Key, RefId)>)
    | Reclaiming
    | FlippingOut(done: set<Key>, stranded: nat)
    | Removing(done: set<Key>, blocked: bool)
    | Restoring
    | FlippingHome(done: set<Key>)
    | Dropping
    | DroppingIdle
    | DroppingDead

  /** A record written to the active segment whose acknowledgement has not run yet. */
  datatype Written = Written(key: Key, len: nat)

  datatype State = State(
    idx: map<Key, Ref>,
    gone: map<nat, Gone>,
    nextGone: nat,
    nextRef: RefId,
    nvmeUsed: map<Ns, int>,
    s3Used: map<Ns, int>,
    segRefs: map<SegId, int>,
    segs: map<SegId, Seg>,
    active: Option<SegId>,
    nextSeg: SegId,
    footer: map<SegId, set<Key>>,
    written: seq<Written>,
    objects: set<SegId>,
    latch: map<SegId, Owner>,
    started: bool)

  /** A fresh process: no entry, no charge; objects of an earlier process may remain in the bucket. */
  function Init(objects: set<SegId>): State {
    State(map[], map[], 0, 0, map[], map[], map[], map[], None, 0, map[], [], objects, map[], false)
  }

  // ---- accountant and liveness counters -------------------------------------------------

  function Bal(m: map<int, int>, k: int): int { if k in m then m[k] else 0 }

  function Charge(m: map<Ns, int>, ns: Ns, n: int): map<Ns, int> { m[ns := Bal(m, ns) + n] }

  /** A refund that would go negative heals to zero. */
  function Refund(m: map<Ns, int>, ns: Ns, n: int): map<Ns, int> {
    if Bal(m, ns) - n < 0 then m[ns := 0] else m[ns := Bal(m, ns) - n]
  }

  /** The liveness count loses its map entry at zero, and heals to zero below it. */
  function SegAdd(m: map<SegId, int>, id: SegId, d: int): map<SegId, int> {
    if Bal(m, id) + d <= 0 then m - {id} else m[id := Bal(m, id) + d]
  }

  function Footer(s: State, id: SegId): set<Key> { if id in s.footer then s.footer[id] else {} }

  /** The keys a walk of the segment's footer visits: none when the segment is not live. */
  function Walk(s: State, id: SegId): set<Key> { if id in s.segs then Footer(s, id) else {} }

  function SetLatch(s: State, id: SegId, o: Owner): State { s.(latch := s.latch[id := o]) }
  function Unlatch(s: State, id: SegId): State { s.(latch := s.latch - {id}) }

  // ---- the volume's writer ----------------------------------------------------------------

  function OpenActive(s: State): State {
    if !s.started || s.active.Some? then s
    else s.(segs := s.segs[s.nextSeg := Seg(false, false, false)],
            footer := s.footer[s.nextSeg := {}],
            active := Some(s.nextSeg), nextSeg := s.nextSeg + 1)
  }

  /** A batch reaches the device: its entries join the segment's table before any acknowledgement. */
  function Flush(s: State, k: Key, len: nat): State {
    if s.active.None? || len == 0 then s
    else var a := s.active.value;
      s.(footer := s.footer[a := Footer(s, a) + {k}], written := s.written + [Written(k, len)])
  }

  /** The ref at k, if any, leaves the index for the given stage. */
  function Evict(s: State, k: Key, stage: Stage): State {
    if k !in s.idx then s
    else s.(idx := s.idx - {k}, gone := s.gone[s.nextGone := Gone(s.idx[k], stage)], nextGone := s.nextGone + 1)
  }

  function Enter(s: State, r: Ref): State {
    s.(idx := s.idx[r.key := r], nextRef := s.nextRef + 1, nvmeUsed := Charge(s.nvmeUsed, r.key.ns, r.len))
  }

  /** The acknowledgement publishes: index insert and tier transfer under one shard hold. */
  function Publish(s: State): State {
    if s.active.None? || s.written == [] then s
    else
      var w := s.written[0];
      Enter(Evict(s, w.key, Orphaned), Ref(s.nextRef, w.key, s.active.value, w.len, false, false, 0, false))
        .(written := s.written[1..])
  }

  /** The DRAM gate refused the acknowledgement; the record is garbage. */
  function Refuse(s: State): State {
    if s.written == [] then s else s.(written := s.written[1..])
  }

  /** The writer seals only between batches, when every acknowledgement has run. */
  function Seal(s: State): State {
    if s.active.None? || s.active.value !in s.segs || s.written != [] then s
    else s.(segs := s.segs[s.active.value := s.segs[s.active.value].(sealed := true)], active := None)
  }

  // ---- recovery, before the loops start ------------------------------------------------

  function Recover(s: State, k: Key, seg: SegId, len: nat): State {
    if s.started || k in s.idx || len == 0 then s
    else Enter(s, Ref(s.nextRef, k, seg, len, false, false, 0, false))
           .(segs := s.segs[seg := Seg(true, false, false)],
             footer := s.footer[seg := Footer(s, seg) + {k}],
             nextSeg := if seg < s.nextSeg then s.nextSeg else seg + 1)
  }

  function Start(s: State): State { s.(started := true) }

  // ---- removals and refunds ------------------------------------------------------------

  /** DELETE: no hard pin ever lands on this tier; force overrides a lease and a soft pin. */
  function Delete(s: State, k: Key, force: bool, now: int): State {
    if k in s.idx && !force && s.idx[k].Protected(now) then s else Evict(s, k, Removed)
  }

  /** Self-heal of a corrupt entry, gated on the identity of the ref that was read. */
  function Heal(s: State, k: Key, i: RefId): State {
    if k !in s.idx || s.idx[k].id != i then s else Evict(s, k, Removed)
  }

  /** First half of a refund: an s3-resident removal lowers the segment's liveness count. */
  function Unlink(s: State, g: nat): State {
    if g !in s.gone || s.gone[g].stage != Removed then s
    else
      var r := s.gone[g].ref;
      s.(segRefs := if r.s3Only then SegAdd(s.segRefs, r.seg, -1) else s.segRefs,
         gone := s.gone[g := Gone(r, Unlinked)])
  }

  /** Second half: the bytes go back to the tier that holds the charge. */
  function Return(s: State, g: nat): State {
    if g !in s.gone || s.gone[g].stage != Unlinked then s
    else
      var r := s.gone[g].ref;
      s.(nvmeUsed := if r.s3Only then s.nvmeUsed else Refund(s.nvmeUsed, r.key.ns, r.len),
         s3Used := if r.s3Only then Refund(s.s3Used, r.key.ns, r.len) else s.s3Used,
         gone := s.gone - {g})
  }

  /** Lease grant or release, pin or unpin: any change of protection on an indexed ref. */
  function Protect(s: State, k: Key, until: int, pin: bool): State {
    if k !in s.idx then s else s.(idx := s.idx[k := s.idx[k].(leaseUntil := until, pinned := pin)])
  }

  // ---- spill -----------------------------------------------------------------------------

  /** A segment once listed as sealed stays sealed, or is gone. */
  function SpillLatch(s: State, id: SegId): State {
    if !s.started || id in s.latch || s.active == Some(id) || id >= s.nextSeg then s
    else SetLatch(s, id, Spilling)
  }

  function SpillFail(s: State, id: SegId): State {
    if id !in s.latch || !s.latch[id].Spilling? then s else Unlatch(s, id)
  }

  /** The object is durable; the acknowledgement starts its walk. */
  function SpillUp(s: State, id: SegId): State {
    if id !in s.latch || !s.latch[id].Spilling? || id !in s.segs then s
    else SetLatch(s.(objects := s.objects + {id}), id, Flagging({}, None))
  }

  /** The walk reads the index without holding the shard lock across the store that follows. */
  function FlagPeek(s: State, id: SegId, k: Key): State {
    if id !in s.latch || !s.latch[id].Flagging? || s.latch[id].peek.Some? then s
    else SetLatch(s, id, if k in s.idx && s.idx[k].seg == id then Flagging(s.latch[id].done, Some((k, s.idx[k].id)))
                         else Flagging(s.latch[id].done + {k}, None))
  }

  predicate Peeked(s: State, id: SegId) {
    && id in s.latch && s.latch[id].Flagging? && s.latch[id].peek.Some?
    && s.latch[id].peek.value.0 in s.idx && s.idx[s.latch[id].peek.value.0].id == s.latch[id].peek.value.1
  }

  /** The store lands on the peeked ref; a ref that left the index meanwhile takes it harmlessly. */
  function FlagStore(s: State, id: SegId): State {
    if id !in s.latch || !s.latch[id].Flagging? || s.latch[id].peek.None? then s
    else
      var k := s.latch[id].peek.value.0;
      SetLatch(s, id, Flagging(s.latch[id].done + {k}, None))
        .(idx := if Peeked(s, id) then s.idx[k := s.idx[k].(s3 := true)] else s.idx)
  }

  function MarkSpilled(s: State, id: SegId): State {
    if id !in s.latch || !s.latch[id].Flagging? || s.latch[id].peek.Some? || !(Walk(s, id) <= s.latch[id].done) then s
    else Unlatch(s.(segs := if id in s.segs then s.segs[id := s.segs[id].(spilled := true)] else s.segs), id)
  }

  // ---- reclaim -----------------------------------------------------------------------------

  function ReclaimLatch(s: State, id: SegId): State {
    if !s.started || id in s.latch then s else SetLatch(s, id, Reclaiming)
  }

  /** A protected entry at the pre-gate, or a refused RetireBegin. */
  function ReclaimSkip(s: State, id: SegId): State {
    if id !in s.latch || !s.latch[id].Reclaiming? then s else Unlatch(s, id)
  }

  function RetireBegin(s: State, id: SegId): State {
    if id !in s.latch || !s.latch[id].Reclaiming? || id !in s.segs || !s.segs[id].sealed || s.segs[id].dying then s
    else SetLatch(s.(segs := s.segs[id := s.segs[id].(dying := true)]), id,
                  if s.segs[id].spilled then FlippingOut({}, 0) else Removing({}, false))
  }

  /** The entry is still homed here and not yet flipped, and nothing doomed the retire so far. */
  predicate Flippable(s: State, id: SegId, k: Key) {
    && id in s.latch && s.latch[id].FlippingOut? && s.latch[id].stranded == 0
    && k in s.idx && s.idx[k].seg == id && !s.idx[k].s3Only
  }

  /** The authoritative gate of the flip: the object copy is known and nothing protects the entry. */
  predicate FlipsOut(s: State, id: SegId, k: Key, now: int) {
    Flippable(s, id, k) && s.idx[k].s3 && !s.idx[k].Protected(now)
  }

  /** One shard-locked visit of the retire-flip walk. */
  function FlipOut(s: State, id: SegId, k: Key, now: int): State {
    if id !in s.latch || !s.latch[id].FlippingOut? then s
    else
      var strands := Flippable(s, id, k) && !FlipsOut(s, id, k, now);
      SetLatch(if FlipsOut(s, id, k, now) then MoveOut(s, k) else s, id,
               FlippingOut(s.latch[id].done + {k}, s.latch[id].stranded + if strands then 1 else 0))
  }

  /** The entry becomes s3-resident: charge NVMe to S3, liveness up. */
  function MoveOut(s: State, k: Key): State
    requires k in s.idx
  {
    var r := s.idx[k];
    s.(idx := s.idx[k := r.(s3Only := true)],
       nvmeUsed := Refund(s.nvmeUsed, k.ns, r.len),
       s3Used := Charge(s.s3Used, k.ns, r.len),
       segRefs := SegAdd(s.segRefs, r.seg, 1))
  }

  predicate Removable(s: State, id: SegId, k: Key) {
    id in s.latch && s.latch[id].Removing? && !s.latch[id].blocked && k in s.idx && s.idx[k].seg == id
  }

  predicate Removes(s: State, id: SegId, k: Key, now: int) {
    Removable(s, id, k) && !s.idx[k].Protected(now)
  }

  /** One shard-locked visit of the delete walk of an unspilled segment. */
  function RemoveVisit(s: State, id: SegId, k: Key, now: int): State {
    if id !in s.latch || !s.latch[id].Removing? || s.latch[id].blocked then s
    else
      var blocks := Removable(s, id, k) && !Removes(s, id, k, now);
      SetLatch(if Removes(s, id, k, now) then Evict(s, k, Removed) else s, id,
               Removing(if blocks then s.latch[id].done else s.latch[id].done + {k}, blocks))
  }

  predicate Doomed(o: Owner) { (o.FlippingOut? && o.stranded > 0) || (o.Removing? && o.blocked) }

  function RetireAbort(s: State, id: SegId): State {
    if id !in s.latch || !Doomed(s.latch[id]) then s
    else Unlatch(s.(segs := if id in s.segs then s.segs[id := s.segs[id].(dying := false)] else s.segs), id)
  }

  predicate Walked(s: State, id: SegId) {
    && id in s.latch && (s.latch[id].FlippingOut? || s.latch[id].Removing?)
    && !Doomed(s.latch[id]) && Walk(s, id) <= s.latch[id].done
  }

  /** The walk visited every footer key and nothing blocked: the local file goes. */
  function RetireFinish(s: State, id: SegId): State {
    if !Walked(s, id) then s else Unlatch(s.(segs := s.segs - {id}), id)
  }

  // ---- restore -----------------------------------------------------------------------------

  function RestoreLatch(s: State, id: SegId): State {
    if !s.started || id in s.latch then s else SetLatch(s, id, Restoring)
  }

  function RestoreSkip(s: State, id: SegId): State {
    if id !in s.latch || !s.latch[id].Restoring? then s else Unlatch(s, id)
  }

  /** Download and adopt: the segment comes back sealed and spilled; the object is kept. Ids never minted are refused. */
  function Adopt(s: State, id: SegId): State {
    if id !in s.latch || !s.latch[id].Restoring? || id in s.segs || id !in s.objects || id >= s.nextSeg then s
    else s.(segs := s.segs[id := Seg(true, true, false)])
  }

  /** The segment is local (freshly adopted, or left live by an aborted retire). */
  function FlipHomeBegin(s: State, id: SegId): State {
    if id !in s.latch || !s.latch[id].Restoring? || id !in s.segs then s
    else SetLatch(s, id, FlippingHome({}))
  }

  predicate FlipsHome(s: State, id: SegId, k: Key) {
    id in s.latch && s.latch[id].FlippingHome? && k in s.idx && s.idx[k].seg == id && s.idx[k].s3Only
  }

  /** One shard-locked visit of the restore walk. No gate: residency only grows. */
  function FlipHome(s: State, id: SegId, k: Key): State {
    if id !in s.latch || !s.latch[id].FlippingHome? then s
    else SetLatch(if FlipsHome(s, id, k) then MoveHome(s, k) else s, id, FlippingHome(s.latch[id].done + {k}))
  }

  /** The inverse of MoveOut. */
  function MoveHome(s: State, k: Key): State
    requires k in s.idx
  {
    var r := s.idx[k];
    s.(idx := s.idx[k := r.(s3Only := false)],
       s3Used := Refund(s.s3Used, k.ns, r.len),
       nvmeUsed := Charge(s.nvmeUsed, k.ns, r.len),
       segRefs := SegAdd(s.segRefs, r.seg, -1))
  }

  function RestoreDone(s: State, id: SegId): State {
    if id !in s.latch || !s.latch[id].FlippingHome? || !(Walk(s, id) <= s.latch[id].done) then s
    else Unlatch(s, id)
  }

  // ---- object collection -----------------------------------------------------------------

  function DropLatch(s: State, id: SegId): State {
    if !s.started || id in s.latch then s else SetLatch(s, id, Dropping)
  }

  function DropCheckLive(s: State, id: SegId): State {
    if id !in s.latch || !s.latch[id].Dropping? then s
    else s.(latch := if Bal(s.segRefs, id) > 0 then s.latch - {id} else s.latch[id := DroppingIdle])
  }

  function DropCheckSpilled(s: State, id: SegId): State {
    if id !in s.latch || !s.latch[id].DroppingIdle? then s
    else s.(latch := if id in s.segs && s.segs[id].spilled then s.latch - {id} else s.latch[id := DroppingDead])
  }

  /** A failed DeleteObject may or may not have removed the object. */
  function Drop(s: State, id: SegId, gone: bool): State {
    if id !in s.latch || !s.latch[id].DroppingDead? then s
    else Unlatch(s.(objects := if gone then s.objects - {id} else s.objects), id)
  }

  // ---- runs ------------------------------------------------------------------------------

  datatype WriterStep = OpenSeg | FlushRecord(k: Key, len: nat) | Ack | Nack | SealSeg
                      | RecoverEntry(k: Key, seg: SegId, len: nat) | StartLoops
  datatype EntryStep = DeleteKey(k: Key, force: bool, now: int) | HealKey(k: Key, i: RefId)
                     | UnlinkRef(g: nat) | ReturnCharge(g: nat) | SetProtection(k: Key, until: int, pin: bool)
  datatype SpillStep = SLatch | SFail | SUp | SPeek(k: Key) | SStore | SMark
  datatype ReclaimStep = RLatch | RSkip | RBegin | RFlip(k: Key, now: int) | RRemove(k: Key, now: int) | RAbort | RFinish
  datatype RestoreStep = TLatch | TSkip | TAdopt | TBegin | TFlip(k: Key) | TDone
  datatype CollectStep = CLatch | CLive | CSpilled | CDrop(gone: bool)

  datatype Step =
    | Writer(w: WriterStep)
    | Entry(e: EntryStep)
    | Spill(id: SegId, p: SpillStep)
    | Reclaim(id: SegId, r: ReclaimStep)
    | Restore(id: SegId, t: RestoreStep)
    | Collect(id: SegId, c: CollectStep)

  function NextWriter(s: State, w: WriterStep): State {
    match w
    case OpenSeg => OpenActive(s)
    case FlushRecord(k, len) => Flush(s, k, len)
    case Ack => Publish(s)
    case Nack => Refuse(s)
    case SealSeg => Seal(s)
    case RecoverEntry(k, seg, len) => Recover(s, k, seg, len)
    case StartLoops => Start(s)
  }

  function NextEntry(s: State, e: EntryStep): State {
    match e
    case DeleteKey(k, force, now) => Delete(s, k, force, now)
    case HealKey(k, i) => Heal(s, k, i)
    case UnlinkRef(g) => Unlink(s, g)
    case ReturnCharge(g) => Return(s, g)
    case SetProtection(k, until, pin) => Protect(s, k, until, pin)
  }

  function NextSpill(s: State, id: SegId, p: SpillStep): State {
    match p
    case SLatch => SpillLatch(s, id)
    case SFail => SpillFail(s, id)
    case SUp => SpillUp(s, id)
    case SPeek(k) => FlagPeek(s, id, k)
    case SStore => FlagStore(s, id)
    case SMark => MarkSpilled(s, id)
  }

  function NextReclaim(s: State, id: SegId, r: ReclaimStep): State {
    match r
    case RLatch => ReclaimLatch(s, id)
    case RSkip => ReclaimSkip(s, id)
    case RBegin => RetireBegin(s, id)
    case RFlip(k, now) => FlipOut(s, id, k, now)
    case RRemove(k, now) => RemoveVisit(s, id, k, now)
    case RAbort => RetireAbort(s, id)
    case RFinish => RetireFinish(s, id)
  }

  function NextRestore(s: State, id: SegId, t: RestoreStep): State {
    match t
    case TLatch => RestoreLatch(s, id)
    case TSkip => RestoreSkip(s, id)
    case TAdopt => Adopt(s, id)
    case TBegin => FlipHomeBegin(s, id)
    case TFlip(k) => FlipHome(s, id, k)
    case TDone => RestoreDone(s, id)
  }

  function NextCollect(s: State, id: SegId, c: CollectStep): State {
    match c
    case CLatch => DropLatch(s, id)
    case CLive => DropCheckLive(s, id)
    case CSpilled => DropCheckSpilled(s, id)
    case CDrop(gone) => Drop(s, id, gone)
  }

  /** A step that is not enabled changes nothing, so every sequence of steps is a run. */
  function Next(s: State, step: Step): State {
    match step
    case Writer(w) => NextWriter(s, w)
    case Entry(e) => NextEntry(s, e)
    case Spill(id, p) => NextSpill(s, id, p)
    case Reclaim(id, r) => NextReclaim(s, id, r)
    case Restore(id, t) => NextRestore(s, id, t)
    case Collect(id, c) => NextCollect(s, id, c)
  }

  function Run(s: State, steps: seq<Step>): State
    decreases |steps|
  {
    if steps == [] then s else Run(Next(s, steps[0]), steps[1..])
  }
}
