/**
 * The orchestrator itself: the fields the store updates in place, and the
 * methods that own a segment's latch while they walk it. Each critical section
 * is a step of the machine. Between two of them any other goroutine may run:
 * env gives the steps the others took (never as owner of the latch this method
 * holds) and what the clock then read.
 */
module Tiered {
  import opened Sums
  import opened TierMachine
  import opened TierLedger
  import opened TierExact
  import opened TierDurability
  import opened TierOwners
  import opened TierWalks

  /** The tenant accountant's two tiers. */
  datatype Quotas = Quotas(nvmeUsed: map<Ns, int>, s3Used: map<Ns, int>)

  /** The volume: its segments, their footers, and the records written but not acknowledged. */
  datatype Volume = Volume(segs: map<SegId, Seg>, active: Option<SegId>, nextSeg: SegId,
                           footer: map<SegId, set<Key>>, written: seq<Written>)

  /** Refs removed and not refunded yet, the next identities, and whether the loops run. */
  datatype Removals = Removals(gone: map<nat, Gone>, nextGone: nat, nextRef: RefId, started: bool)

  datatype Outcome = Retired | Busy | Stop
  datatype Status = Ok | NotFound | ErrProtected

  /** Ledgers balanced and every entry's bytes accounted for. */
  ghost predicate Sound(s: State) { Durable(s) && LedgerInv(s) }

  lemma SoundDurable(s: State)
    requires Sound(s)
    ensures Durable(s)
  {
    hide Durable, LedgerInv;
  }

  lemma FlipOutSound(s: State, id: SegId, k: Key, now: int)
    requires Sound(s)
    ensures Sound(FlipOut(s, id, k, now))
  {
    hide Durable, LedgerInv, FlipOut;
    FlipOutKeepsDurable(s, id, k, now);
    FlipOutKeeps(s, id, k, now);
  }

  lemma FlipHomeSound(s: State, id: SegId, k: Key)
    requires Sound(s)
    ensures Sound(FlipHome(s, id, k))
  {
    hide Durable, LedgerInv, FlipHome;
    FlipHomeKeepsDurable(s, id, k);
    FlipHomeKeeps(s, id, k);
  }

  lemma RemoveSound(s: State, id: SegId, k: Key, now: int)
    requires Sound(s)
    ensures Sound(RemoveVisit(s, id, k, now))
  {
    hide Durable, LedgerInv, RemoveVisit;
    RemoveVisitKeepsDurable(s, id, k, now);
    RemoveVisitKeeps(s, id, k, now);
  }

  lemma FlagStoreSound(s: State, id: SegId)
    requires Sound(s)
    ensures Sound(FlagStore(s, id))
  {
    hide Durable, LedgerInv, FlagStore;
    FlagStoreKeepsDurable(s, id);
    FlagStoreKeeps(s, id);
  }

  /** A section that touches no ref and no balance. */
  lemma BooksUntouched(s: State, t: State)
    requires Sound(s) && Durable(t) && SameBooks(s, t)
    ensures Sound(t)
  {
    hide Durable, LedgerInv, SameBooks;
    Same(s, t);
  }

  lemma RetireBeginSound(s: State, id: SegId)
    requires Sound(s)
    ensures Sound(RetireBegin(s, id))
  {
    hide Durable, LedgerInv;
    RetireBeginKeeps(s, id);
    BooksUntouched(s, RetireBegin(s, id));
  }

  lemma UnlinkSound(s: State, g: nat)
    requires Sound(s)
    ensures Sound(Unlink(s, g))
  {
    hide Durable, LedgerInv, SegAdd;
    Ignore(s, Unlink(s, g));
    RefundKeeps(s, g);
  }

  lemma ReturnSound(s: State, g: nat)
    requires Sound(s)
    ensures Sound(Return(s, g))
  {
    hide Durable, LedgerInv, Refund;
    Ignore(s, Return(s, g));
    RefundKeeps(s, g);
  }

  lemma OwedSound(s: State, steps: seq<Step>, g: nat, x: Gone)
    requires Sound(s) && Owes(s, g, x) && HandsOff(steps, g)
    ensures Owes(Run(s, steps), g, x)
  {
    hide Durable, LedgerInv, Run, Owes;
    RunOwes(s, steps, g, x);
  }

  lemma RunNone(s: State)
    ensures Run(s, []) == s
  {
  }

  /** The books after ref left: its tier's balance fell by its length, the liveness count by one if it was s3-resident. */
  ghost predicate Paid(s: State, t: State, ref: Ref) {
    && (forall ns: Ns :: Bal(t.nvmeUsed, ns) == Bal(s.nvmeUsed, ns) - if !ref.s3Only && ns == ref.key.ns then ref.len else 0)
    && (forall ns: Ns :: Bal(t.s3Used, ns) == Bal(s.s3Used, ns) - if ref.s3Only && ns == ref.key.ns then ref.len else 0)
    && (forall j: SegId :: Bal(t.segRefs, j) == Bal(s.segRefs, j) - if ref.s3Only && j == ref.seg then 1 else 0)
  }

  /** The entry, and nothing else, left the index; its charge is owed. */
  predicate Deleted(s: State, t: State, k: Key) {
    && k in s.idx && t.idx == s.idx - {k} && t.gone == s.gone[s.nextGone := Gone(s.idx[k], Removed)]
    && t == s.(idx := t.idx, gone := t.gone, nextGone := s.nextGone + 1)
  }

  lemma PaidSame(s: State, m: State, t: State, k: Key)
    requires Deleted(s, m, k)
    ensures Paid(m, t, s.idx[k]) ==> Paid(s, t, s.idx[k])
  {
  }

  /** The count covers every removed s3-resident ref that is still linked. */
  lemma CountCovers(s: State, g: nat)
    requires LedgerInv(s) && g in s.gone && s.gone[g].stage == Removed && s.gone[g].ref.s3Only
    ensures Bal(s.segRefs, s.gone[g].ref.seg) >= 1
  {
    hide Shaped;
    var ref := s.gone[g].ref;
    assert SegOk(s, ref.seg);
    hide Balanced;
    UnlinkShift(s.idx, s.gone, g, SegCount(ref.seg));
    NonNegative(s.idx, s.gone[g := Gone(ref, Unlinked)], SegCount(ref.seg));
  }

  /** The balance of its tier covers every unlinked ref. */
  lemma ChargeCovers(s: State, g: nat)
    requires LedgerInv(s) && g in s.gone && s.gone[g].stage == Unlinked
    ensures var ref := s.gone[g].ref; ref.len <= Bal(if ref.s3Only then s.s3Used else s.nvmeUsed, ref.key.ns)
  {
    hide Shaped;
    var ref := s.gone[g].ref;
    assert NsOk(s, ref.key.ns);
    hide Balanced;
    if ref.s3Only {
      ReturnShift(s.idx, s.gone, g, S3Charge(ref.key.ns));
      NonNegative(s.idx, s.gone - {g}, S3Charge(ref.key.ns));
    } else {
      ReturnShift(s.idx, s.gone, g, NvmeCharge(ref.key.ns));
      NonNegative(s.idx, s.gone - {g}, NvmeCharge(ref.key.ns));
    }
  }

  /** The first atomic of a refund never heals. */
  lemma UnlinkCounts(s: State, g: nat)
    requires Sound(s) && g in s.gone && s.gone[g].stage == Removed
    ensures var ref := s.gone[g].ref;
      forall j: SegId :: Bal(Unlink(s, g).segRefs, j) == Bal(s.segRefs, j) - if ref.s3Only && j == ref.seg then 1 else 0
  {
    hide Durable, LedgerInv;
    if s.gone[g].ref.s3Only { CountCovers(s, g); }
  }

  /** Nor does the second. */
  lemma ReturnPays(s: State, g: nat)
    requires Sound(s) && g in s.gone && s.gone[g].stage == Unlinked
    ensures var ref := s.gone[g].ref;
      && (forall ns: Ns :: Bal(Return(s, g).nvmeUsed, ns) == Bal(s.nvmeUsed, ns) - if !ref.s3Only && ns == ref.key.ns then ref.len else 0)
      && (forall ns: Ns :: Bal(Return(s, g).s3Used, ns) == Bal(s.s3Used, ns) - if ref.s3Only && ns == ref.key.ns then ref.len else 0)
  {
    hide Durable, LedgerInv;
    ChargeCovers(s, g);
  }

  /** What an acknowledgement publishes: one fresh ref at the record's key, charged to its tenant. */
  lemma PublishIs(s: State)
    requires s.active.Some? && s.written != []
    ensures var w, t := s.written[0], Publish(s);
      && t.idx == s.idx[w.key := Ref(s.nextRef, w.key, s.active.value, w.len, false, false, 0, false)]
      && Bal(t.nvmeUsed, w.key.ns) == Bal(s.nvmeUsed, w.key.ns) + w.len && t.written == s.written[1..]
  {
    var w := s.written[0];
    assert (s.idx - {w.key})[w.key := Ref(s.nextRef, w.key, s.active.value, w.len, false, false, 0, false)]
        == s.idx[w.key := Ref(s.nextRef, w.key, s.active.value, w.len, false, false, 0, false)];
  }

  lemma RetireBeginIs(s: State, id: SegId, o: Owner)
    requires id in s.latch && s.latch[id].Reclaiming? && id in s.segs && s.segs[id].sealed && !s.segs[id].dying
    requires o == if s.segs[id].spilled then FlippingOut({}, 0) else Removing({}, false)
    ensures RetireBegin(s, id) == s.(segs := s.segs[id := s.segs[id].(dying := true)], latch := s.latch[id := o])
  {
  }

  lemma KeptTrans(a: State, b: State, c: State, id: SegId)
    requires Kept(a, b, id) && Kept(b, c, id)
    ensures Kept(a, c, id)
  {
  }

  lemma KeptSame(a: State, b: State, c: State, id: SegId)
    requires Kept(a, b, id) && SameSegments(b, c)
    ensures Kept(a, c, id) && Footer(c, id) == Footer(b, id) && (Closed(b, id) ==> Closed(c, id))
  {
  }

  lemma RunSound(s: State, steps: seq<Step>)
    requires Sound(s)
    ensures Sound(Run(s, steps))
  {
    hide Durable, LedgerInv, Run;
    RunDurable(s, steps);
  }

  class Tiered {
    var idx: map<Key, Ref>
    var segRefs: map<SegId, int>
    var latch: map<SegId, Owner>
    var quotas: Quotas
    var vol: Volume
    var objects: set<SegId>
    var removals: Removals

    function View(): State
      reads this
    {
      State(idx, removals.gone, removals.nextGone, removals.nextRef, quotas.nvmeUsed, quotas.s3Used, segRefs,
            vol.segs, vol.active, vol.nextSeg, vol.footer, vol.written, objects, latch, removals.started)
    }

    ghost predicate Valid()
      reads this
    {
      Sound(View())
    }

    constructor (bucket: set<SegId>)
      ensures Valid() && View() == Init(bucket)
    {
      idx, segRefs, latch, objects := map[], map[], map[], bucket;
      quotas, vol, removals := Quotas(map[], map[]), Volume(map[], None, 0, map[], []), Removals(map[], 0, 0, false);
      InitBalanced(bucket);
    }

    /** Other goroutines run. */
    method Yield(others: seq<Step>)
      requires Valid()
      modifies this
      ensures Valid() && View() == Run(old(View()), others)
    {
      hide Run, Sound;
      var v := Run(View(), others);
      RunSound(View(), others);
      idx, segRefs, latch, objects := v.idx, v.segRefs, v.latch, v.objects;
      quotas, vol := Quotas(v.nvmeUsed, v.s3Used), Volume(v.segs, v.active, v.nextSeg, v.footer, v.written);
      removals := Removals(v.gone, v.nextGone, v.nextRef, v.started);
    }

    /** Other goroutines run while this one holds id's latch. */
    method YieldHolding(others: seq<Step>, id: SegId)
      requires Valid() && removals.started && Polite(others, id)
      modifies this
      ensures Valid() && removals.started && Kept(old(View()), View(), id) && View() == Run(old(View()), others)
      ensures Closed(old(View()), id) ==> Closed(View(), id) && Footer(View(), id) == Footer(old(View()), id)
    {
      hide Run, LatchKept, SegKept, Footer;
      PoliteKeeps(View(), others, id);
      if Closed(View(), id) { StaysClosed(View(), others, id); }
      Yield(others);
    }

    // ---- the per-segment latch --------------------------------------------------------------

    /** LoadOrStore on the latch map. */
    method Acquire(id: SegId, o: Owner) returns (loaded: bool)
      requires Valid() && removals.started
      requires o.Reclaiming? || o.Restoring? || o.Dropping? || (o.Spilling? && Closed(View(), id))
      modifies `latch
      ensures Valid() && loaded == (id in old(latch))
      ensures latch == if loaded then old(latch) else old(latch)[id := o]
      ensures Closed(View(), id) == old(Closed(View(), id)) && Footer(View(), id) == old(Footer(View(), id))
    {
      hide Durable, LedgerInv;
      loaded := id in latch;
      if !loaded {
        TakeKeeps(View(), id, o);
        BooksUntouched(View(), SetLatch(View(), id, o));
        latch := latch[id := o];
      }
    }

    method ReleaseLatch(id: SegId)
      requires Valid()
      modifies `latch
      ensures Valid() && latch == old(latch) - {id}
    {
      hide Durable, LedgerInv;
      UnlatchKeeps(View(), id);
      BooksUntouched(View(), Unlatch(View(), id));
      latch := latch - {id};
    }

    // ---- counters -------------------------------------------------------------------------

    method S3SegAdd(id: SegId, d: int) returns (zero: bool)
      modifies `segRefs
      ensures segRefs == SegAdd(old(segRefs), id, d)
      ensures zero <==> d < 0 && Bal(old(segRefs), id) + d <= 0
    {
      var n := Bal(segRefs, id) + d;
      zero := false;
      if n <= 0 {
        segRefs := segRefs - {id};
        zero := true;
      } else {
        segRefs := segRefs[id := n];
      }
      zero := zero && d < 0;
    }

    // ---- flip out -------------------------------------------------------------------------

    /** The shard-locked closure of the retire-flip walk. */
    method FlipVisit(id: SegId, k: Key, now: int, stranded: nat) returns (n: nat)
      requires Valid() && id in latch && latch[id].FlippingOut? && latch[id].stranded == stranded
      modifies `idx, `quotas, `segRefs, `latch
      ensures Valid() && View() == FlipOut(old(View()), id, k, now)
      ensures id in latch && latch[id] == FlippingOut(old(latch[id].done) + {k}, n)
    {
      hide Sound, Refund, Charge, SegAdd;
      ghost var before := View();
      n := stranded;
      if k in idx && idx[k].seg == id && !idx[k].s3Only {
        var ref := idx[k];
        if stranded == 0 {
          if !ref.s3 || ref.leaseUntil > now || ref.pinned {
            n := n + 1;
          } else {
            quotas := Quotas(Refund(quotas.nvmeUsed, k.ns, ref.len), Charge(quotas.s3Used, k.ns, ref.len));
            idx := idx[k := ref.(s3Only := true)];
            var _ := S3SegAdd(id, 1);
            assert FlipsOut(before, id, k, now) && View() == MoveOut(before, k);
          }
        }
      }
      assert View() == if FlipsOut(before, id, k, now) then MoveOut(before, k) else before;
      hide MoveOut;
      latch := latch[id := FlippingOut(latch[id].done + {k}, n)];
      assert View() == FlipOut(before, id, k, now);
      FlipOutSound(before, id, k, now);
    }

    /** Flip out every unprotected entry of the latched segment; the count is nonzero iff a visit met a protected one. */
    method S3FlipRetired(id: SegId, env: nat -> Slot) returns (stranded: nat, ghost order: seq<Key>)
      requires Valid() && removals.started && id in latch && latch[id] == FlippingOut({}, 0)
      requires forall n :: Polite(env(n).others, id)
      modifies this
      ensures Valid() && removals.started && id in latch && latch[id].FlippingOut? && latch[id].stranded == stranded
      ensures id in vol.segs && vol.segs[id].sealed && Walk(View(), id) <= latch[id].done
      ensures Lists(order, old(Footer(View(), id))) && View() == Flipped(old(View()), id, order, env)
      ensures stranded > 0 <==> FlipStops(old(View()), id, order, env)
    {
      hide Durable, LedgerInv, FlipOut, Strands, Flipped, Run;
      assert id in vol.segs && vol.segs[id].sealed by { LatchedSealed(View(), id); }
      ghost var start := View();
      assert View() == Flipped(start, id, [], env) && !FlipStops(start, id, [], env) by { FlipNone(start, id, env); }
      hide Sound, FlipStops;
      var keys := Footer(View(), id);
      var rest, n := keys, 0;
      stranded, order := 0, [];
      while rest != {}
        invariant Valid() && removals.started && id in latch && latch[id].FlippingOut? && latch[id].stranded == stranded
        invariant id in vol.segs && vol.segs[id].sealed && Footer(View(), id) == keys
        invariant keys - rest <= latch[id].done
        invariant rest <= keys && Lists(order, keys - rest) && |order| == n
        invariant View() == Flipped(start, id, order, env) && (stranded > 0 <==> FlipStops(start, id, order, env))
        decreases rest
      {
        YieldHolding(env(n).others, id);
        var k :| k in rest;
        FlipSnoc(start, id, order, k, env);
        assert Durable(View()) by { SoundDurable(View()); }
        StrandStep(View(), id, k, env(n).now);
        stranded := FlipVisit(id, k, env(n).now, stranded);
        ListsSnoc(order, keys, rest, k);
        order := order + [k];
        rest, n := rest - {k}, n + 1;
      }
    }

    // ---- removals and refunds ---------------------------------------------------------------

    /** Other goroutines run; this one still owes the refund of removed ref g. */
    method YieldOwing(others: seq<Step>, id: SegId, g: nat, ghost x: Gone)
      requires Valid() && removals.started && Polite(others, id) && HandsOff(others, g) && Owes(View(), g, x)
      modifies this
      ensures Valid() && removals.started && Kept(old(View()), View(), id) && Owes(View(), g, x)
      ensures View() == Run(old(View()), others)
      ensures Closed(old(View()), id) ==> Closed(View(), id) && Footer(View(), id) == Footer(old(View()), id)
    {
      hide Run, LatchKept, SegKept, Footer, Durable, LedgerInv;
      PoliteKeeps(View(), others, id);
      RunOwes(View(), others, g, x);
      if Closed(View(), id) { StaysClosed(View(), others, id); }
      Yield(others);
    }

    /** First atomic of a refund: the liveness count. Reports a zero crossing, which nominates the object. */
    method UnlinkRemoved(g: nat) returns (zero: bool)
      requires Valid() && g in removals.gone && removals.gone[g].stage == Removed
      modifies `segRefs, `removals
      ensures Valid() && View() == Unlink(old(View()), g)
      ensures g in removals.gone && removals.gone[g] == Gone(old(removals.gone)[g].ref, Unlinked)
      ensures zero <==> removals.gone[g].ref.s3Only && Bal(old(segRefs), removals.gone[g].ref.seg) <= 1
      ensures var ref := old(removals.gone)[g].ref;
        forall j: SegId :: Bal(segRefs, j) == Bal(old(segRefs), j) - if ref.s3Only && j == ref.seg then 1 else 0
    {
      hide Sound, SegAdd;
      ghost var before := View();
      UnlinkCounts(before, g);
      var ref := removals.gone[g].ref;
      zero := false;
      if ref.s3Only { zero := S3SegAdd(ref.seg, -1); }
      removals := removals.(gone := removals.gone[g := Gone(ref, Unlinked)]);
      UnlinkSound(before, g);
    }

    /** Second atomic: the bytes go back to the tier that holds the charge. */
    method ReturnRemoved(g: nat)
      requires Valid() && g in removals.gone && removals.gone[g].stage == Unlinked
      modifies `quotas, `removals
      ensures Valid() && View() == Return(old(View()), g) && g !in removals.gone
      ensures var ref := old(removals.gone)[g].ref;
        && (forall ns: Ns :: Bal(quotas.nvmeUsed, ns) == Bal(old(quotas.nvmeUsed), ns) - if !ref.s3Only && ns == ref.key.ns then ref.len else 0)
        && (forall ns: Ns :: Bal(quotas.s3Used, ns) == Bal(old(quotas.s3Used), ns) - if ref.s3Only && ns == ref.key.ns then ref.len else 0)
    {
      hide Sound, Refund;
      ghost var before := View();
      ReturnPays(before, g);
      var ref := removals.gone[g].ref;
      if ref.s3Only {
        quotas := quotas.(s3Used := Refund(quotas.s3Used, ref.key.ns, ref.len));
      } else {
        quotas := quotas.(nvmeUsed := Refund(quotas.nvmeUsed, ref.key.ns, ref.len));
      }
      removals := removals.(gone := removals.gone - {g});
      ReturnSound(before, g);
    }

    /** The refund of a removed ref, interruptible before each of its atomics; id is a latch held meanwhile. */
    method RefundNvmeQuota(g: nat, id: SegId, first: seq<Step>, second: seq<Step>)
      requires Valid() && removals.started && g in removals.gone && removals.gone[g].stage == Removed
      requires Polite(first, id) && Polite(second, id) && HandsOff(first, g) && HandsOff(second, g)
      modifies this
      ensures Valid() && removals.started && Kept(old(View()), View(), id) && g !in removals.gone
      ensures View() == Refunded(old(View()), g, first, second)
      ensures Closed(old(View()), id) ==> Closed(View(), id) && Footer(View(), id) == Footer(old(View()), id)
    {
      hide Sound, Footer, LatchKept, SegKept;
      ghost var x := removals.gone[g];
      YieldOwing(first, id, g, x);
      ghost var mid := View();
      var _ := UnlinkRemoved(g);
      RefundFrame(mid, g);
      KeptSame(old(View()), mid, View(), id);
      ghost var mid2 := View();
      YieldOwing(second, id, g, Gone(x.ref, Unlinked));
      KeptTrans(old(View()), mid2, View(), id);
      ghost var mid3 := View();
      ReturnRemoved(g);
      RefundFrame(mid3, g);
      KeptSame(old(View()), mid3, View(), id);
    }

    // ---- reclaim --------------------------------------------------------------------------

    /** The lowest sealed segment at or above the floor that is not being retired. */
    method OldestSealed(from: SegId) returns (id: SegId, ok: bool)
      ensures ok <==> exists j :: Candidate(vol.segs, from, j)
      ensures ok ==> Oldest(vol.segs, from, id)
    {
      id, ok := 0, false;
      var rest: set<SegId> := vol.segs.Keys;
      while rest != {}
        invariant rest <= vol.segs.Keys
        invariant ok ==> Candidate(vol.segs, from, id)
        invariant forall j :: Candidate(vol.segs, from, j) && j !in rest ==> ok && id <= j
        decreases rest
      {
        NonEmpty(rest);
        var sid :| sid in rest;
        rest := rest - {sid};
        if sid >= from && vol.segs[sid].sealed && !vol.segs[sid].dying {
          if !ok || sid < id { id, ok := sid, true; }
        }
      }
    }

    method BeginRetire(id: SegId) returns (ok: bool)
      requires Valid() && id in latch && latch[id].Reclaiming?
      modifies `vol, `latch
      ensures Valid() && View() == RetireBegin(old(View()), id)
      ensures id in latch && ok == !latch[id].Reclaiming?
    {
      hide Sound;
      ghost var before := View();
      ok := id in vol.segs && vol.segs[id].sealed && !vol.segs[id].dying;
      if !ok { return; }
      var s := vol.segs[id];
      var owner := if s.spilled then FlippingOut({}, 0) else Removing({}, false);
      RetireBeginSound(before, id);
      RetireBeginIs(before, id, owner);
      hide RetireBegin;
      vol := vol.(segs := vol.segs[id := s.(dying := true)]);
      latch := latch[id := owner];
    }

    /** Protection landed mid-retire: the segment serves again. */
    method AbortRetire(id: SegId)
      requires Valid() && id in latch && Doomed(latch[id])
      modifies `vol, `latch
      ensures Valid() && View() == RetireAbort(old(View()), id) && id !in latch
    {
      hide Durable, LedgerInv;
      ghost var before := View();
      if id in vol.segs { vol := vol.(segs := vol.segs[id := vol.segs[id].(dying := false)]); }
      latch := latch - {id};
      RetireAbortKeeps(before, id);
      BooksUntouched(before, View());
    }

    method FinishRetire(id: SegId)
      requires Valid() && Walked(View(), id)
      modifies `vol, `latch
      ensures Valid() && View() == RetireFinish(old(View()), id) && id !in latch && id !in vol.segs
      ensures forall k :: k in idx && idx[k].seg == id ==> idx[k].s3Only && id in objects
    {
      hide Durable, LedgerInv;
      ghost var before := View();
      vol := vol.(segs := vol.segs - {id});
      latch := latch - {id};
      RetireFinishKeeps(before, id);
      BooksUntouched(before, View());
      AwayResident(View(), id);
    }

    /** The gated removal of the delete walk: one shard-locked visit. */
    method RemoveEntry(id: SegId, k: Key, now: int) returns (removed: bool, blocked: bool, g: nat)
      requires Valid() && id in latch && latch[id].Removing? && !latch[id].blocked
      modifies `idx, `removals, `latch
      ensures Valid() && View() == RemoveVisit(old(View()), id, k, now)
      ensures removed <==> Removes(old(View()), id, k, now)
      ensures blocked <==> Guards(old(View()), id, k, now)
      ensures removed ==> g == old(removals.nextGone) && g in removals.gone && removals.gone[g] == Gone(old(idx)[k], Removed) && k !in idx
      ensures id in latch && latch[id] == Removing(if blocked then old(latch[id].done) else old(latch[id].done) + {k}, blocked)
      ensures removals.started == old(removals.started)
    {
      hide Sound;
      ghost var before := View();
      removed, blocked, g := false, false, removals.nextGone;
      if k in idx && idx[k].seg == id {
        if idx[k].leaseUntil > now || idx[k].pinned {
          blocked := true;
        } else {
          removals := removals.(gone := removals.gone[g := Gone(idx[k], Removed)], nextGone := g + 1);
          idx := idx - {k};
          removed := true;
        }
      }
      assert removed <==> Removes(before, id, k, now);
      assert View() == if removed then Evict(before, k, Removed) else before;
      hide Evict;
      latch := latch[id := Removing(if blocked then latch[id].done else latch[id].done + {k}, blocked)];
      RemoveSound(before, id, k, now);
    }

    /** Remove and refund every entry of an unspilled segment, until a visit meets a protected one. */
    method RemoveRetired(id: SegId, entries: set<Key>, env: (nat, nat) -> Slot) returns (blocked: bool, ghost order: seq<Key>)
      requires Valid() && removals.started && id in latch && latch[id] == Removing({}, false)
      requires Closed(View(), id) && entries == Footer(View(), id)
      requires forall n, g :: Polite(env(n, g).others, id) && HandsOff(env(n, g).others, g)
      modifies this
      ensures Valid() && removals.started && id in latch && latch[id].Removing? && latch[id].blocked == blocked
      ensures !blocked ==> Walk(View(), id) <= latch[id].done
      ensures Among(order, entries) && (!blocked ==> Lists(order, entries)) && View() == Cleared(old(View()), id, order, env)
      ensures blocked <==> ClearStops(old(View()), id, order, env)
    {
      hide Sound, Footer, RemoveVisit, Removes, Blocks, Cleared, ClearOne, ClearMeets;
      var rest, n := entries, 0;
      blocked, order := false, [];
      ghost var start := View();
      ClearNone(start, id, env);
      hide ClearStops;
      while rest != {} && !blocked
        invariant Valid() && removals.started && id in latch && latch[id].Removing? && latch[id].blocked == blocked
        invariant Closed(View(), id) && Footer(View(), id) == entries
        invariant !blocked ==> entries - rest <= latch[id].done
        invariant rest <= entries && Lists(order, entries - rest) && 3 * |order| == n
        invariant View() == Cleared(start, id, order, env) && (blocked <==> ClearStops(start, id, order, env))
        decreases rest
      {
        var k :| k in rest;
        ghost var before := View();
        blocked := ClearVisit(id, k, env, n);
        ClearSnoc(start, id, order, k, env);
        ListsSnoc(order, entries, rest, k);
        order := order + [k];
        rest, n := rest - {k}, n + 3;
      }
    }

    /** One visit of the delete walk, after others ran, with the refund that follows a removal. */
    method ClearVisit(id: SegId, k: Key, env: (nat, nat) -> Slot, n: nat) returns (blocked: bool)
      requires Valid() && removals.started && id in latch && latch[id].Removing? && !latch[id].blocked && Closed(View(), id)
      requires forall m, g :: Polite(env(m, g).others, id) && HandsOff(env(m, g).others, g)
      modifies this
      ensures Valid() && removals.started && id in latch
      ensures latch[id] == Removing(if blocked then old(latch[id].done) else old(latch[id].done) + {k}, blocked)
      ensures Closed(View(), id) && Footer(View(), id) == old(Footer(View(), id))
      ensures View() == ClearOne(old(View()), id, k, env, n) && (blocked <==> Blocks(old(View()), id, k, env, n))
    {
      hide Sound, Footer, RemoveVisit, Removes, Run, Refunded;
      var slot := env(n, removals.nextGone);
      YieldHolding(slot.others, id);
      ghost var seen := View();
      var removed, stop, g := RemoveEntry(id, k, slot.now);
      RemoveSegments(seen, id, k, slot.now);
      blocked := stop;
      if removed { RefundNvmeQuota(g, id, env(n + 1, g).others, env(n + 2, g).others); }
    }

    /** The advisory pre-gate: refuses iff some visit meets an entry homed here and protected. */
    method PreGate(id: SegId, entries: set<Key>, now: int, env: nat -> Slot) returns (protected: bool, ghost order: seq<Key>)
      requires Valid() && removals.started && id in latch && Closed(View(), id)
      requires forall n :: Polite(env(n).others, id)
      modifies this
      ensures Valid() && removals.started && id in latch && latch[id] == old(latch[id])
      ensures Closed(View(), id) && Footer(View(), id) == old(Footer(View(), id))
      ensures Among(order, entries) && (!protected ==> Lists(order, entries)) && View() == Ran(old(View()), env, |order|)
      ensures protected <==> GateStops(old(View()), id, order, now, env)
    {
      hide Sound, Footer, SegKept, Run, GateStops;
      var rest, n := entries, 0;
      protected, order := false, [];
      ghost var start := View();
      assert !GateStops(start, id, [], now, env) by { GateNone(start, id, now, env); }
      while rest != {} && !protected
        invariant Valid() && removals.started && id in latch && latch[id] == old(latch[id])
        invariant Closed(View(), id) && Footer(View(), id) == old(Footer(View(), id))
        invariant rest <= entries && Lists(order, entries - rest) && |order| == n
        invariant View() == Ran(start, env, n) && (protected <==> GateStops(start, id, order, now, env))
        decreases rest
      {
        YieldHolding(env(n).others, id);
        var k :| k in rest;
        GateSnoc(start, id, order, k, now, env);
        protected := k in idx && idx[k].seg == id && idx[k].Protected(now);
        ListsSnoc(order, entries, rest, k);
        order := order + [k];
        rest, n := rest - {k}, n + 1;
      }
    }

    /**
     * Retire the oldest sealed segment at or above the floor, under its latch:
     * flip its entries out if an object backs it, else remove them; abort if
     * protection landed meanwhile. Busy: the latch was held, or the pre-gate met a
     * protected entry. Stop: no candidate, the segment was no longer retirable
     * when the retire began, or the walk met a protected entry. Else Retired.
     */
    method ReclaimSegment(from: SegId, before: seq<Step>, now: int, gate: (nat, SegId) -> Slot, env: Env)
      returns (out: Outcome, id: SegId, ghost gated: seq<Key>, ghost walked: seq<Key>)
      requires Valid() && removals.started
      requires forall n, j :: Polite(gate(n, j).others, j)
      requires forall n, j, g :: Polite(env(n, j, g).others, j) && HandsOff(env(n, j, g).others, g)
      modifies this
      ensures Valid() && removals.started
      ensures out == Retired ==> id !in vol.segs && id !in latch
      ensures out == Retired ==> forall k :: k in idx && idx[k].seg == id ==> idx[k].s3Only && id in objects
      ensures Oldest(old(vol.segs), from, id) || ((forall j :: !Candidate(old(vol.segs), from, j)) && out == Stop)
      ensures Oldest(old(vol.segs), from, id) ==>
        Verdict(old(View()), before, id, now, GateEnv(gate, id), env, gated, walked, out)
      ensures Oldest(old(vol.segs), from, id) && Idle(old(View()), before, id, now, gate, env) ==> out == Retired
    {
      hide Durable, LedgerInv, Footer, LatchKept, SegKept, Run, Verdict, Idle;
      gated, walked := [], [];
      var ok;
      id, ok := OldestSealed(from);
      if !ok { return Stop, 0, [], []; }
      SealedClosed(View(), id);
      hide Sound;
      var entries := Footer(View(), id);
      StaysClosed(View(), before, id);
      Yield(before);
      var loaded := Acquire(id, Reclaiming);
      if loaded {
        BusyLatched(old(View()), before, id, now, GateEnv(gate, id), env);
        QuietVerdict(old(View()), before, from, id, now, gate, env, [], [], Busy);
        return Busy, id, [], [];
      }
      var protected;
      protected, gated := PreGate(id, entries, now, GateEnv(gate, id));
      if protected {
        ReleaseLatch(id);
        out := Busy;
      } else {
        out, walked := RetireHeld(id, entries, env);
      }
      VerdictHeld(old(View()), before, id, now, GateEnv(gate, id), env, gated, walked, out);
      QuietVerdict(old(View()), before, from, id, now, gate, env, gated, walked, out);
    }

    /** The latched part, from RetireBegin on. */
    method RetireHeld(id: SegId, entries: set<Key>, env: Env) returns (out: Outcome, ghost order: seq<Key>)
      requires Valid() && removals.started && id in latch && latch[id] == Reclaiming
      requires Closed(View(), id) && Footer(View(), id) == entries
      requires forall n, j, g :: Polite(env(n, j, g).others, j) && HandsOff(env(n, j, g).others, g)
      modifies this
      ensures Valid() && removals.started && out != Busy && id !in latch
      ensures out == Retired ==> id !in vol.segs && forall k :: k in idx && idx[k].seg == id ==> idx[k].s3Only && id in objects
      ensures Among(order, entries) && (out == Retired ==> Lists(order, entries))
      ensures out == Retired <==> Retirable(old(View()), id) && !WalkStops(old(View()), id, order, env)
    {
      hide Sound, Footer, FlipStops, ClearStops, WalkStops, RetireBegin, Flipped, Cleared, Among, LatchKept;
      ghost var mark := View();
      AmongNone(entries);
      WalkKind(mark, id, env);
      var begun := BeginRetire(id);
      order := [];
      if !begun {
        ReleaseLatch(id);
        return Stop, [];
      }
      BegunClosed(mark, id);
      assert Footer(View(), id) == entries;
      if latch[id].FlippingOut? {
        var stranded;
        stranded, order := S3FlipRetired(id, FlipEnv(env, id));
        if stranded > 0 {
          AbortRetire(id);
          return Stop, order;
        }
      } else {
        var blocked;
        blocked, order := RemoveRetired(id, entries, ClearEnv(env, id));
        if blocked {
          AbortRetire(id);
          return Stop, order;
        }
      }
      FinishRetire(id);
      return Retired, order;
    }

    /**
     * One reclaim pass: retire the oldest segments while the volume is above its
     * mark, at most four, stepping over at most eight busy ones. The floor rises
     * past each busy candidate, so the pass never looks at it again.
     */
    method ReclaimPass(above: nat -> bool, before: nat -> seq<Step>, now: nat -> int, gate: nat -> ((nat, SegId) -> Slot), env: nat -> Env)
      returns (retired: nat, skipped: seq<SegId>, stopped: bool)
      requires Valid() && removals.started
      requires forall m, n, j :: Polite(gate(m)(n, j).others, j)
      requires forall m, n, j, g :: Polite(env(m)(n, j, g).others, j) && HandsOff(env(m)(n, j, g).others, g)
      modifies this
      ensures Valid() && removals.started && retired <= 4 && |skipped| <= 8
      ensures forall i, j :: 0 <= i < j < |skipped| ==> skipped[i] < skipped[j]
      ensures forall m :: 0 <= m < retired + |skipped| ==> above(m)
      ensures stopped || retired == 4 || |skipped| == 8 || !above(retired + |skipped|)
      ensures above(0) && Ready(old(View()), before(0), now(0), gate(0), env(0)) ==> retired >= 1
    {
      hide Sound, Verdict, Idle;
      ghost var ready := above(0) && Ready(View(), before(0), now(0), gate(0), env(0));
      var from := 0;
      retired, skipped, stopped := 0, [], false;
      while retired < 4 && |skipped| < 8 && !stopped
        invariant Valid() && removals.started && retired <= 4 && |skipped| <= 8
        invariant forall i :: 0 <= i < |skipped| ==> skipped[i] < from
        invariant forall i, j :: 0 <= i < j < |skipped| ==> skipped[i] < skipped[j]
        invariant forall m :: 0 <= m < retired + |skipped| ==> above(m)
        invariant ready && retired == 0 ==> View() == old(View()) && from == 0 && skipped == [] && !stopped
        decreases 12 - retired - |skipped|, !stopped
      {
        var m := retired + |skipped|;
        if !above(m) { return; }
        var out, id, _, _ := ReclaimSegment(from, before(m), now(m), gate(m), env(m));
        if out == Stop {
          stopped := true;
        } else if out == Busy {
          from, skipped := id + 1, skipped + [id];
        } else {
          retired := retired + 1;
        }
      }
    }

    // ---- restore --------------------------------------------------------------------------

    /** The shard-locked closure of the restore walk. */
    method HomeVisit(id: SegId, k: Key) returns (flipped: bool)
      requires Valid() && id in latch && latch[id].FlippingHome?
      modifies `idx, `quotas, `segRefs, `latch
      ensures Valid() && View() == FlipHome(old(View()), id, k) && flipped == FlipsHome(old(View()), id, k)
      ensures id in latch && latch[id] == FlippingHome(old(latch[id].done) + {k})
    {
      hide Sound, Refund, Charge, SegAdd;
      ghost var before := View();
      flipped := k in idx && idx[k].seg == id && idx[k].s3Only;
      if flipped {
        var ref := idx[k];
        quotas := Quotas(Charge(quotas.nvmeUsed, k.ns, ref.len), Refund(quotas.s3Used, k.ns, ref.len));
        idx := idx[k := ref.(s3Only := false)];
        var _ := S3SegAdd(id, -1);
      }
      assert View() == if FlipsHome(before, id, k) then MoveHome(before, k) else before;
      hide MoveHome;
      latch := latch[id := FlippingHome(latch[id].done + {k})];
      FlipHomeSound(before, id, k);
    }

    /** Flip every s3-resident entry of the local segment home; the count is of the visits that found one. */
    method S3FlipRestored(id: SegId, env: nat -> Slot) returns (flipped: nat, ghost order: seq<Key>)
      requires Valid() && removals.started && id in latch && latch[id] == FlippingHome({}) && Closed(View(), id)
      requires id in vol.segs && vol.segs[id].sealed
      requires forall n :: Polite(env(n).others, id)
      modifies this
      ensures Valid() && removals.started && id in latch && latch[id].FlippingHome?
      ensures id in vol.segs && vol.segs[id] == old(vol.segs[id]) && Walk(View(), id) <= latch[id].done
      ensures Lists(order, old(Footer(View(), id))) && View() == Homed(old(View()), id, order, env)
      ensures flipped == Homecomings(old(View()), id, order, env)
    {
      hide Sound, FlipsHome, Footer, Closed, Homed, Homecomings, Run;
      var keys := Footer(View(), id);
      var rest, n := keys, 0;
      flipped, order := 0, [];
      ghost var start := View();
      HomeNone(start, id, env);
      while rest != {}
        invariant Valid() && removals.started && id in latch && latch[id].FlippingHome?
        invariant id in vol.segs && vol.segs[id].sealed && vol.segs[id] == old(vol.segs[id]) && Closed(View(), id) && Footer(View(), id) == keys
        invariant keys - rest <= latch[id].done && rest <= keys
        invariant Lists(order, keys - rest) && |order| == n
        invariant View() == Homed(start, id, order, env) && flipped == Homecomings(start, id, order, env)
        decreases rest
      {
        var k :| k in rest;
        HomeSnoc(start, id, order, k, env);
        var home := VisitHome(env(n).others, id, k);
        if home { flipped := flipped + 1; }
        ListsSnoc(order, keys, rest, k);
        order := order + [k];
        rest, n := rest - {k}, n + 1;
      }
    }

    /** One visit of the restore walk, after others ran. */
    method VisitHome(others: seq<Step>, id: SegId, k: Key) returns (home: bool)
      requires Valid() && removals.started && id in latch && latch[id].FlippingHome? && Closed(View(), id)
      requires id in vol.segs && vol.segs[id].sealed && Polite(others, id)
      modifies this
      ensures Valid() && removals.started && id in latch && latch[id] == FlippingHome(old(latch[id].done) + {k})
      ensures id in vol.segs && vol.segs[id] == old(vol.segs[id]) && Closed(View(), id) && Footer(View(), id) == old(Footer(View(), id))
      ensures View() == FlipHome(Run(old(View()), others), id, k) && home == FlipsHome(Run(old(View()), others), id, k)
    {
      hide Sound, FlipHome, FlipsHome, Footer, Run;
      YieldHolding(others, id);
      ghost var mark := View();
      home := HomeVisit(id, k);
      VisitFooter(mark, View(), id);
    }

    /**
     * One queued restore: stale requests and busy latches are skipped; a segment
     * that is not local is downloaded and adopted if there is room and the
     * download succeeds; then every entry is flipped home. The object is kept.
     */
    method RestoreOne(k: Key, i: RefId, before: seq<Step>, room: bool, arrives: bool, env: (nat, SegId) -> Slot)
      returns (restored: bool, adopted: bool, id: SegId)
      requires Valid() && removals.started
      requires forall n, j :: Polite(env(n, j).others, j)
      modifies this
      ensures Valid() && removals.started
      ensures restored ==> id in vol.segs && id !in latch && forall k :: k in idx && idx[k].seg == id ==> !idx[k].s3Only
      ensures restored && adopted ==> vol.segs[id].spilled && id in objects
      ensures restored <==>
        && Awaited(old(View()), k, i) && old(idx)[k].seg !in Run(old(View()), before).latch
        && var t := Downloading(old(View()), before, old(idx)[k].seg, env);
           old(idx)[k].seg in t.segs || (room && arrives && Adoptable(t, old(idx)[k].seg))
      ensures restored ==> id == old(idx)[k].seg && (adopted <==> id !in Downloading(old(View()), before, id, env).segs)
    {
      hide Durable, LedgerInv, Footer, Run, FlipHomeBegin, Adopt;
      restored, adopted, id := false, false, 0;
      if k !in idx || idx[k].id != i || !idx[k].s3Only { return; }
      id := idx[k].seg;
      ResidentClosed(View(), k);
      StaysClosed(View(), before, id);
      Yield(before);
      var loaded := Acquire(id, Restoring);
      if loaded { return; }
      YieldHolding(env(0, id).others, id);
      if id !in vol.segs {
        if room && arrives { adopted := AdoptSegment(id); }
        if !adopted {
          ReleaseLatch(id);
          return;
        }
      }
      FlipHeld(id, adopted, GateEnv(env, id));
      restored := true;
    }

    /** The latched part, once the segment is local. */
    method FlipHeld(id: SegId, adopted: bool, env: nat -> Slot)
      requires Valid() && removals.started && id in latch && latch[id] == Restoring && Closed(View(), id) && id in vol.segs
      requires adopted ==> vol.segs[id].spilled
      requires forall n :: Polite(env(n).others, id)
      modifies this
      ensures Valid() && removals.started && id in vol.segs && id !in latch
      ensures forall k :: k in idx && idx[k].seg == id ==> !idx[k].s3Only
      ensures adopted ==> vol.segs[id].spilled && id in objects
    {
      hide Durable, LedgerInv, Footer;
      assert vol.segs[id].sealed by { ClosedSealed(View(), id); }
      FlipHomeBeginKeeps(View(), id);
      BooksUntouched(View(), FlipHomeBegin(View(), id));
      ghost var mark := View();
      latch := latch[id := FlippingHome({})];
      VisitFooter(mark, View(), id);
      hide Sound;
      var _, _ := S3FlipRestored(id, (n: nat) => env(n + 1));
      HomeAll(View(), id);
      ReleaseLatch(id);
    }

    /** Download and adopt; an id that was never minted, or whose object is gone, is refused. */
    method AdoptSegment(id: SegId) returns (ok: bool)
      requires Valid() && id in latch && latch[id].Restoring? && id !in vol.segs
      modifies `vol
      ensures Valid() && View() == Adopt(old(View()), id)
      ensures ok <==> Adoptable(old(View()), id)
      ensures ok ==> id in vol.segs && vol.segs[id] == Seg(true, true, false)
      ensures Closed(View(), id) == old(Closed(View(), id))
    {
      hide Durable, LedgerInv;
      ghost var before := View();
      ok := id in objects && id < vol.nextSeg;
      if ok { vol := vol.(segs := vol.segs[id := Seg(true, true, false)]); }
      AdoptKeeps(before, id);
      BooksUntouched(before, View());
    }

    // ---- object collection ------------------------------------------------------------------

    /** Drop a nominated object if, under its latch, nothing s3-resident and no live spilled segment needs it. */
    method DropObject(id: SegId, answer: bool, env: nat -> Slot) returns (dropped: bool)
      requires Valid() && removals.started
      requires forall n :: Polite(env(n).others, id)
      modifies this
      ensures Valid() && removals.started
      ensures dropped ==> id !in objects && id !in latch && !(id in vol.segs && vol.segs[id].spilled)
      ensures dropped ==> forall k :: k in idx && idx[k].seg == id ==> !idx[k].s3Only && id in vol.segs
      ensures dropped <==> answer && id !in old(latch) && Unclaimed(Latched(old(View()), id, env), id, env)
    {
      hide Sound, Footer, SegKept, Drop, DropCheckLive, DropCheckSpilled, Run, Bal, Closed, Polite;
      dropped := false;
      var loaded := Acquire(id, Dropping);
      if loaded { return; }
      YieldHolding(env(0).others, id);
      var live := CheckLive(id);
      if live { return; }
      YieldHolding(env(1).others, id);
      var backed := CheckBacked(id);
      if backed { return; }
      YieldHolding(env(2).others, id);
      dropped := DropHeld(id, answer);
    }

    /** Is something of the segment still s3-resident? If so the latch is released. */
    method CheckLive(id: SegId) returns (live: bool)
      requires Valid() && id in latch && latch[id] == Dropping
      modifies `latch
      ensures Valid() && View() == DropCheckLive(old(View()), id) && live == (Bal(segRefs, id) > 0)
      ensures !live ==> id in latch && latch[id] == DroppingIdle
    {
      hide Durable, LedgerInv;
      ghost var before := View();
      live := Bal(segRefs, id) > 0;
      latch := if live then latch - {id} else latch[id := DroppingIdle];
      DropCheckLiveKeeps(before, id);
      BooksUntouched(before, View());
    }

    /** Does a live spilled segment still claim the object? If so the latch is released. */
    method CheckBacked(id: SegId) returns (backed: bool)
      requires Valid() && id in latch && latch[id] == DroppingIdle
      modifies `latch
      ensures Valid() && View() == DropCheckSpilled(old(View()), id) && backed == (id in vol.segs && vol.segs[id].spilled)
      ensures !backed ==> id in latch && latch[id] == DroppingDead
    {
      hide Durable, LedgerInv;
      ghost var before := View();
      backed := id in vol.segs && vol.segs[id].spilled;
      latch := if backed then latch - {id} else latch[id := DroppingDead];
      DropCheckSpilledKeeps(before, id);
      BooksUntouched(before, View());
    }

    method DropHeld(id: SegId, answer: bool) returns (dropped: bool)
      requires Valid() && id in latch && latch[id] == DroppingDead
      modifies `objects, `latch
      ensures Valid() && View() == Drop(old(View()), id, answer) && dropped == answer
      ensures dropped ==> id !in objects && id !in latch && !(id in vol.segs && vol.segs[id].spilled)
      ensures dropped ==> forall k :: k in idx && idx[k].seg == id ==> !idx[k].s3Only && id in vol.segs
    {
      hide Durable, LedgerInv;
      ghost var before := View();
      dropped := answer;
      if answer { objects := objects - {id}; }
      latch := latch - {id};
      DropKeeps(before, id, answer);
      BooksUntouched(before, View());
      if answer { DeadObject(before, id); }
    }

    // ---- spill ----------------------------------------------------------------------------

    /** One key of the acknowledgement's walk: look the ref up, then (maybe much later) set its flag. */
    method FlagVisit(id: SegId, k: Key, others: seq<Step>)
      requires Valid() && removals.started && id in latch && latch[id].Flagging? && latch[id].peek.None?
      requires Closed(View(), id) && Polite(others, id)
      modifies this
      ensures Valid() && removals.started && id in latch && latch[id] == Flagging(old(latch[id].done) + {k}, None)
      ensures Closed(View(), id) && Footer(View(), id) == old(Footer(View(), id))
    {
      hide Durable, LedgerInv, Footer, SegKept;
      ghost var done := latch[id].done;
      FlagPeekKeeps(View(), id, k);
      BooksUntouched(View(), FlagPeek(View(), id, k));
      if k !in idx || idx[k].seg != id {
        latch := latch[id := Flagging(latch[id].done + {k}, None)];
        VisitFooter(old(View()), View(), id);
        return;
      }
      var i := idx[k].id;
      latch := latch[id := Flagging(latch[id].done, Some((k, i)))];
      VisitFooter(old(View()), View(), id);
      hide Sound;
      YieldHolding(others, id);
      ghost var mark := View();
      FlagStoreSound(mark, id);
      if k in idx && idx[k].id == i { idx := idx[k := idx[k].(s3 := true)]; }
      latch := latch[id := Flagging(latch[id].done + {k}, None)];
      VisitFooter(mark, View(), id);
      assert View() == FlagStore(mark, id);
    }

    /** Upload a sealed segment and acknowledge: flag every entry first, only then mark the segment spilled. */
    method SpillSegment(id: SegId, uploaded: bool, env: nat -> Slot) returns (spilled: bool)
      requires Valid() && removals.started && Closed(View(), id)
      requires forall n :: Polite(env(n).others, id)
      modifies this
      ensures Valid() && removals.started
      ensures spilled ==> id in vol.segs && vol.segs[id].spilled && id in objects && id !in latch
      ensures spilled ==> forall k :: k in idx && idx[k].seg == id ==> idx[k].s3
      ensures spilled <==> uploaded && id !in old(latch) && id in Run(SetLatch(old(View()), id, Spilling), env(0).others).segs
    {
      hide Durable, LedgerInv, Footer, Run;
      spilled := false;
      var loaded := Acquire(id, Spilling);
      if loaded { return; }
      YieldHolding(env(0).others, id);
      if !uploaded || id !in vol.segs {
        ReleaseLatch(id);
        return;
      }
      SpillUpKeeps(View(), id);
      BooksUntouched(View(), SpillUp(View(), id));
      ghost var mark := View();
      objects := objects + {id};
      latch := latch[id := Flagging({}, None)];
      VisitFooter(mark, View(), id);
      spilled := true;
      FlagAll(id, (n: nat) => env(n + 1));
    }

    method FlagAll(id: SegId, env: nat -> Slot)
      requires Valid() && removals.started && id in latch && latch[id] == Flagging({}, None) && Closed(View(), id)
      requires forall n :: Polite(env(n).others, id)
      modifies this
      ensures Valid() && removals.started && id !in latch && id in vol.segs && vol.segs[id].spilled && id in objects
      ensures forall k :: k in idx && idx[k].seg == id ==> idx[k].s3
    {
      hide Durable, LedgerInv, Footer, Sound;
      var keys := Footer(View(), id);
      var rest, n := keys, 0;
      while rest != {}
        invariant Valid() && removals.started && id in latch && latch[id].Flagging? && latch[id].peek.None?
        invariant Closed(View(), id) && Footer(View(), id) == keys
        invariant keys - rest <= latch[id].done
        decreases rest
      {
        var k :| k in rest;
        FlagVisit(id, k, env(n).others);
        rest, n := rest - {k}, n + 1;
      }
      Mark(id);
    }

    method Mark(id: SegId)
      requires Valid() && id in latch && latch[id].Flagging? && latch[id].peek.None? && Walk(View(), id) <= latch[id].done
      modifies `vol, `latch
      ensures Valid() && View() == MarkSpilled(old(View()), id)
      ensures removals.started && id !in latch && id in vol.segs && vol.segs[id].spilled && id in objects
      ensures forall k :: k in idx && idx[k].seg == id ==> idx[k].s3
    {
      hide Durable, LedgerInv;
      ghost var before := View();
      LatchedSealed(before, id);
      if id in vol.segs { vol := vol.(segs := vol.segs[id := vol.segs[id].(spilled := true)]); }
      latch := latch - {id};
      assert View() == MarkSpilled(before, id);
      MarkSpilledKeeps(before, id);
      BooksUntouched(before, View());
      SpilledFlagged(View(), id);
    }

    // ---- foreground -------------------------------------------------------------------------

    /**
     * DELETE on this tier: gated removal under the shard lock, refund after it.
     * mark is the state in which the shard lock is released: the entry, and
     * nothing else, has left the index, and its charge is owed.
     */
    method DeleteNvme(k: Key, force: bool, now: int, first: seq<Step>, second: seq<Step>) returns (st: Status, ghost mark: State)
      requires Valid() && HandsOff(first, removals.nextGone) && HandsOff(second, removals.nextGone)
      modifies this
      ensures Valid()
      ensures st == if k !in old(idx) then NotFound else if !force && old(idx)[k].Protected(now) then ErrProtected else Ok
      ensures st != Ok ==> View() == mark == old(View())
      ensures st == Ok ==> Deleted(old(View()), mark, k)
      ensures st == Ok ==> View() == Refunded(mark, old(removals.nextGone), first, second) && old(removals.nextGone) !in removals.gone
      ensures st == Ok && first == [] && second == [] ==> idx == old(idx) - {k} && Paid(old(View()), View(), old(idx)[k])
    {
      hide Sound, Refunded, Paid, Deleted, HandsOff;
      mark := View();
      if k !in idx { return NotFound, mark; }
      if !force && (idx[k].leaseUntil > now || idx[k].pinned) { return ErrProtected, mark; }
      var g := removals.nextGone;
      RemoveKey(k);
      mark := View();
      RefundDeleted(g, first, second);
      PaidSame(old(View()), mark, View(), k);
      return Ok, mark;
    }

    /** The shard-locked removal: the entry leaves the index and its charge is owed. */
    method RemoveKey(k: Key)
      requires Valid() && k in idx
      modifies `idx, `removals
      ensures Valid() && idx == old(idx) - {k} && Deleted(old(View()), View(), k)
      ensures Owes(View(), old(removals.nextGone), Gone(old(idx)[k], Removed))
    {
      hide Durable, LedgerInv;
      ghost var before := View();
      EvictStep(before, k, Removed);
      DeleteKeeps(before, k);
      removals := removals.(gone := removals.gone[removals.nextGone := Gone(idx[k], Removed)], nextGone := removals.nextGone + 1);
      idx := idx - {k};
      assert View() == Evict(before, k, Removed);
    }

    /** The refund that follows, with no latch held: interruptible before each of its atomics. */
    method RefundDeleted(g: nat, first: seq<Step>, second: seq<Step>)
      requires Valid() && g in removals.gone && removals.gone[g].stage == Removed && HandsOff(first, g) && HandsOff(second, g)
      modifies this
      ensures Valid() && View() == Refunded(old(View()), g, first, second) && g !in removals.gone
      ensures first == [] && second == [] ==> idx == old(idx) && Paid(old(View()), View(), old(removals.gone)[g].ref)
    {
      hide Sound, Run, Unlink, Return;
      ghost var start := View();
      ghost var x := removals.gone[g];
      OwedSound(View(), first, g, x);
      Yield(first);
      var _ := UnlinkRemoved(g);
      ghost var mid := View();
      OwedSound(View(), second, g, Gone(x.ref, Unlinked));
      Yield(second);
      ReturnRemoved(g);
      if first == [] && second == [] { RunNone(start); RunNone(mid); }
    }

    /** The demotion acknowledgement: insert and charge under one shard hold. */
    method PublishAck() returns (published: bool)
      requires Valid()
      modifies `idx, `quotas, `removals, `vol
      ensures Valid() && View() == Publish(old(View()))
      ensures published <==> old(vol.active).Some? && old(vol.written) != []
      ensures published ==>
        var w := old(vol.written)[0];
        && idx == old(idx)[w.key := Ref(old(removals.nextRef), w.key, old(vol.active).value, w.len, false, false, 0, false)]
        && Bal(quotas.nvmeUsed, w.key.ns) == Bal(old(quotas.nvmeUsed), w.key.ns) + w.len && vol.written == old(vol.written)[1..]
    {
      hide Sound, Charge;
      ghost var before := View();
      if vol.active.None? || vol.written == [] { return false; }
      var w := vol.written[0];
      var ref := Ref(removals.nextRef, w.key, vol.active.value, w.len, false, false, 0, false);
      PutThen(ref);
      hide Enter, Evict;
      vol := vol.(written := vol.written[1..]);
      assert View() == Publish(before);
      PublishSound(before);
      PublishIs(before);
      return true;
    }

    /** Insert or overwrite, and charge, under one shard hold. An overwritten ref keeps its charge for good. */
    method PutThen(ref: Ref)
      modifies `idx, `quotas, `removals
      ensures View() == Enter(Evict(old(View()), ref.key, Orphaned), ref) && ref.key in idx && idx[ref.key] == ref
    {
      hide Charge;
      ghost var before := View();
      if ref.key in idx {
        removals := removals.(gone := removals.gone[removals.nextGone := Gone(idx[ref.key], Orphaned)],
                              nextGone := removals.nextGone + 1);
        idx := idx - {ref.key};
      }
      assert View() == Evict(before, ref.key, Orphaned);
      hide Evict;
      idx := idx[ref.key := ref];
      quotas := quotas.(nvmeUsed := Charge(quotas.nvmeUsed, ref.key.ns, ref.len));
      removals := removals.(nextRef := removals.nextRef + 1);
    }

    predicate Seeded(e: Recovered)
      reads this
    {
      e.key in idx && idx[e.key].len == e.len && idx[e.key].seg == e.seg && !idx[e.key].s3Only
    }

    /** Recovery: every block found on the device is indexed and charged, before any loop starts. */
    method Seed(found: seq<Recovered>)
      requires Valid() && !removals.started
      requires forall i :: 0 <= i < |found| ==> found[i].len > 0 && found[i].key !in idx
      requires forall i, j :: 0 <= i < j < |found| ==> found[i].key != found[j].key
      modifies this
      ensures Valid() && !removals.started
      ensures forall i :: 0 <= i < |found| ==> Seeded(found[i])
      ensures idx.Keys == old(idx.Keys) + set i | 0 <= i < |found| :: found[i].key
    {
      hide Sound, Charge;
      for i := 0 to |found|
        invariant Valid() && !removals.started
        invariant forall j :: 0 <= j < i ==> Seeded(found[j])
        invariant idx.Keys == old(idx.Keys) + set j | 0 <= j < i :: found[j].key
      {
        SeedOne(found[i]);
      }
    }

    method SeedOne(e: Recovered)
      requires Valid() && !removals.started && e.len > 0 && e.key !in idx
      modifies `idx, `quotas, `removals, `vol
      ensures Valid() && View() == Recover(old(View()), e.key, e.seg, e.len) && !removals.started
      ensures idx == old(idx)[e.key := Ref(old(removals.nextRef), e.key, e.seg, e.len, false, false, 0, false)]
    {
      hide Sound, Charge;
      ghost var before := View();
      PutThen(Ref(removals.nextRef, e.key, e.seg, e.len, false, false, 0, false));
      var keys := if e.seg in vol.footer then vol.footer[e.seg] else {};
      vol := vol.(segs := vol.segs[e.seg := Seg(true, false, false)], footer := vol.footer[e.seg := keys + {e.key}],
                  nextSeg := if e.seg < vol.nextSeg then vol.nextSeg else e.seg + 1);
      RecoverSound(before, e.key, e.seg, e.len);
    }
  }

  datatype Recovered = Recovered(key: Key, seg: SegId, len: nat)

  lemma PublishSound(s: State)
    requires Sound(s)
    ensures Sound(Publish(s))
  {
    hide Durable, LedgerInv, Publish;
    PublishKeepsDurable(s);
    PublishKeeps(s);
  }

  lemma RecoverSound(s: State, k: Key, seg: SegId, len: nat)
    requires Sound(s)
    ensures Sound(Recover(s, k, seg, len))
  {
    hide Durable, LedgerInv, Recover;
    RecoverKeepsDurable(s, k, seg, len);
    RecoverKeeps(s, k, seg, len);
  }

  lemma SpilledFlagged(s: State, id: SegId)
    requires Durable(s) && id in s.segs && s.segs[id].spilled
    ensures s.started && id in s.objects && forall k :: k in s.idx && s.idx[k].seg == id ==> s.idx[k].s3
  {
  }

  lemma DeadObject(s: State, id: SegId)
    requires Durable(s) && id in s.latch && s.latch[id] == DroppingDead
    ensures !(id in s.segs && s.segs[id].spilled)
    ensures forall k :: k in s.idx && s.idx[k].seg == id ==> !s.idx[k].s3Only && id in s.segs
  {
  }

  lemma VisitFooter(s: State, t: State, id: SegId)
    requires t.footer == s.footer
    ensures Footer(t, id) == Footer(s, id)
  {
  }

  /** A local segment that is not being written is sealed. */
  lemma ClosedSealed(s: State, id: SegId)
    requires Durable(s) && Closed(s, id) && id in s.segs
    ensures s.segs[id].sealed
  {
  }

  /** After a complete restore walk nothing of the segment is s3-resident. */
  lemma HomeAll(s: State, id: SegId)
    requires Sound(s) && id in s.latch && s.latch[id].FlippingHome? && id in s.segs && Walk(s, id) <= s.latch[id].done
    ensures forall k :: k in s.idx && s.idx[k].seg == id ==> !s.idx[k].s3Only
    ensures s.segs[id].spilled ==> id in s.objects
  {
  }

  /** An s3-resident entry's segment is no longer being written. */
  lemma ResidentClosed(s: State, k: Key)
    requires Durable(s) && s.started && k in s.idx && s.idx[k].s3Only
    ensures Closed(s, s.idx[k].seg) && s.idx[k].seg in s.objects
  {
  }

  lemma SealedClosed(s: State, id: SegId)
    requires Durable(s) && s.started && id in s.segs && s.segs[id].sealed
    ensures Closed(s, id)
  {
  }

  lemma BegunClosed(s: State, id: SegId)
    requires Closed(s, id)
    ensures Closed(RetireBegin(s, id), id) && Footer(RetireBegin(s, id), id) == Footer(s, id)
    ensures RetireBegin(s, id).started == s.started
    ensures id in s.latch && s.latch[id].Reclaiming? ==>
      RetireBegin(s, id).latch[id] in {Reclaiming, FlippingOut({}, 0), Removing({}, false)}
  {
  }

  lemma RemoveSegments(s: State, id: SegId, k: Key, now: int)
    ensures var t := RemoveVisit(s, id, k, now);
      t.started == s.started && Footer(t, id) == Footer(s, id) && (Closed(s, id) ==> Closed(t, id))
  {
  }

  /** What the outcome of reclaiming candidate id says, in the states its steps met. */
  ghost predicate Verdict(s: State, before: seq<Step>, id: SegId, now: int, gate: nat -> Slot, env: Env,
                          gated: seq<Key>, walked: seq<Key>, out: Outcome)
  {
    var tried := Run(s, before);
    var held := SetLatch(tried, id, Reclaiming);
    var begun := Ran(held, gate, |gated|);
    && Among(gated, Footer(s, id)) && Among(walked, Footer(s, id))
    && (out == Busy <==> id in tried.latch || GateStops(held, id, gated, now, gate))
    && (out == Retired <==>
          && id !in tried.latch && !GateStops(held, id, gated, now, gate)
          && Retirable(begun, id) && !WalkStops(begun, id, walked, env))
    && (out == Stop ==> Lists(gated, Footer(s, id)))
    && (out == Retired ==> Lists(gated, Footer(s, id)) && Lists(walked, Footer(s, id)))
  }

  /** No entry of the segment is protected at any of the times the retire looks. */
  ghost predicate Unprotected(s: State, id: SegId, now: int, env: Env) {
    forall k :: k in Footer(s, id) ==> !Guards(s, id, k, now) && forall n, g :: !Guards(s, id, k, env(n, id, g).now)
  }

  /** Nobody else runs, the latch is free and nothing of the segment is protected. */
  ghost predicate Idle(s: State, before: seq<Step>, id: SegId, now: int, gate: (nat, SegId) -> Slot, env: Env) {
    NobodyRuns(before, gate, env) && id !in s.latch && Unprotected(s, id, now, env)
  }

  /** The oldest candidate of all can be retired at once. */
  ghost predicate Ready(s: State, before: seq<Step>, now: int, gate: (nat, SegId) -> Slot, env: Env) {
    exists id :: Oldest(s.segs, 0, id) && Idle(s, before, id, now, gate, env)
  }

  lemma BusyLatched(s: State, before: seq<Step>, id: SegId, now: int, gate: nat -> Slot, env: Env)
    requires id in Run(s, before).latch
    ensures Verdict(s, before, id, now, gate, env, [], [], Busy)
  {
    hide Run;
  }

  lemma VerdictHeld(s: State, before: seq<Step>, id: SegId, now: int, gate: nat -> Slot, env: Env,
                    gated: seq<Key>, walked: seq<Key>, out: Outcome)
    requires id !in Run(s, before).latch && Among(gated, Footer(s, id)) && Among(walked, Footer(s, id))
    requires var held := SetLatch(Run(s, before), id, Reclaiming);
      var stops := GateStops(held, id, gated, now, gate);
      var begun := Ran(held, gate, |gated|);
      && (out == Busy <==> stops) && (!stops ==> Lists(gated, Footer(s, id)))
      && (!stops ==> (out == Retired <==> Retirable(begun, id) && !WalkStops(begun, id, walked, env)))
      && (out == Retired ==> Lists(walked, Footer(s, id)))
    ensures Verdict(s, before, id, now, gate, env, gated, walked, out)
  {
    hide Run, Ran, GateStops, WalkStops, Retirable, Lists, Among, Footer;
  }

  /** With nobody else running, a candidate with a free latch and no protected entry is retired. */
  lemma QuietVerdict(s: State, before: seq<Step>, from: SegId, id: SegId, now: int, gate: (nat, SegId) -> Slot, env: Env,
                     gated: seq<Key>, walked: seq<Key>, out: Outcome)
    requires Candidate(s.segs, from, id) && Verdict(s, before, id, now, GateEnv(gate, id), env, gated, walked, out)
    ensures Idle(s, before, id, now, gate, env) ==> out == Retired
  {
    if Idle(s, before, id, now, gate, env) {
      hide Flipped, Cleared, RetireBegin, FlipMeets, ClearMeets, WalkStops;
      var held := SetLatch(s, id, Reclaiming);
      forall i: nat ensures !GateMeets(held, id, gated, now, GateEnv(gate, id), i) {
        assert i < |gated| ==> gated[i] in Footer(s, id) && !Guards(s, id, gated[i], now);
        QuietRan(held, GateEnv(gate, id), i + 1);
      }
      QuietRan(held, GateEnv(gate, id), |gated|);
      QuietWalk(held, id, walked, env);
    }
  }

  /** The request still names the indexed, s3-resident ref. */
  predicate Awaited(s: State, k: Key, i: RefId) { k in s.idx && s.idx[k].id == i && s.idx[k].s3Only }

  /** A minted id whose object is there. */
  predicate Adoptable(s: State, id: SegId) { id in s.objects && id < s.nextSeg }

  /** Where the restore stands when it looks for the segment, its latch held. */
  function Downloading(s: State, before: seq<Step>, id: SegId, env: (nat, SegId) -> Slot): State {
    Run(SetLatch(Run(s, before), id, Restoring), env(0, id).others)
  }

  /** The collector holds the latch and others ran. */
  function Latched(s: State, id: SegId, env: nat -> Slot): State { Run(SetLatch(s, id, Dropping), env(0).others) }

  /** Nothing s3-resident at the first re-check, no live spilled segment at the second. */
  predicate Unclaimed(s: State, id: SegId, env: nat -> Slot) {
    var t := Run(DropCheckLive(s, id), env(1).others);
    Bal(s.segRefs, id) <= 0 && !(id in t.segs && t.segs[id].spilled)
  }

  predicate Candidate(segs: map<SegId, Seg>, from: SegId, id: SegId) {
    id in segs && id >= from && segs[id].sealed && !segs[id].dying
  }

  ghost predicate Oldest(segs: map<SegId, Seg>, from: SegId, id: SegId) {
    Candidate(segs, from, id) && forall j :: Candidate(segs, from, j) ==> id <= j
  }

  /** Entries homed in a segment that is not local are s3-resident, and their object exists. */
  lemma AwayResident(s: State, id: SegId)
    requires Durable(s) && id !in s.segs
    ensures forall k :: k in s.idx && s.idx[k].seg == id ==> s.idx[k].s3Only && id in s.objects
  {
  }

  lemma LatchedSealed(s: State, id: SegId)
    requires Durable(s) && id in s.latch
    requires s.latch[id].FlippingOut? || s.latch[id].Removing? || s.latch[id].Flagging?
    ensures id in s.segs && s.segs[id].sealed
  {
  }
}
