/**
 * Write-once, for a key on NVMe. A PUT checks the NVMe index before and after its
 * DRAM insert, and a publish is said never to meet an indexed key; still, a PUT
 * that was checked or a promotion that was read before other bytes were published
 * can bring its own bytes into DRAM, from where they replace the published ones.
 * Bytes on NVMe are safe exactly when nothing of the kind is under way.
 */
module WriteOnce {
  import opened Residency

  /** A PUT past its pre-check, or a promotion past its read, that carries other bytes for k. */
  predicate CarriesOther(s: State, t: nat, k: Key, v: Sum) {
    t in s.tasks && (s.tasks[t].Checked? || s.tasks[t].Promoting?) && s.tasks[t].k == k && s.tasks[t].sum != v
  }

  /** A demotion of k under way: it may publish, or hand the key back to the queue. */
  predicate Moves(s: State, t: nat, k: Key) {
    && t in s.tasks && s.tasks[t].k == k
    && (s.tasks[t].Demoting? || s.tasks[t].Collapsing? || s.tasks[t].Refusing? || s.tasks[t].Appended?)
  }

  predicate OtherInDram(s: State, k: Key, v: Sum) { k in s.dram && s.dram[k].sum != v }

  /** No other bytes are on the way to DRAM, and any that are there are out of the demoter's reach. */
  ghost predicate Safe(s: State, k: Key, v: Sum) {
    && (forall t :: !CarriesOther(s, t, k, v))
    && (OtherInDram(s, k, v) ==> k !in s.queued && forall t :: !Moves(s, t, k))
  }

  predicate Stored(s: State, k: Key, v: Sum) { k in s.nvme && s.nvme[k] == v }

  // ---- what is safe stays -----------------------------------------------------------------------

  lemma AdvanceSafe(s: State, t: nat, step: Step, k: Key, v: Sum)
    requires Stored(s, k, v) && Safe(s, k, v) && t in s.tasks
    ensures var n := Advance(s, t, s.tasks[t], step);
      Stored(n, k, v) && Safe(n, k, v) && (OtherInDram(n, k, v) ==> OtherInDram(s, k, v))
  {
    var n := Advance(s, t, s.tasks[t], step);
    assert !CarriesOther(s, t, k, v);
    forall u ensures !CarriesOther(n, u, k, v) { assert !CarriesOther(s, u, k, v); }
    if OtherInDram(s, k, v) {
      assert !Moves(s, t, k);
      forall u ensures !Moves(n, u, k) { assert !Moves(s, u, k); }
    }
  }

  lemma NextSafe(s: State, step: Step, k: Key, v: Sum)
    requires Stored(s, k, v) && Safe(s, k, v) && !Removes(s, step, k)
    ensures var n := Next(s, step); Stored(n, k, v) && Safe(n, k, v) && (OtherInDram(n, k, v) ==> OtherInDram(s, k, v))
  {
    hide Advance;
    var n := Next(s, step);
    if step.PutBegin? || step.DemoteBegin? || step.PromoteBegin? || step.DeleteNvme? || step.EvictDram? || step.DropNvme? {
      forall u ensures !CarriesOther(n, u, k, v) { assert !CarriesOther(s, u, k, v); }
      if OtherInDram(s, k, v) {
        forall u ensures !Moves(n, u, k) { assert !Moves(s, u, k); }
      }
    } else if step.t in s.tasks {
      AdvanceSafe(s, step.t, step, k, v);
    } else {
    }
  }

  lemma {:induction false} SafeStays(s: State, steps: seq<Step>, k: Key, v: Sum)
    requires Stored(s, k, v) && Safe(s, k, v) && Undisturbed(s, steps, k)
    ensures var n := Run(s, steps); Stored(n, k, v) && Safe(n, k, v) && (OtherInDram(n, k, v) ==> OtherInDram(s, k, v))
    decreases |steps|
  {
    hide Next, Removes, Safe;
    if steps == [] {
    } else {
      NextSafe(s, steps[0], k, v);
      SafeStays(Next(s, steps[0]), steps[1..], k, v);
    }
  }

  // ---- what is not safe can be lost -----------------------------------------------------------------

  /** The run removes k at some point, or still has the bytes v on NVMe. */
  predicate Keeps(s: State, steps: seq<Step>, k: Key, v: Sum) { Undisturbed(s, steps, k) ==> Stored(Run(s, steps), k, v) }

  ghost predicate Replaceable(s: State, k: Key, v: Sum) { exists steps :: !Keeps(s, steps, k, v) }

  lemma Already(s: State, k: Key, v: Sum)
    requires !Stored(s, k, v)
    ensures Replaceable(s, k, v)
  {
    var none: seq<Step> := [];
    assert !Keeps(s, none, k, v);
  }

  lemma Before(s: State, step: Step, k: Key, v: Sum)
    requires !Removes(s, step, k) && Replaceable(Next(s, step), k, v)
    ensures Replaceable(s, k, v)
  {
    hide Next, Removes, Stored;
    var rest :| !Keeps(Next(s, step), rest, k, v);
    assert ([step] + rest)[0] == step && ([step] + rest)[1..] == rest;
    assert !Keeps(s, [step] + rest, k, v);
  }

  /** Other bytes in DRAM, queued: a demotion publishes them. */
  lemma QueuedReplaces(s: State, k: Key, v: Sum)
    requires OtherInDram(s, k, v) && k in s.queued && Stored(s, k, v)
    ensures Replaceable(s, k, v)
  {
    var x, u := s.dram[k].sum, s.nextTask;
    var s1 := Next(s, DemoteBegin(k));
    assert s1.tasks[u] == Demoting(k, x);
    var s2 := Next(s1, DemoteRoute(u, true));
    assert s2.tasks[u] == Appended(k, x) && s2.dram == s.dram;
    var s3 := Next(s2, Complete(u, true));
    assert s3.nvme[k] == x;
    hide Next;
    Already(s3, k, v);
    Before(s2, Complete(u, true), k, v);
    Before(s1, DemoteRoute(u, true), k, v);
    Before(s, DemoteBegin(k), k, v);
  }

  /** A demotion under way can give its key back to the queue. */
  lemma Requeued(s: State, u: nat, k: Key, v: Sum)
    requires OtherInDram(s, k, v) && Moves(s, u, k) && !s.tasks[u].Demoting? && Stored(s, k, v)
    ensures Replaceable(s, k, v)
  {
    var n := Next(s, Complete(u, false));
    assert n == s.(tasks := s.tasks - {u}, queued := s.queued + {k});
    hide Next;
    QueuedReplaces(n, k, v);
    Before(s, Complete(u, false), k, v);
  }

  lemma Routed(s: State, u: nat, k: Key, v: Sum)
    requires OtherInDram(s, k, v) && Moves(s, u, k) && s.tasks[u].Demoting? && Stored(s, k, v)
    ensures Replaceable(s, k, v)
  {
    var n := Next(s, DemoteRoute(u, true));
    assert n == s.(tasks := n.tasks) && Moves(n, u, k) && !n.tasks[u].Demoting?;
    hide Next;
    Requeued(n, u, k, v);
    Before(s, DemoteRoute(u, true), k, v);
  }

  /** Other bytes on the way: once k is out of DRAM they arrive, queued. */
  lemma ArrivalReplaces(s: State, t: nat, k: Key, v: Sum)
    requires CarriesOther(s, t, k, v) && Stored(s, k, v)
    ensures Replaceable(s, k, v)
  {
    var m := Next(s, EvictDram(k));
    assert m == s.(dram := s.dram - {k}, queued := s.queued - {k});
    var step := if s.tasks[t].Checked? then PutInsert(t) else PromotePut(t, true);
    var n := Next(m, step);
    assert k in n.dram && n.dram[k].sum == s.tasks[t].sum && k in n.queued && n.nvme == s.nvme;
    hide Next;
    QueuedReplaces(n, k, v);
    Before(m, step, k, v);
    Before(s, EvictDram(k), k, v);
  }

  lemma UnsafeReplaces(s: State, k: Key, v: Sum)
    requires Stored(s, k, v) && !Safe(s, k, v)
    ensures Replaceable(s, k, v)
  {
    if t :| CarriesOther(s, t, k, v) {
      ArrivalReplaces(s, t, k, v);
    } else if k in s.queued {
      QueuedReplaces(s, k, v);
    } else {
      var u :| Moves(s, u, k);
      if s.tasks[u].Demoting? { Routed(s, u, k, v); } else { Requeued(s, u, k, v); }
    }
  }

  // ---- results --------------------------------------------------------------------------------------

  /** From any state, every run without a removal keeps the bytes of k on NVMe if and only if they are safe. */
  lemma SurvivesIffSafe(s: State, k: Key, v: Sum)
    requires Stored(s, k, v)
    ensures Safe(s, k, v) <==> forall steps :: Keeps(s, steps, k, v)
  {
    if Safe(s, k, v) {
      forall steps ensures Keeps(s, steps, k, v) { if Undisturbed(s, steps, k) { SafeStays(s, steps, k, v); } }
    } else {
      UnsafeReplaces(s, k, v);
    }
  }

  /** For a key that is on NVMe only: exactly when no checked PUT and no promotion carries other bytes. */
  lemma SurvivesIffAlone(s: State, k: Key, v: Sum)
    requires Stored(s, k, v) && k !in s.dram
    ensures (forall t :: !CarriesOther(s, t, k, v)) <==> forall steps :: Keeps(s, steps, k, v)
  {
    SurvivesIffSafe(s, k, v);
  }

  /** The step answers OK to a PUT of the bytes sum under k. */
  predicate Acknowledges(s: State, step: Step, k: Key, sum: Sum) {
    && step.PutRecheck? && step.t in s.tasks && s.tasks[step.t].Inserted?
    && s.tasks[step.t].k == k && s.tasks[step.t].sum == sum && step.t !in Next(s, step).tasks
  }

  /** While k's bytes are safe on NVMe, no PUT of other bytes under k is acknowledged. */
  lemma NoConflictingAck(s: State, steps: seq<Step>, last: Step, k: Key, v: Sum, sum: Sum)
    requires Stored(s, k, v) && Safe(s, k, v) && Undisturbed(s, steps, k)
    requires Acknowledges(Run(s, steps), last, k, sum)
    ensures sum == v
  {
    SafeStays(s, steps, k, v);
  }

  /** And a reader that probes DRAM, then NVMe, reads those bytes, whatever moved before or between the probes. */
  lemma ReaderReads(s: State, before: seq<Step>, between: seq<Step>, k: Key, v: Sum)
    requires Stored(s, k, v) && Safe(s, k, v) && !OtherInDram(s, k, v) && Undisturbed(s, before + between, k)
    ensures var a, b := Run(s, before), Run(s, before + between);
      if k in a.dram then a.dram[k].sum == v else k in b.nvme && b.nvme[k] == v
  {
    hide Next, Removes;
    UndisturbedSplit(s, before, between, k);
    SafeStays(s, before, k, v);
    SafeStays(s, before + between, k, v);
  }
}
