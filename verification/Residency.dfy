/**
 * Where a key lives: the DRAM index, the NVMe index, and everything that is
 * under way between them. One step is one critical section of PUT, demotion,
 * promotion, DELETE, eviction or reclaim, so a run is any interleaving.
 *
 * Three results: a PUT that was answered OK never shares its key with other
 * bytes on NVMe while its block stays in DRAM; a reader that probes DRAM and
 * then NVMe finds every undisturbed key exactly when no collapse of a stale
 * dual residency is pending; and a publish can meet an indexed key.
 */
module Residency {
  type Key = nat
  type Sum = nat

  /** A DRAM-resident block; id is the pointer's identity. */
  datatype Block = Block(id: nat, sum: Sum)

  /** What one goroutine is in the middle of. */
  datatype Task =
    | Checked(k: Key, sum: Sum)               // PUT: the NVMe index did not hold the key
    | Inserted(k: Key, sum: Sum, id: nat)     // PUT: in DRAM, re-check to come
    | Withdrawing(k: Key)                     // PUT: the re-check met other bytes
    | Demoting(k: Key, sum: Sum)              // demoter holds a view of the block
    | Collapsing(k: Key, sum: Sum)            // NVMe held the same bytes: only the DRAM copy has to go
    | Refusing(k: Key, sum: Sum)              // never read: not worth the flash
    | Appended(k: Key, sum: Sum)              // handed to the writer; publish to come
    | Promoting(k: Key, sum: Sum)             // bytes read from below; DRAM insert to come
    | Deleting(k: Key)                        // NVMe side done

  datatype State = State(
    dram: map<Key, Block>,
    nvme: map<Key, Sum>,
    tasks: map<nat, Task>,
    nextTask: nat,
    nextBlock: nat,
    queued: set<Key>,
    confirmed: set<(Key, nat)>)

  const EMPTY := State(map[], map[], map[], 0, 0, {}, {})

  datatype Step =
    | PutBegin(k: Key, sum: Sum)
    | PutInsert(t: nat)
    | PutFail(t: nat)
    | PutRecheck(t: nat)
    | PutWithdraw(t: nat, allowed: bool)
    | DemoteBegin(k: Key)
    | DemoteRoute(t: nat, hot: bool)
    | Complete(t: nat, evictable: bool)
    | AppendFail(t: nat)
    | PromoteBegin(k: Key)
    | PromotePut(t: nat, room: bool)
    | DeleteNvme(k: Key, allowed: bool)
    | DeleteDram(t: nat, allowed: bool)
    | EvictDram(k: Key)
    | DropNvme(k: Key)

  function Spawn(s: State, task: Task): State { s.(tasks := s.tasks[s.nextTask := task], nextTask := s.nextTask + 1) }
  function Done(s: State, t: nat): State { s.(tasks := s.tasks - {t}) }
  function Becomes(s: State, t: nat, task: Task): State { s.(tasks := s.tasks[t := task]) }

  /** dram Put is insert-if-absent; a fresh block joins the eviction policy. */
  function Insert(s: State, k: Key, sum: Sum): State {
    s.(dram := s.dram[k := Block(s.nextBlock, sum)], nextBlock := s.nextBlock + 1, queued := s.queued + {k})
  }

  /** CompleteDemotion's gate: still the same bytes, and nothing holds, leases or pins the block. */
  predicate Gate(s: State, k: Key, sum: Sum, evictable: bool) { k in s.dram && s.dram[k].sum == sum && evictable }

  /** The three ways a demotion ends; a refused gate hands the key back to the policy. */
  function Finish(s: State, task: Task, evictable: bool): State {
    match task
    case Collapsing(k, sum) =>
      if Gate(s, k, sum, evictable) then s.(dram := s.dram - {k}) else s.(queued := s.queued + {k})
    case Refusing(k, sum) =>
      if Gate(s, k, sum, evictable) then s.(dram := s.dram - {k}) else s.(queued := s.queued + {k})
    case Appended(k, sum) =>
      if Gate(s, k, sum, evictable) then s.(dram := s.dram - {k}, nvme := s.nvme[k := sum]) else s.(queued := s.queued + {k})
    case _ => s
  }

  function Advance(s: State, t: nat, task: Task, step: Step): State {
    match (step, task)
    case (PutInsert(_), Checked(k, sum)) =>
      if k in s.dram then Done(s, t) else Becomes(Insert(s, k, sum), t, Inserted(k, sum, s.nextBlock))
    case (PutFail(_), Checked(k, sum)) => Done(s, t)
    case (PutRecheck(_), Inserted(k, sum, id)) =>
      if k in s.nvme && s.nvme[k] != sum then Becomes(s, t, Withdrawing(k))
      else Done(s.(confirmed := s.confirmed + {(k, id)}), t)
    case (PutWithdraw(_, allowed), Withdrawing(k)) =>
      if allowed then Done(s.(dram := s.dram - {k}), t) else Done(s, t)
    case (DemoteRoute(_, hot), Demoting(k, sum)) =>
      if k in s.nvme && s.nvme[k] == sum then Becomes(s, t, Collapsing(k, sum))
      else if !hot then Becomes(s, t, Refusing(k, sum))
      else Becomes(s, t, Appended(k, sum))
    case (Complete(_, evictable), Collapsing(_, _)) => Done(Finish(s, task, evictable), t)
    case (Complete(_, evictable), Refusing(_, _)) => Done(Finish(s, task, evictable), t)
    case (Complete(_, evictable), Appended(_, _)) => Done(Finish(s, task, evictable), t)
    case (AppendFail(_), Appended(k, _)) => Done(s.(queued := s.queued + {k}), t)
    case (PromotePut(_, room), Promoting(k, sum)) => if room && k !in s.dram then Done(Insert(s, k, sum), t) else Done(s, t)
    case (DeleteDram(_, allowed), Deleting(k)) => if allowed then Done(s.(dram := s.dram - {k}), t) else Done(s, t)
    case _ => s
  }

  function Next(s: State, step: Step): State {
    match step
    case PutBegin(k, sum) => if k in s.nvme then s else Spawn(s, Checked(k, sum))
    case DemoteBegin(k) =>
      if k !in s.queued then s
      else if k !in s.dram then s.(queued := s.queued - {k})
      else Spawn(s.(queued := s.queued - {k}), Demoting(k, s.dram[k].sum))
    case PromoteBegin(k) => if k in s.nvme then Spawn(s, Promoting(k, s.nvme[k])) else s
    case DeleteNvme(k, allowed) => if allowed then Spawn(s.(nvme := s.nvme - {k}), Deleting(k)) else s
    case EvictDram(k) => s.(dram := s.dram - {k}, queued := s.queued - {k})
    case DropNvme(k) => s.(nvme := s.nvme - {k})
    case _ => if step.t in s.tasks then Advance(s, step.t, s.tasks[step.t], step) else s
  }

  function Run(s: State, steps: seq<Step>): State
    decreases |steps|
  {
    if steps == [] then s else Run(Next(s, steps[0]), steps[1..])
  }

  lemma {:induction false} RunSplit(s: State, a: seq<Step>, b: seq<Step>)
    ensures Run(s, a + b) == Run(Run(s, a), b)
    decreases |a|
  {
    hide Next;
    if a == [] {
      assert a + b == b;
    } else {
      assert (a + b)[0] == a[0] && (a + b)[1..] == a[1..] + b;
      RunSplit(Next(s, a[0]), a[1..], b);
    }
  }

  // ---- a confirmed PUT ------------------------------------------------------------------------

  ghost predicate Confirmed(s: State) {
    && (forall k, id :: (k, id) in s.confirmed ==> id < s.nextBlock)
    && (forall k :: k in s.dram ==> s.dram[k].id < s.nextBlock)
    && (forall t :: t in s.tasks && s.tasks[t].Inserted? ==>
          s.tasks[t].id < s.nextBlock
          && (s.tasks[t].k in s.dram && s.dram[s.tasks[t].k].id == s.tasks[t].id
              ==> s.dram[s.tasks[t].k].sum == s.tasks[t].sum))
    && (forall k :: k in s.dram && (k, s.dram[k].id) in s.confirmed && k in s.nvme ==> s.nvme[k] == s.dram[k].sum)
  }

  lemma TaskKeeps(s: State, t: nat, task: Task)
    requires Confirmed(s) && !task.Inserted?
    ensures Confirmed(Done(s, t)) && Confirmed(Becomes(s, t, task)) && Confirmed(Spawn(s, task))
  {
  }

  lemma LossKeeps(s: State, k: Key, q: set<Key>)
    requires Confirmed(s)
    ensures Confirmed(s.(dram := s.dram - {k})) && Confirmed(s.(nvme := s.nvme - {k})) && Confirmed(s.(queued := q))
  {
  }

  lemma InsertKeeps(s: State, k: Key, sum: Sum)
    requires Confirmed(s) && k !in s.dram
    ensures Confirmed(Insert(s, k, sum))
  {
  }

  lemma PutInsertKeeps(s: State, t: nat, k: Key, sum: Sum)
    requires Confirmed(s) && k !in s.dram
    ensures Confirmed(Becomes(Insert(s, k, sum), t, Inserted(k, sum, s.nextBlock)))
  {
    InsertKeeps(s, k, sum);
  }

  /** The re-check is what makes the confirmation sound. */
  lemma ConfirmKeeps(s: State, t: nat)
    requires Confirmed(s) && t in s.tasks && s.tasks[t].Inserted?
    requires s.tasks[t].k in s.nvme ==> s.nvme[s.tasks[t].k] == s.tasks[t].sum
    ensures Confirmed(s.(confirmed := s.confirmed + {(s.tasks[t].k, s.tasks[t].id)}))
  {
  }

  lemma FinishKeeps(s: State, task: Task, evictable: bool)
    requires Confirmed(s)
    ensures Confirmed(Finish(s, task, evictable))
  {
    if task.Appended? {
      if Gate(s, task.k, task.sum, evictable) {
        LossKeeps(s, task.k, s.queued);
      }
    } else if task.Collapsing? || task.Refusing? {
      LossKeeps(s, task.k, s.queued + {task.k});
    } else {
    }
  }

  lemma AdvanceConfirmed(s: State, t: nat, step: Step)
    requires Confirmed(s) && t in s.tasks
    ensures Confirmed(Advance(s, t, s.tasks[t], step))
  {
    hide Confirmed, Finish, Insert;
    var task := s.tasks[t];
    match (step, task)
    case (PutInsert(_), Checked(k, sum)) =>
      if k in s.dram { TaskKeeps(s, t, Deleting(k)); } else { PutInsertKeeps(s, t, k, sum); }
    case (PutFail(_), Checked(k, sum)) => TaskKeeps(s, t, Deleting(k));
    case (PutRecheck(_), Inserted(k, sum, id)) =>
      if k in s.nvme && s.nvme[k] != sum {
        TaskKeeps(s, t, Withdrawing(k));
      } else {
        ConfirmKeeps(s, t);
        TaskKeeps(s.(confirmed := s.confirmed + {(k, id)}), t, Deleting(k));
      }
    case (PutWithdraw(_, allowed), Withdrawing(k)) =>
      LossKeeps(s, k, s.queued);
      TaskKeeps(if allowed then s.(dram := s.dram - {k}) else s, t, Deleting(k));
    case (DemoteRoute(_, hot), Demoting(k, sum)) =>
      TaskKeeps(s, t, if k in s.nvme && s.nvme[k] == sum then Collapsing(k, sum)
                      else if !hot then Refusing(k, sum) else Appended(k, sum));
    case (Complete(_, evictable), _) =>
      FinishKeeps(s, task, evictable);
      TaskKeeps(Finish(s, task, evictable), t, Deleting(task.k));
    case (AppendFail(_), Appended(k, _)) =>
      LossKeeps(s, k, s.queued + {k});
      TaskKeeps(s.(queued := s.queued + {k}), t, Deleting(k));
    case (PromotePut(_, room), Promoting(k, sum)) =>
      if room && k !in s.dram {
        InsertKeeps(s, k, sum);
        TaskKeeps(Insert(s, k, sum), t, Deleting(k));
      } else {
        TaskKeeps(s, t, Deleting(k));
      }
    case (DeleteDram(_, allowed), Deleting(k)) =>
      LossKeeps(s, k, s.queued);
      TaskKeeps(if allowed then s.(dram := s.dram - {k}) else s, t, Deleting(k));
    case _ =>
  }

  lemma NextConfirmed(s: State, step: Step)
    requires Confirmed(s)
    ensures Confirmed(Next(s, step))
  {
    hide Confirmed, Advance;
    match step
    case PutBegin(k, sum) => TaskKeeps(s, 0, Checked(k, sum));
    case DemoteBegin(k) =>
      LossKeeps(s, k, s.queued - {k});
      if k in s.dram { TaskKeeps(s.(queued := s.queued - {k}), 0, Demoting(k, s.dram[k].sum)); }
    case PromoteBegin(k) => if k in s.nvme { TaskKeeps(s, 0, Promoting(k, s.nvme[k])); }
    case DeleteNvme(k, allowed) =>
      LossKeeps(s, k, s.queued);
      TaskKeeps(s.(nvme := s.nvme - {k}), 0, Deleting(k));
    case EvictDram(k) =>
      LossKeeps(s, k, s.queued);
      LossKeeps(s.(dram := s.dram - {k}), k, s.queued - {k});
    case DropNvme(k) => LossKeeps(s, k, s.queued);
    case _ => if step.t in s.tasks { AdvanceConfirmed(s, step.t, step); }
  }

  lemma {:induction false} RunConfirmed(s: State, steps: seq<Step>)
    requires Confirmed(s)
    ensures Confirmed(Run(s, steps))
    decreases |steps|
  {
    hide Confirmed, Next;
    if steps == [] {
    } else {
      NextConfirmed(s, steps[0]);
      RunConfirmed(Next(s, steps[0]), steps[1..]);
    }
  }

  /** From its re-check on, while its block stays in DRAM, an acknowledged PUT never coexists with other bytes on NVMe. */
  lemma ConfirmedPutIsConsistent(steps: seq<Step>, k: Key)
    requires var s := Run(EMPTY, steps); k in s.dram && (k, s.dram[k].id) in s.confirmed && k in s.nvme
    ensures var s := Run(EMPTY, steps); s.nvme[k] == s.dram[k].sum
  {
    RunConfirmed(EMPTY, steps);
  }

  // ---- a reader that probes DRAM, then NVMe -----------------------------------------------------

  /** Task t withdraws, deletes or refuses the only copy of k, and is let. */
  predicate TaskRemoves(s: State, t: nat, step: Step, k: Key) {
    && k in s.dram && k !in s.nvme && t in s.tasks && s.tasks[t].k == k
    && match (step, s.tasks[t])
       case (PutWithdraw(_, allowed), Withdrawing(_)) => allowed
       case (DeleteDram(_, allowed), Deleting(_)) => allowed
       case (Complete(_, evictable), Refusing(_, sum)) => Gate(s, k, sum, evictable)
       case _ => false
  }

  /**
   * The step takes k off NVMe (DELETE, reclaim, self-heal) or takes its only copy
   * out of DRAM (DELETE, a withdrawn PUT, eviction, admission refusal). An attempt
   * that is refused removes nothing.
   */
  predicate Removes(s: State, step: Step, k: Key) {
    match step
    case DeleteNvme(j, allowed) => j == k && allowed && k in s.nvme
    case DropNvme(j) => j == k && k in s.nvme
    case EvictDram(j) => j == k && k in s.dram && k !in s.nvme
    case PutWithdraw(t, _) => TaskRemoves(s, t, step, k)
    case DeleteDram(t, _) => TaskRemoves(s, t, step, k)
    case Complete(t, _) => TaskRemoves(s, t, step, k)
    case _ => false
  }

  predicate Undisturbed(s: State, steps: seq<Step>, k: Key)
    decreases |steps|
  {
    steps == [] || (!Removes(s, steps[0], k) && Undisturbed(Next(s, steps[0]), steps[1..], k))
  }

  predicate Resident(s: State, k: Key) { k in s.dram || k in s.nvme }

  /** A collapse decided on an NVMe copy that has since gone. */
  predicate StaleCollapse(s: State, t: nat, k: Key) {
    t in s.tasks && s.tasks[t].Collapsing? && s.tasks[t].k == k && k in s.dram && s.tasks[t].sum == s.dram[k].sum
  }

  /** The key is on NVMe, or in DRAM with no collapse of these bytes pending. */
  ghost predicate Settled(s: State, k: Key) {
    k in s.nvme || (k in s.dram && forall t :: !StaleCollapse(s, t, k))
  }

  /** Nothing but a removal takes k off NVMe. */
  lemma NvmeStays(s: State, step: Step, k: Key)
    requires k in s.nvme && !Removes(s, step, k)
    ensures k in Next(s, step).nvme
  {
  }

  /** k is on NVMe, or its DRAM block is the one it was and no collapse of it is pending. */
  ghost predicate StillThere(s: State, n: State, k: Key) {
    k in n.nvme || (k in s.dram && k in n.dram && n.dram[k] == s.dram[k] && forall t :: !StaleCollapse(n, t, k))
  }

  /** With k in DRAM only, a step publishes it, or leaves the block and the pending collapses as they are. */
  lemma AdvanceStays(s: State, t: nat, step: Step, k: Key)
    requires k !in s.nvme && k in s.dram && (forall u :: !StaleCollapse(s, u, k)) && t in s.tasks
    requires !TaskRemoves(s, t, step, k)
    ensures StillThere(s, Advance(s, t, s.tasks[t], step), k)
  {
    var n := Advance(s, t, s.tasks[t], step);
    assert !StaleCollapse(s, t, k);
    forall u | k !in n.nvme ensures !StaleCollapse(n, u, k) {
      assert !StaleCollapse(s, u, k);
    }
  }

  lemma DramStays(s: State, step: Step, k: Key)
    requires k !in s.nvme && k in s.dram && (forall t :: !StaleCollapse(s, t, k)) && !Removes(s, step, k)
    ensures StillThere(s, Next(s, step), k)
  {
    hide Advance;
    var n := Next(s, step);
    if step.PutBegin? || step.DemoteBegin? || step.PromoteBegin? || step.DeleteNvme? || step.EvictDram? || step.DropNvme? {
      KeepsCollapses(s, n, k);
    } else if step.t in s.tasks {
      AdvanceStays(s, step.t, step, k);
    } else {
      KeepsCollapses(s, n, k);
    }
  }

  /** No collapse appears without k on NVMe. */
  lemma KeepsCollapses(s: State, n: State, k: Key)
    requires k in s.dram && k in n.dram && n.dram[k] == s.dram[k] && (forall t :: !StaleCollapse(s, t, k))
    requires forall t :: t in n.tasks && n.tasks[t].Collapsing? ==> t in s.tasks && s.tasks[t] == n.tasks[t]
    ensures StillThere(s, n, k)
  {
    forall t ensures !StaleCollapse(n, t, k) { assert !StaleCollapse(s, t, k); }
  }

  lemma {:induction false} SettledStays(s: State, steps: seq<Step>, k: Key)
    requires Settled(s, k) && Undisturbed(s, steps, k)
    ensures Settled(Run(s, steps), k)
    ensures k in s.nvme ==> k in Run(s, steps).nvme
    decreases |steps|
  {
    hide Next, Removes;
    if steps == [] {
    } else {
      if k in s.nvme { NvmeStays(s, steps[0], k); } else { DramStays(s, steps[0], k); }
      SettledStays(Next(s, steps[0]), steps[1..], k);
    }
  }

  /** An undisturbed key stays resident on every run if and only if it is settled at the start. */
  lemma FindableIffSettled(s: State, k: Key)
    ensures Settled(s, k) <==> forall steps :: Undisturbed(s, steps, k) ==> Resident(Run(s, steps), k)
  {
    if Settled(s, k) {
      forall steps | Undisturbed(s, steps, k) ensures Resident(Run(s, steps), k) { SettledStays(s, steps, k); }
    } else if !Resident(s, k) {
      var none: seq<Step> := [];
      assert Undisturbed(s, none, k);
      assert !Resident(Run(s, none), k);
    } else {
      var t :| StaleCollapse(s, t, k);
      CollapseLoses(s, t, k);
    }
  }

  lemma CollapseLoses(s: State, t: nat, k: Key)
    requires k !in s.nvme && StaleCollapse(s, t, k)
    ensures Undisturbed(s, [Complete(t, true)], k) && !Resident(Run(s, [Complete(t, true)]), k)
  {
    var step := Complete(t, true);
    assert [step][1..] == [];
    assert Run(s, [step]) == Next(s, step);
    assert Undisturbed(Next(s, step), [], k);
  }

  lemma {:induction false} UndisturbedSplit(s: State, a: seq<Step>, b: seq<Step>, k: Key)
    requires Undisturbed(s, a + b, k)
    ensures Undisturbed(s, a, k) && Undisturbed(Run(s, a), b, k)
    decreases |a|
  {
    hide Next, Removes;
    if a == [] {
      assert a + b == b;
    } else {
      assert (a + b)[0] == a[0] && (a + b)[1..] == a[1..] + b;
      UndisturbedSplit(Next(s, a[0]), a[1..], b, k);
    }
  }

  /** However many demotions and promotions run before, between and after the probes, the reader finds a settled key. */
  lemma ReaderFinds(s: State, before: seq<Step>, between: seq<Step>, k: Key)
    requires Settled(s, k) && Undisturbed(s, before + between, k)
    ensures k in Run(s, before).dram || k in Run(s, before + between).nvme
  {
    hide Next, Removes;
    UndisturbedSplit(s, before, between, k);
    SettledStays(s, before, k);
    SettledStays(Run(s, before), between, k);
    RunSplit(s, before, between);
  }

  /** The longest-prefix probe over both indexes: key i is looked up in DRAM at at[2i] and on NVMe at at[2i+1]. */
  predicate Hit(keys: seq<Key>, at: nat -> State, i: nat)
    requires i < |keys|
  {
    keys[i] in at(2 * i).dram || keys[i] in at(2 * i + 1).nvme
  }

  method ExistsPrefix(keys: seq<Key>, at: nat -> State, withBitmap: bool) returns (n: nat, perKey: seq<bool>)
    ensures n <= |keys| && forall i :: 0 <= i < n ==> Hit(keys, at, i)
    ensures n < |keys| ==> !Hit(keys, at, n)
    ensures perKey == if withBitmap then seq(|keys|, i requires 0 <= i < |keys| => Hit(keys, at, i)) else []
  {
    perKey := [];
    n := 0;
    var counting := true;
    for i := 0 to |keys|
      invariant n <= i && (counting ==> n == i) && (!counting ==> n < i && !Hit(keys, at, n))
      invariant forall j :: 0 <= j < n ==> Hit(keys, at, j)
      invariant |perKey| == if withBitmap then i else 0
      invariant withBitmap ==> forall j :: 0 <= j < i ==> perKey[j] == Hit(keys, at, j)
    {
      var hit := keys[i] in at(2 * i).dram || keys[i] in at(2 * i + 1).nvme;
      if hit && counting { n := n + 1; } else { counting := false; }
      if withBitmap { perKey := perKey + [hit]; }
    }
  }

  /** Probing moment m is reached after the first moments(m) steps of the run. */
  ghost predicate Probes(s: State, steps: seq<Step>, moments: nat -> nat, at: nat -> State) {
    forall m: nat {:trigger at(m)} ::
      moments(m) <= moments(m + 1) && moments(m) <= |steps| && at(m) == Run(s, steps[..moments(m)])
  }

  /** So a prefix of settled, undisturbed keys is always reported in full. */
  lemma SettledPrefixCounts(s: State, steps: seq<Step>, moments: nat -> nat, at: nat -> State, keys: seq<Key>, i: nat)
    requires Probes(s, steps, moments, at) && i < |keys| && Settled(s, keys[i]) && Undisturbed(s, steps, keys[i])
    ensures Hit(keys, at, i)
  {
    hide Next, Removes;
    var k := keys[i];
    var first, second := at(2 * i), at(2 * i + 1);
    var a, b := steps[..moments(2 * i)], steps[moments(2 * i)..moments(2 * i + 1)];
    assert a + b == steps[..moments(2 * i + 1)];
    assert steps == (a + b) + steps[moments(2 * i + 1)..];
    UndisturbedSplit(s, a + b, steps[moments(2 * i + 1)..], k);
    ReaderFinds(s, a, b, k);
  }

  // ---- what can happen ------------------------------------------------------------------------

  lemma Snoc(s: State, a: seq<Step>, x: Step)
    ensures Run(s, a + [x]) == Next(Run(s, a), x)
  {
    hide Next;
    RunSplit(s, a, [x]);
    assert [x][1..] == [];
    assert Run(Run(s, a), [x]) == Run(Next(Run(s, a), x), []);
  }

  /** A publish that meets a key the NVMe index already holds. */
  predicate Overwrites(s: State, step: Step) {
    && step.Complete? && step.t in s.tasks && s.tasks[step.t].Appended?
    && Gate(s, s.tasks[step.t].k, s.tasks[step.t].sum, step.evictable) && s.tasks[step.t].k in s.nvme
  }

  lemma RunFour(s: State, a: Step, b: Step, c: Step, d: Step)
    ensures Run(s, [a, b, c, d]) == Next(Next(Next(Next(s, a), b), c), d)
  {
    hide Next;
    Snoc(s, [], a);
    Snoc(s, [a], b);
    Snoc(s, [a, b], c);
    Snoc(s, [a, b, c], d);
    assert [] + [a] == [a] && [a] + [b] == [a, b] && [a, b] + [c] == [a, b, c] && [a, b, c] + [d] == [a, b, c, d];
  }

  const ACKED := State(map[7 := Block(0, 1)], map[], map[1 := Checked(7, 2)], 2, 1, {7}, {(7, 0)})
  const DIVERGED := State(map[7 := Block(1, 2)], map[7 := 1], map[1 := Inserted(7, 2, 1)], 3, 2, {7}, {(7, 0)})

  /** Two PUTs of different bytes pass the pre-check; the first is answered OK. */
  lemma FirstPutAcked()
    ensures Run(EMPTY, [PutBegin(7, 1), PutBegin(7, 2), PutInsert(0), PutRecheck(0)]) == ACKED
  {
    var s1 := Next(EMPTY, PutBegin(7, 1));
    var s2 := Next(s1, PutBegin(7, 2));
    assert s2.tasks == map[0 := Checked(7, 1), 1 := Checked(7, 2)];
    var s3 := Next(s2, PutInsert(0));
    assert s3.tasks == map[0 := Inserted(7, 1, 0), 1 := Checked(7, 2)] && s3.dram == map[7 := Block(0, 1)];
    var s4 := Next(s3, PutRecheck(0));
    assert s4.tasks == map[1 := Checked(7, 2)] && s4.confirmed == {(7, 0)};
    RunFour(EMPTY, PutBegin(7, 1), PutBegin(7, 2), PutInsert(0), PutRecheck(0));
  }

  lemma FirstBlockPublished()
    ensures Next(Next(Next(ACKED, DemoteBegin(7)), DemoteRoute(2, true)), Complete(2, true))
            == ACKED.(dram := map[], nvme := map[7 := 1], nextTask := 3, queued := {})
  {
    hide Insert;
    var s1 := Next(ACKED, DemoteBegin(7));
    assert s1.tasks == map[1 := Checked(7, 2), 2 := Demoting(7, 1)] && s1.queued == {};
    var s2 := Next(s1, DemoteRoute(2, true));
    assert s2.tasks == map[1 := Checked(7, 2), 2 := Appended(7, 1)];
    var s3 := Next(s2, Complete(2, true));
    assert s3.tasks == map[1 := Checked(7, 2)] && s3.dram == map[] && s3.nvme == map[7 := 1];
  }

  /** The first block's publish slips between the second PUT's pre-check and its insert. */
  lemma SecondPutDiverges()
    ensures Run(ACKED, [DemoteBegin(7), DemoteRoute(2, true), Complete(2, true), PutInsert(1)]) == DIVERGED
  {
    FirstBlockPublished();
    var s3 := ACKED.(dram := map[], nvme := map[7 := 1], nextTask := 3, queued := {});
    assert Next(s3, PutInsert(1)) == DIVERGED;
    hide Next, Run;
    RunFour(ACKED, DemoteBegin(7), DemoteRoute(2, true), Complete(2, true), PutInsert(1));
  }

  /**
   * A publish can meet an indexed key: the second block is demoted before its
   * re-check, and its record replaces the acknowledged one on NVMe; the
   * re-check then confirms the conflicting PUT.
   */
  lemma OverwriteReachable() returns (steps: seq<Step>, last: Step)
    ensures var s := Run(EMPTY, steps); var n := Next(s, last);
      Overwrites(s, last) && (7, 1) in s.nvme.Items && (7, 2) in n.nvme.Items && (7, 0) in n.confirmed
    ensures (7, 1) in Next(Next(Run(EMPTY, steps), last), PutRecheck(1)).confirmed
  {
    hide Run;
    var a := [PutBegin(7, 1), PutBegin(7, 2), PutInsert(0), PutRecheck(0)];
    var b := [DemoteBegin(7), DemoteRoute(2, true), Complete(2, true), PutInsert(1)];
    FirstPutAcked();
    SecondPutDiverges();
    RunSplit(EMPTY, a, b);
    Snoc(EMPTY, a + b, DemoteBegin(7));
    Snoc(EMPTY, a + b + [DemoteBegin(7)], DemoteRoute(3, true));
    steps, last := a + b + [DemoteBegin(7)] + [DemoteRoute(3, true)], Complete(3, true);
    var s := Run(EMPTY, steps);
    assert s.tasks[3] == Appended(7, 2) && s.nvme[7] == 1 && s.tasks[1] == Inserted(7, 2, 1);
    assert Next(s, last).nvme[7] == 2;
  }

  const NOMINATED := State(map[7 := Block(0, 1)], map[], map[1 := Demoting(7, 1)], 2, 1, {}, {(7, 0)})
  const DUAL := State(map[7 := Block(1, 1)], map[7 := 1], map[], 3, 2, {7}, {(7, 0)})
  const DELETED := State(map[], map[], map[3 := Collapsing(7, 1)], 5, 2, {}, {(7, 0)})

  lemma PutThenNominated()
    ensures Run(EMPTY, [PutBegin(7, 1), PutInsert(0), PutRecheck(0), DemoteBegin(7)]) == NOMINATED
  {
    var s1 := Next(EMPTY, PutBegin(7, 1));
    var s2 := Next(s1, PutInsert(0));
    assert s2.tasks == map[0 := Inserted(7, 1, 0)] && s2.dram == map[7 := Block(0, 1)];
    var s3 := Next(s2, PutRecheck(0));
    assert s3.tasks == map[] && s3.confirmed == {(7, 0)};
    assert Next(s3, DemoteBegin(7)) == NOMINATED;
    RunFour(EMPTY, PutBegin(7, 1), PutInsert(0), PutRecheck(0), DemoteBegin(7));
  }

  lemma Demoted()
    ensures Next(Next(NOMINATED, DemoteRoute(1, true)), Complete(1, true)) == NOMINATED.(dram := map[], nvme := map[7 := 1], tasks := map[])
  {
    hide Insert;
    var s1 := Next(NOMINATED, DemoteRoute(1, true));
    assert s1.tasks == map[1 := Appended(7, 1)];
    var s2 := Next(s1, Complete(1, true));
    assert s2.tasks == map[] && s2.dram == map[] && s2.nvme == map[7 := 1];
  }

  lemma DemotedAndPromoted()
    ensures Run(NOMINATED, [DemoteRoute(1, true), Complete(1, true), PromoteBegin(7), PromotePut(2, true)]) == DUAL
  {
    hide Run, Finish;
    Demoted();
    var s2 := NOMINATED.(dram := map[], nvme := map[7 := 1], tasks := map[]);
    var s3 := Next(s2, PromoteBegin(7));
    assert s3.tasks == map[2 := Promoting(7, 1)];
    assert Next(s3, PromotePut(2, true)) == DUAL;
    RunFour(NOMINATED, DemoteRoute(1, true), Complete(1, true), PromoteBegin(7), PromotePut(2, true));
  }

  lemma CollapseDecided()
    ensures Next(Next(DUAL, DemoteBegin(7)), DemoteRoute(3, true)) == DUAL.(tasks := map[3 := Collapsing(7, 1)], nextTask := 4, queued := {})
  {
    hide Finish, Insert;
    var s1 := Next(DUAL, DemoteBegin(7));
    assert s1.tasks == map[3 := Demoting(7, 1)] && s1.queued == {};
  }

  lemma CollapseOutlivesDelete()
    ensures Run(DUAL, [DemoteBegin(7), DemoteRoute(3, true), DeleteNvme(7, true), DeleteDram(4, true)]) == DELETED
  {
    hide Run, Finish, Insert;
    CollapseDecided();
    var s2 := DUAL.(tasks := map[3 := Collapsing(7, 1)], nextTask := 4, queued := {});
    var s3 := Next(s2, DeleteNvme(7, true));
    assert s3.tasks == map[3 := Collapsing(7, 1), 4 := Deleting(7)] && s3.nvme == map[];
    assert Next(s3, DeleteDram(4, true)) == DELETED;
    RunFour(DUAL, DemoteBegin(7), DemoteRoute(3, true), DeleteNvme(7, true), DeleteDram(4, true));
  }

  /**
   * The unsettled case arises: a collapse decided before a DELETE is still
   * pending when the same bytes are put again and answered OK. It then takes the
   * only copy, and no DELETE, eviction or refusal happened since.
   */
  lemma UnsettledReachable() returns (steps: seq<Step>)
    ensures var s := Run(EMPTY, steps);
      7 in s.dram && (7, s.dram[7].id) in s.confirmed && StaleCollapse(s, 3, 7) && !Settled(s, 7)
  {
    hide Run;
    var a := [PutBegin(7, 1), PutInsert(0), PutRecheck(0), DemoteBegin(7)];
    var b := [DemoteRoute(1, true), Complete(1, true), PromoteBegin(7), PromotePut(2, true)];
    var c := [DemoteBegin(7), DemoteRoute(3, true), DeleteNvme(7, true), DeleteDram(4, true)];
    var d := [PutBegin(7, 1), PutInsert(5), PutRecheck(5), PutFail(5)];
    PutThenNominated();
    DemotedAndPromoted();
    CollapseOutlivesDelete();
    PutBehindCollapse();
    RunSplit(EMPTY, a, b);
    RunSplit(EMPTY, a + b, c);
    RunSplit(EMPTY, a + b + c, d);
    steps := a + b + c + d;
    var s := Run(EMPTY, steps);
    assert s.dram[7] == Block(2, 1);
  }

  lemma PutBehindCollapse()
    ensures Run(DELETED, [PutBegin(7, 1), PutInsert(5), PutRecheck(5), PutFail(5)])
            == State(map[7 := Block(2, 1)], map[], map[3 := Collapsing(7, 1)], 6, 3, {7}, {(7, 0), (7, 2)})
  {
    var s1 := Next(DELETED, PutBegin(7, 1));
    assert s1.tasks == map[3 := Collapsing(7, 1), 5 := Checked(7, 1)];
    var s2 := Next(s1, PutInsert(5));
    assert s2.tasks == map[3 := Collapsing(7, 1), 5 := Inserted(7, 1, 2)] && s2.dram == map[7 := Block(2, 1)];
    var s3 := Next(s2, PutRecheck(5));
    assert s3.tasks == map[3 := Collapsing(7, 1)];
    RunFour(DELETED, PutBegin(7, 1), PutInsert(5), PutRecheck(5), PutFail(5));
  }
}
