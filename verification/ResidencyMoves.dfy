/**
 * What the moves between DRAM and NVMe achieve when nobody interferes, and what
 * none of them ever forgets: a DRAM block is always known to the eviction policy
 * or in the hands of a demotion, so it can always be moved or evicted later.
 */
module ResidencyMoves {
  import opened Residency

  // ---- no block is forgotten ------------------------------------------------------------------------

  /** Task t is a demotion of k under way. */
  predicate Demotes(s: State, t: nat, k: Key) {
    t in s.tasks && s.tasks[t].k == k
    && (s.tasks[t].Demoting? || s.tasks[t].Collapsing? || s.tasks[t].Refusing? || s.tasks[t].Appended?)
  }

  ghost predicate Known(s: State, k: Key) { k in s.dram ==> k in s.queued || exists t :: Demotes(s, t, k) }

  ghost predicate NoneForgotten(s: State) {
    (forall t :: t in s.tasks ==> t < s.nextTask) && forall k :: Known(s, k)
  }

  lemma AdvanceKnows(s: State, t: nat, step: Step, k: Key)
    requires NoneForgotten(s) && t in s.tasks
    ensures Known(Advance(s, t, s.tasks[t], step), k)
  {
    var task, n := s.tasks[t], Advance(s, t, s.tasks[t], step);
    assert Known(s, k);
    if k in n.dram && k !in n.queued {
      if Demotes(s, t, k) && t in n.tasks {
        assert Demotes(n, t, k);
      } else {
        var u :| Demotes(s, u, k);
        assert Demotes(n, u, k);
      }
    }
  }

  lemma NextKnows(s: State, step: Step)
    requires NoneForgotten(s)
    ensures NoneForgotten(Next(s, step))
  {
    hide Advance, Known;
    NextIds(s, step);
    var n := Next(s, step);
    forall k ensures Known(n, k) {
      if step.PutBegin? || step.PromoteBegin? || step.DeleteNvme? || step.DropNvme? || step.EvictDram? {
        OpeningKnows(s, step, k);
      } else if step.DemoteBegin? {
        NominationKnows(s, step.k, k);
      } else if step.t in s.tasks {
        AdvanceKnows(s, step.t, step, k);
      } else {
        assert Known(s, k);
      }
    }
  }

  lemma NextIds(s: State, step: Step)
    requires forall t :: t in s.tasks ==> t < s.nextTask
    ensures forall t :: t in Next(s, step).tasks ==> t < Next(s, step).nextTask
  {
  }

  lemma OpeningKnows(s: State, step: Step, k: Key)
    requires NoneForgotten(s) && (step.PutBegin? || step.PromoteBegin? || step.DeleteNvme? || step.DropNvme? || step.EvictDram?)
    ensures Known(Next(s, step), k)
  {
    var n := Next(s, step);
    assert Known(s, k);
    if k in n.dram && k !in n.queued {
      var t :| Demotes(s, t, k);
      assert Demotes(n, t, k);
    }
  }

  lemma NominationKnows(s: State, j: Key, k: Key)
    requires NoneForgotten(s)
    ensures Known(Next(s, DemoteBegin(j)), k)
  {
    var n := Next(s, DemoteBegin(j));
    assert Known(s, k);
    if k in n.dram && k !in n.queued {
      if k in s.queued {
        assert Demotes(n, s.nextTask, k);
      } else {
        var t :| Demotes(s, t, k);
        assert Demotes(n, t, k);
      }
    }
  }

  lemma {:induction false} RunKnows(s: State, steps: seq<Step>)
    requires NoneForgotten(s)
    ensures NoneForgotten(Run(s, steps))
    decreases |steps|
  {
    hide Next, NoneForgotten;
    if steps == [] {
    } else {
      NextKnows(s, steps[0]);
      RunKnows(Next(s, steps[0]), steps[1..]);
    }
  }

  /** On every run: a DRAM block is queued for eviction, or a demotion of its key is under way. */
  lemma NoBlockForgotten(steps: seq<Step>, k: Key)
    requires k in Run(EMPTY, steps).dram
    ensures var s := Run(EMPTY, steps); k in s.queued || exists t :: Demotes(s, t, k)
  {
    hide Run;
    RunKnows(EMPTY, steps);
    assert Known(Run(EMPTY, steps), k);
  }

  // ---- each move, with nobody in between ----------------------------------------------------------------

  /** Nominate, route, complete. */
  function Demotion(s: State, k: Key, hot: bool, evictable: bool): State {
    Next(Next(Next(s, DemoteBegin(k)), DemoteRoute(s.nextTask, hot)), Complete(s.nextTask, evictable))
  }

  /**
   * A demotion moves the block when it was read since it came and NVMe does not
   * hold it, drops the DRAM copy when NVMe holds the same bytes or nobody read
   * them, and hands the key back when something still holds the block.
   */
  lemma DemotionMoves(s: State, k: Key, hot: bool, evictable: bool)
    requires k in s.queued && k in s.dram && s.nextTask !in s.tasks
    ensures var n, sum := Demotion(s, k, hot, evictable), s.dram[k].sum;
      var same := k in s.nvme && s.nvme[k] == sum;
      && n.tasks == s.tasks && n.confirmed == s.confirmed
      && n.dram == (if evictable then s.dram - {k} else s.dram)
      && n.nvme == (if evictable && hot && !same then s.nvme[k := sum] else s.nvme)
      && n.queued == (if evictable then s.queued - {k} else s.queued)
  {
    hide Advance, Next;
    Nominated(s, k);
    var t, sum := s.nextTask, s.dram[k].sum;
    var s1 := Next(s, DemoteBegin(k));
    Routed(s1, t, hot);
    var s2 := Next(s1, DemoteRoute(t, hot));
    Completed(s2, t, evictable);
    assert s2.tasks - {t} == s.tasks;
    assert s.queued - {k} + {k} == s.queued;
  }

  lemma Nominated(s: State, k: Key)
    requires k in s.queued && k in s.dram
    ensures Next(s, DemoteBegin(k))
         == s.(queued := s.queued - {k}, tasks := s.tasks[s.nextTask := Demoting(k, s.dram[k].sum)], nextTask := s.nextTask + 1)
  {
  }

  /** A demotion is routed by what NVMe holds and by whether the block was read. */
  lemma Routed(s: State, t: nat, hot: bool)
    requires t in s.tasks && s.tasks[t].Demoting?
    ensures var k, sum := s.tasks[t].k, s.tasks[t].sum;
      Next(s, DemoteRoute(t, hot)).tasks == s.tasks[t := if k in s.nvme && s.nvme[k] == sum then Collapsing(k, sum)
                                                         else if hot then Appended(k, sum) else Refusing(k, sum)]
      && Next(s, DemoteRoute(t, hot)) == s.(tasks := Next(s, DemoteRoute(t, hot)).tasks)
  {
  }

  lemma Completed(s: State, t: nat, evictable: bool)
    requires t in s.tasks && (s.tasks[t].Collapsing? || s.tasks[t].Refusing? || s.tasks[t].Appended?)
    ensures var n, task := Next(s, Complete(t, evictable)), s.tasks[t];
      var out := evictable && task.k in s.dram && s.dram[task.k].sum == task.sum;
      && n.tasks == s.tasks - {t} && n.confirmed == s.confirmed
      && n.dram == (if out then s.dram - {task.k} else s.dram)
      && n.nvme == (if out && task.Appended? then s.nvme[task.k := task.sum] else s.nvme)
      && n.queued == (if out then s.queued else s.queued + {task.k})
  {
  }

  /** Promotion copies: NVMe keeps the block, and DRAM has it unless it had one or there is no room. */
  lemma PromotionCopies(s: State, k: Key, room: bool)
    requires k in s.nvme && s.nextTask !in s.tasks
    ensures var n := Next(Next(s, PromoteBegin(k)), PromotePut(s.nextTask, room));
      && n.nvme == s.nvme && n.tasks == s.tasks
      && (if room && k !in s.dram then n.dram == s.dram[k := Block(s.nextBlock, s.nvme[k])] && k in n.queued else n.dram == s.dram)
  {
    var t := s.nextTask;
    var s1 := Next(s, PromoteBegin(k));
    assert s1.tasks == s.tasks[t := Promoting(k, s.nvme[k])];
    assert s1.tasks - {t} == s.tasks;
  }

  /** Check and insert. */
  function PutSoFar(s: State, k: Key, sum: Sum): State { Next(Next(s, PutBegin(k, sum)), PutInsert(s.nextTask)) }

  lemma PutInserts(s: State, k: Key, sum: Sum)
    requires k !in s.nvme && k !in s.dram && s.nextTask !in s.tasks
    ensures PutSoFar(s, k, sum) == s.(dram := s.dram[k := Block(s.nextBlock, sum)], queued := s.queued + {k},
                                      tasks := s.tasks[s.nextTask := Inserted(k, sum, s.nextBlock)],
                                      nextTask := s.nextTask + 1, nextBlock := s.nextBlock + 1)
  {
    var s1 := Next(s, PutBegin(k, sum));
    assert s1.tasks[s.nextTask := Inserted(k, sum, s.nextBlock)] == s.tasks[s.nextTask := Inserted(k, sum, s.nextBlock)];
  }

  /** A PUT of a key neither tier holds ends in DRAM, queued and acknowledged. */
  lemma PutEnds(s: State, k: Key, sum: Sum)
    requires k !in s.nvme && k !in s.dram && s.nextTask !in s.tasks
    ensures var n := Next(PutSoFar(s, k, sum), PutRecheck(s.nextTask));
      && n.dram == s.dram[k := Block(s.nextBlock, sum)] && n.nvme == s.nvme && k in n.queued
      && n.confirmed == s.confirmed + {(k, s.nextBlock)} && n.tasks == s.tasks
  {
    hide PutSoFar;
    PutInserts(s, k, sum);
    assert s.tasks[s.nextTask := Inserted(k, sum, s.nextBlock)] - {s.nextTask} == s.tasks;
  }

  /** One that a publish of other bytes overtook is withdrawn, and not acknowledged. */
  lemma PutOvertaken(s: State, k: Key, sum: Sum, other: Sum)
    requires k !in s.nvme && k !in s.dram && s.nextTask !in s.tasks && other != sum
    ensures var met := PutSoFar(s, k, sum).(nvme := s.nvme[k := other]);
      var n := Next(Next(met, PutRecheck(s.nextTask)), PutWithdraw(s.nextTask, true));
      n.dram == s.dram && n.nvme == s.nvme[k := other] && n.confirmed == s.confirmed && n.tasks == s.tasks
  {
    hide PutSoFar;
    PutInserts(s, k, sum);
    var met := PutSoFar(s, k, sum).(nvme := s.nvme[k := other]);
    var w := Next(met, PutRecheck(s.nextTask));
    assert w.tasks - {s.nextTask} == s.tasks;
    assert s.dram[k := Block(s.nextBlock, sum)] - {k} == s.dram;
  }

  /** DELETE takes the key off both tiers. */
  lemma DeleteEnds(s: State, k: Key)
    requires s.nextTask !in s.tasks
    ensures var n := Next(Next(s, DeleteNvme(k, true)), DeleteDram(s.nextTask, true));
      n.dram == s.dram - {k} && n.nvme == s.nvme - {k} && n.tasks == s.tasks && n.confirmed == s.confirmed
  {
    var s1 := Next(s, DeleteNvme(k, true));
    assert s1.tasks - {s.nextTask} == s.tasks;
  }
}
