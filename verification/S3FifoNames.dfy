/**
 * Does the eviction policy's table name every queued entry? An expulsion deletes
 * by key, so it may take the table entry of a successor published under the same
 * key. A run keeps every live entry named if and only if no visit does that.
 */
module S3FifoNames {
  import opened Sums
  import opened S3FifoRaces

  type Keys = map<Eid, Key>
  type Places = map<Eid, Where>
  type Table = map<Key, Eid>
  type Work = map<nat, Task>

  ghost predicate Doing(tasks: Work, task: Task) { exists t :: t in tasks && tasks[t] == task }

  /** The table leads to the entry, or a Remove that took the table entry is about to unlink it. */
  ghost predicate NamedAt(keyOf: Keys, table: Table, tasks: Work, e: Eid) {
    (e in keyOf && keyOf[e] in table && table[keyOf[e]] == e) || Doing(tasks, Unlinking(e))
  }

  ghost predicate AllNamed(keyOf: Keys, whereOf: Places, table: Table, tasks: Work) {
    forall e :: e in whereOf && whereOf[e] != Dead ==> NamedAt(keyOf, table, tasks, e)
  }

  /** Every entry that is not dead is named. */
  ghost predicate Named(s: State) { AllNamed(s.keyOf, s.whereOf, s.table, s.tasks) }

  /** The table gives e's key to another entry. */
  predicate Succeeded(keyOf: Keys, table: Table, e: Eid) { e in keyOf && keyOf[e] in table && table[keyOf[e]] != e }

  /** The visit expels an entry whose key the table already gives to a successor. */
  predicate Misfires(s: State, step: Step) {
    || (step.VisitSmall? && s.visiting.None? && s.small != [] && Freq0(s, s.small[0]) <= 1 && Succeeded(s.keyOf, s.table, s.small[0]))
    || (step.VisitMain? && s.visiting.None? && s.main != [] && Freq0(s, s.main[0]) <= 0 && Succeeded(s.keyOf, s.table, s.main[0]))
  }

  // ---- what holds on every run ----------------------------------------------------------------------

  /** The table gives each key an entry of that key which is not dead. */
  ghost predicate Filed(keyOf: Keys, whereOf: Places, table: Table) {
    && (forall e :: e in whereOf && whereOf[e] != Dead ==> e in keyOf)
    && (forall k :: k in table ==> table[k] in keyOf && keyOf[table[k]] == k && table[k] in whereOf && whereOf[table[k]] != Dead)
  }

  /** No Remove is unlinking an entry the table still names. */
  ghost predicate Staying(table: Table, tasks: Work) {
    forall k, t :: k in table && t in tasks ==> tasks[t] != Unlinking(table[k])
  }

  /** An entry that is not queued yet has its Admit under way. */
  ghost predicate Admitting(whereOf: Places, tasks: Work) {
    forall e :: e in whereOf && whereOf[e] == Unqueued ==> Doing(tasks, Publishing(e))
  }

  /** The three together; with named, every live entry is named as well. */
  ghost predicate Tabled(keyOf: Keys, whereOf: Places, table: Table, tasks: Work, named: bool) {
    && Filed(keyOf, whereOf, table) && Staying(table, tasks) && Admitting(whereOf, tasks)
    && (named ==> AllNamed(keyOf, whereOf, table, tasks))
  }

  ghost predicate Orderly(s: State, named: bool) { Tabled(s.keyOf, s.whereOf, s.table, s.tasks, named) }

  // ---- changes of one component -----------------------------------------------------------------------

  /** A task appears that unlinks nothing the table names. */
  lemma TaskBegins(keyOf: Keys, whereOf: Places, table: Table, tasks: Work, n: nat, task: Task, named: bool)
    requires Tabled(keyOf, whereOf, table, tasks, named) && n !in tasks && !task.Unlinking?
    ensures Tabled(keyOf, whereOf, table, tasks[n := task], named)
  {
    forall x | Doing(tasks, x) ensures Doing(tasks[n := task], x) {
      var t :| t in tasks && tasks[t] == x;
      assert tasks[n := task][t] == x;
    }
    hide Doing;
  }

  /** A task ends: an Admit whose entry is queued or dead, a Remove whose entry is dead, a touch. */
  lemma TaskEnds(keyOf: Keys, whereOf: Places, table: Table, tasks: Work, n: nat, named: bool)
    requires Tabled(keyOf, whereOf, table, tasks, named) && n in tasks
    requires tasks[n].Publishing? && tasks[n].e in whereOf ==> whereOf[tasks[n].e] != Unqueued
    requires tasks[n].Unlinking? && tasks[n].e in whereOf ==> whereOf[tasks[n].e] == Dead
    ensures Tabled(keyOf, whereOf, table, tasks - {n}, named)
  {
    forall x | Doing(tasks, x) && x != tasks[n] ensures Doing(tasks - {n}, x) {
      var t :| t in tasks && tasks[t] == x;
      assert t in tasks - {n};
    }
    hide Doing;
  }

  /** An entry is queued, moves between queues, or dies without a table entry. */
  lemma EntryMoves(keyOf: Keys, whereOf: Places, table: Table, tasks: Work, e: Eid, w: Where, named: bool)
    requires Tabled(keyOf, whereOf, table, tasks, named) && w != Unqueued
    requires w == Dead || (e in whereOf && whereOf[e] != Dead)
    requires w == Dead ==> forall k :: k in table ==> table[k] != e
    ensures Tabled(keyOf, whereOf[e := w], table, tasks, named)
  {
    hide Doing;
  }

  lemma EntryAppears(keyOf: Keys, whereOf: Places, table: Table, tasks: Work, e: Eid, k: Key, n: nat, named: bool)
    requires Tabled(keyOf, whereOf, table, tasks, named) && e !in whereOf && k !in table && n !in tasks
    requires (forall j :: j in table ==> table[j] != e) && (forall t :: t in tasks ==> tasks[t].e != e)
    ensures Tabled(keyOf[e := k], whereOf[e := Unqueued], table[k := e], tasks[n := Publishing(e)], named)
  {
    var more := tasks[n := Publishing(e)];
    assert more[n] == Publishing(e);
    forall x | Doing(tasks, x) ensures Doing(more, x) {
      var t :| t in tasks && tasks[t] == x;
      assert more[t] == x;
    }
    hide Doing;
  }

  lemma TableEntryTaken(keyOf: Keys, whereOf: Places, table: Table, tasks: Work, k: Key, n: nat, named: bool)
    requires Tabled(keyOf, whereOf, table, tasks, named) && k in table && n !in tasks
    ensures Tabled(keyOf, whereOf, table - {k}, tasks[n := Unlinking(table[k])], named)
  {
    var more := tasks[n := Unlinking(table[k])];
    assert more[n] == Unlinking(table[k]);
    forall x | Doing(tasks, x) ensures Doing(more, x) {
      var t :| t in tasks && tasks[t] == x;
      assert more[t] == x;
    }
    hide Doing;
  }

  /** A live entry is expelled, and the table entry of its key with it. */
  lemma EntryExpelled(keyOf: Keys, whereOf: Places, table: Table, tasks: Work, e: Eid, named: bool)
    requires Tabled(keyOf, whereOf, table, tasks, named) && e in whereOf && whereOf[e] != Dead
    requires named ==> !Succeeded(keyOf, table, e)
    ensures e in keyOf && Tabled(keyOf, whereOf[e := Dead], table - {keyOf[e]}, tasks, named)
  {
    hide Doing;
  }

  /** If the key had a successor, the successor is no longer named. */
  lemma SuccessorLost(keyOf: Keys, whereOf: Places, table: Table, tasks: Work, e: Eid)
    requires Tabled(keyOf, whereOf, table, tasks, false) && Succeeded(keyOf, table, e)
    ensures !AllNamed(keyOf, whereOf[e := Dead], table - {keyOf[e]}, tasks)
  {
    var f := table[keyOf[e]];
    assert !NamedAt(keyOf, table - {keyOf[e]}, tasks, f);
    assert whereOf[e := Dead][f] != Dead;
  }

  // ---- every step ---------------------------------------------------------------------------------------

  lemma Fresh(s: State)
    requires Tasks(s)
    ensures s.nextTask !in s.tasks && s.nextEid !in s.whereOf
    ensures (forall k :: k in s.table ==> s.table[k] != s.nextEid) && (forall t :: t in s.tasks ==> s.tasks[t].e != s.nextEid)
  {
  }

  lemma QueueOrderly(s: State, t: nat, hit: bool, named: bool)
    requires Orderly(s, named) && t in s.tasks && s.tasks[t].Publishing?
    ensures Orderly(Done(Queue(s, s.tasks[t].e, hit), t), named)
  {
    hide Tabled;
    var e := s.tasks[t].e;
    if Where0(s, e) == Dead {
      TaskEnds(s.keyOf, s.whereOf, s.table, s.tasks, t, named);
    } else {
      var w := if hit then Main else Small;
      EntryMoves(s.keyOf, s.whereOf, s.table, s.tasks, e, w, named);
      TaskEnds(s.keyOf, s.whereOf[e := w], s.table, s.tasks, t, named);
    }
  }

  lemma UnlinkOrderly(s: State, t: nat, named: bool)
    requires Orderly(s, named) && t in s.tasks && s.tasks[t].Unlinking?
    ensures Orderly(Done(Unlink(s, s.tasks[t].e), t), named)
  {
    var e := s.tasks[t].e;
    assert forall k :: k in s.table ==> s.table[k] != e;
    hide Tabled, Unlinked;
    EntryMoves(s.keyOf, s.whereOf, s.table, s.tasks, e, Dead, named);
    TaskEnds(s.keyOf, s.whereOf[e := Dead], s.table, s.tasks, t, named);
    match Where0(s, e)
    case Small =>
    case Main =>
    case _ =>
  }

  lemma ScanSmallOrderly(s: State, named: bool)
    requires Linked(s) && Orderly(s, named) && s.small != []
    requires named ==> !(Freq0(s, s.small[0]) <= 1 && Succeeded(s.keyOf, s.table, s.small[0]))
    ensures Orderly(ScanSmall(s), named)
  {
    var e := s.small[0];
    At(s, e);
    hide Tabled;
    if Freq0(s, e) > 1 {
      EntryMoves(s.keyOf, s.whereOf, s.table, s.tasks, e, Main, named);
    } else {
      EntryExpelled(s.keyOf, s.whereOf, s.table, s.tasks, e, named);
    }
  }

  lemma ScanMainOrderly(s: State, named: bool)
    requires Linked(s) && Orderly(s, named) && s.main != []
    requires named ==> !(Freq0(s, s.main[0]) <= 0 && Succeeded(s.keyOf, s.table, s.main[0]))
    ensures Orderly(ScanMain(s), named)
  {
    var e := s.main[0];
    At(s, e);
    hide Tabled;
    if Freq0(s, e) > 0 {
    } else {
      EntryExpelled(s.keyOf, s.whereOf, s.table, s.tasks, e, named);
    }
  }

  lemma NextOrderly(s: State, step: Step, named: bool)
    requires Linked(s) && Tasks(s) && Orderly(s, named) && (named ==> !Misfires(s, step))
    ensures Orderly(Next(s, step), named)
  {
    Fresh(s);
    hide Linked, Tasks, Tabled, Queue, Unlink, ScanSmall, ScanMain;
    match step
    case AdmitPublish(k, size) =>
      if size != 0 && k !in s.table { EntryAppears(s.keyOf, s.whereOf, s.table, s.tasks, s.nextEid, k, s.nextTask, named); }
    case AdmitQueue(t, hit) => if t in s.tasks && s.tasks[t].Publishing? { QueueOrderly(s, t, hit, named); }
    case RemoveTable(k) => if k in s.table { TableEntryTaken(s.keyOf, s.whereOf, s.table, s.tasks, k, s.nextTask, named); }
    case RemoveUnlink(t) => if t in s.tasks && s.tasks[t].Unlinking? { UnlinkOrderly(s, t, named); }
    case VisitSmall => if s.visiting.None? && s.small != [] { ScanSmallOrderly(s, named); }
    case VisitMain => if s.visiting.None? && s.main != [] { ScanMainOrderly(s, named); }
    case SecondChance =>
    case TouchLoad(k) =>
      if k in s.table {
        TaskBegins(s.keyOf, s.whereOf, s.table, s.tasks, s.nextTask, Touching(s.table[k], Freq0(s, s.table[k])), named);
      }
    case TouchCas(t) => if t in s.tasks && s.tasks[t].Touching? { TaskEnds(s.keyOf, s.whereOf, s.table, s.tasks, t, named); }
    case DecayHi =>
  }

  lemma MisfireUnnames(s: State, step: Step)
    requires Linked(s) && Orderly(s, false) && Misfires(s, step)
    ensures !Named(Next(s, step))
  {
    var e := if step.VisitSmall? then s.small[0] else s.main[0];
    SuccessorLost(s.keyOf, s.whereOf, s.table, s.tasks, e);
    hide Tabled, AllNamed, Linked;
  }

  // ---- every run ------------------------------------------------------------------------------------------

  ghost predicate AlwaysNamed(s: State, steps: seq<Step>)
    decreases |steps|
  {
    Named(s) && (steps == [] || AlwaysNamed(Next(s, steps[0]), steps[1..]))
  }

  predicate NeverMisfires(s: State, steps: seq<Step>)
    decreases |steps|
  {
    steps == [] || (!Misfires(s, steps[0]) && NeverMisfires(Next(s, steps[0]), steps[1..]))
  }

  lemma {:induction false} NamedRun(s: State, steps: seq<Step>)
    requires Inv(s) && Orderly(s, true)
    ensures AlwaysNamed(s, steps) <==> NeverMisfires(s, steps)
    ensures Inv(Run(s, steps)) && Orderly(Run(s, steps), NeverMisfires(s, steps))
    decreases |steps|
  {
    hide Next, Misfires;
    if steps == [] {
    } else if Misfires(s, steps[0]) {
      MisfireUnnames(s, steps[0]);
      RunOrderly(s, steps);
    } else {
      NextInv(s, steps[0]);
      NextOrderly(s, steps[0], true);
      NamedRun(Next(s, steps[0]), steps[1..]);
    }
  }

  lemma {:induction false} RunOrderly(s: State, steps: seq<Step>)
    requires Inv(s) && Orderly(s, false)
    ensures Inv(Run(s, steps)) && Orderly(Run(s, steps), false)
    decreases |steps|
  {
    hide Next, Inv;
    if steps == [] {
    } else {
      assert Linked(s) && Tasks(s) by { InvGives(s); }
      NextInv(s, steps[0]);
      NextOrderly(s, steps[0], false);
      RunOrderly(Next(s, steps[0]), steps[1..]);
    }
  }

  lemma InvGives(s: State)
    requires Inv(s)
    ensures Linked(s) && Tasks(s)
  {
  }

  /** After every step of a run each live entry is named by the table or being unlinked - exactly when no visit misfires. */
  lemma NamedIffNoMisfire(steps: seq<Step>)
    ensures AlwaysNamed(EMPTY, steps) <==> NeverMisfires(EMPTY, steps)
  {
    InitInv();
    NamedRun(EMPTY, steps);
  }

  /** The entry waits in one of the two queues, or a scan holds it on the way back to main. */
  predicate Queued(s: State, e: Eid) { Where0(s, e) == Small || Where0(s, e) == Main }

  /** At rest, without a misfire, the table's keys are exactly the queued keys, each named by its one queued entry. */
  lemma TableIsQueued(steps: seq<Step>, k: Key)
    requires NeverMisfires(EMPTY, steps) && Run(EMPTY, steps).tasks == map[]
    ensures var s := Run(EMPTY, steps);
      forall e :: (k in s.table && s.table[k] == e) <==> (Queued(s, e) && e in s.keyOf && s.keyOf[e] == k)
  {
    InitInv();
    NamedRun(EMPTY, steps);
    hide Next;
    var s := Run(EMPTY, steps);
    forall e ensures (k in s.table && s.table[k] == e) <==> (Queued(s, e) && e in s.keyOf && s.keyOf[e] == k) {
      assert !Doing(s.tasks, Unlinking(e)) && !Doing(s.tasks, Publishing(e));
      if Queued(s, e) { assert NamedAt(s.keyOf, s.table, s.tasks, e); }
    }
  }

  // ---- a misfire is reachable -------------------------------------------------------------------------

  lemma {:induction false} RunSnoc(s: State, a: seq<Step>, x: Step)
    ensures Run(s, a + [x]) == Next(Run(s, a), x)
    decreases |a|
  {
    hide Next;
    if a == [] {
      assert a + [x] == [x] && [x][1..] == [];
      assert Run(s, [x]) == Run(Next(s, x), []);
    } else {
      assert (a + [x])[0] == a[0] && (a + [x])[1..] == a[1..] + [x];
      RunSnoc(Next(s, a[0]), a[1..], x);
    }
  }

  function Published(): State {
    State(map[0 := 7], map[0 := 1], map[0 := Unqueued], map[0 := 0], map[7 := 0], [], [], None, 0, 0, 0, 0, map[0 := Publishing(0)], 1, 1)
  }
  function OldQueued(): State {
    State(map[0 := 7], map[0 := 1], map[0 := Small], map[0 := 0], map[7 := 0], [0], [], None, 1, 0, 0, 0, map[], 1, 1)
  }
  function HalfRemoved(): State { OldQueued().(table := map[], tasks := map[1 := Unlinking(0)], nextTask := 2) }
  function Replaced(): State {
    State(map[0 := 7, 1 := 7], map[0 := 1, 1 := 1], map[0 := Small, 1 := Unqueued], map[0 := 0, 1 := 0], map[7 := 1],
          [0], [], None, 1, 0, 0, 0, map[1 := Unlinking(0), 2 := Publishing(1)], 2, 3)
  }

  lemma Admits()
    ensures Next(EMPTY, AdmitPublish(7, 1)) == Published()
  {
  }

  lemma Queues()
    ensures Next(Published(), AdmitQueue(0, false)) == OldQueued()
  {
  }

  lemma HalfRemoves()
    ensures Next(OldQueued(), RemoveTable(7)) == HalfRemoved()
  {
  }

  lemma Replaces()
    ensures Next(HalfRemoved(), AdmitPublish(7, 1)) == Replaced()
  {
  }

  lemma Expelled()
    ensures var s := Next(Replaced(), VisitSmall); s.table == map[] && Where0(s, 1) == Unqueued && s.tasks == Replaced().tasks && s.visiting.None?
  {
  }

  /**
   * The table may miss a queued key: a scan expels the entry a Remove has not
   * unlinked yet, and with it, by key, the table entry of its successor.
   */
  lemma TableMayMissQueuedKey() returns (steps: seq<Step>)
    ensures var s := Run(EMPTY, steps); 7 !in s.table && Where0(s, 1) == Small
  {
    assert Run(EMPTY, []) == EMPTY;
    hide *;
    Admits();
    Queues();
    HalfRemoves();
    Replaces();
    Expelled();
    LateQueue(Next(Replaced(), VisitSmall));
    steps := Then([], AdmitPublish(7, 1));
    steps := Then(steps, AdmitQueue(0, false));
    steps := Then(steps, RemoveTable(7));
    steps := Then(steps, AdmitPublish(7, 1));
    steps := Then(steps, VisitSmall);
    steps := Then(steps, AdmitQueue(2, false));
  }

  lemma Then(steps: seq<Step>, x: Step) returns (more: seq<Step>)
    ensures Run(EMPTY, more) == Next(Run(EMPTY, steps), x)
  {
    more := steps + [x];
    RunSnoc(EMPTY, steps, x);
  }

  lemma LateQueue(s: State)
    requires s.table == map[] && Where0(s, 1) == Unqueued && s.tasks == Replaced().tasks && s.visiting.None?
    ensures var n := Next(s, AdmitQueue(2, false)); 7 !in n.table && Where0(n, 1) == Small
  {
  }
}
