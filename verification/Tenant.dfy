/**
 * The tenant accountant's limit cache. SetQuota writes the registry, releases
 * it, and only then notifies; a first touch snapshots the registry, publishes
 * the new domain, and refreshes it again; Reload refreshes what it finds. Each
 * refresh reads the registry and stores tier by tier under one lock. Once
 * nothing but Reloads is in flight for a namespace, its published limits are the
 * registry's - unless it was added to the registry after its domain was published.
 */
module Tenant {
  type Ns = nat
  /** One limit per tier; 0 is unlimited. */
  datatype Limits = Limits(dram: int, nvme: int, s3: int)
  datatype Tier = Dram | Nvme | S3

  const UNLIMITED := Limits(0, 0, 0)

  function With(l: Limits, tier: Tier, n: int): Limits {
    match tier case Dram => l.(dram := n) case Nvme => l.(nvme := n) case S3 => l.(s3 := n)
  }

  datatype Task =
    | Notifying(ns: Ns)                     // SetQuota: registry written, listener to call
    | Snapshot(ns: Ns, limits: Limits)      // first touch: registry read, domain to publish
    | Refreshing(ns: Ns, reload: bool)      // wants the refresh lock, for a Reload or not
    | Storing(ns: Ns, l: Limits, done: nat, reload: bool) // holds the refresh lock; tiers below done are stored

  datatype State = State(
    registry: map<Ns, Limits>,
    cached: map<Ns, Limits>,
    lock: bool,
    tasks: map<nat, Task>,
    nextTask: nat,
    late: set<Ns>)            // namespaces added too late for any SetQuota or first touch to see, and not refreshed since

  datatype Step =
    | SetQuota(ns: Ns, tier: Tier, n: int)
    | Notify(t: nat)
    | Touch(ns: Ns)
    | Publish(t: nat)
    | Reload(ns: Ns)
    | Lock(t: nat)
    | Store(t: nat)
    | Add(ns: Ns, l: Limits)

  function Init(registry: map<Ns, Limits>): State { State(registry, map[], false, map[], 0, {}) }

  function Spawn(s: State, task: Task): State { s.(tasks := s.tasks[s.nextTask := task], nextTask := s.nextTask + 1) }
  function Done(s: State, t: nat): State { s.(tasks := s.tasks - {t}) }
  function Becomes(s: State, t: nat, task: Task): State { s.(tasks := s.tasks[t := task]) }

  function Found(s: State, ns: Ns): Limits { if ns in s.registry then s.registry[ns] else UNLIMITED }

  /** A SetQuota or a first touch of ns is certain to read the registry again. */
  ghost predicate Pending(s: State, ns: Ns) {
    exists t :: t in s.tasks && (s.tasks[t] == Notifying(ns) || s.tasks[t] == Refreshing(ns, false))
  }

  /** The namespace already has a domain whose limits are unlimited, the new ones are not, and nothing will look again. */
  ghost predicate AddsLate(s: State, ns: Ns, l: Limits) {
    ns in s.cached && l != s.cached[ns] && !Pending(s, ns)
  }

  function Tiered(old_: Limits, l: Limits, done: nat): Limits {
    if done == 0 then old_.(dram := l.dram) else if done == 1 then old_.(nvme := l.nvme) else old_.(s3 := l.s3)
  }

  ghost function Next(s: State, step: Step): State {
    match step
    case SetQuota(ns, tier, n) =>
      if ns !in s.registry then s
      else Spawn(s.(registry := s.registry[ns := With(s.registry[ns], tier, n)]), Notifying(ns))
    case Notify(t) =>
      if t !in s.tasks || !s.tasks[t].Notifying? then s
      else if s.tasks[t].ns in s.cached then Becomes(s, t, Refreshing(s.tasks[t].ns, false)) else Done(s, t)
    case Touch(ns) => if ns in s.cached then s else Spawn(s, Snapshot(ns, Found(s, ns)))
    case Publish(t) =>
      if t !in s.tasks || !s.tasks[t].Snapshot? then s
      else if s.tasks[t].ns in s.cached then Done(s, t)
      else Becomes(s.(cached := s.cached[s.tasks[t].ns := s.tasks[t].limits]), t, Refreshing(s.tasks[t].ns, false))
    case Reload(ns) => if ns in s.cached then Spawn(s, Refreshing(ns, true)) else s
    case Lock(t) =>
      if t !in s.tasks || !s.tasks[t].Refreshing? || s.lock then s
      else if s.tasks[t].ns in s.registry then
        Becomes(s.(lock := true), t, Storing(s.tasks[t].ns, s.registry[s.tasks[t].ns], 0, s.tasks[t].reload))
      else Done(s, t)
    case Store(t) =>
      if t !in s.tasks || !s.tasks[t].Storing? || s.tasks[t].ns !in s.cached then s
      else
        var task := s.tasks[t];
        var r := s.(cached := s.cached[task.ns := Tiered(s.cached[task.ns], task.l, task.done)]);
        if task.done >= 2 then Done(r.(lock := false, late := s.late - {task.ns}), t)
        else Becomes(r, t, Storing(task.ns, task.l, task.done + 1, task.reload))
    case Add(ns, l) =>
      if ns in s.registry then s
      else s.(registry := s.registry[ns := l], late := if AddsLate(s, ns, l) then s.late + {ns} else s.late)
  }

  ghost function Run(s: State, steps: seq<Step>): State
    decreases |steps|
  {
    if steps == [] then s else Run(Next(s, steps[0]), steps[1..])
  }

  // ---- invariant ------------------------------------------------------------------------------------

  /** The tiers a store in progress has done agree with what it read. */
  predicate PartlyStored(c: Limits, task: Task)
    requires task.Storing?
  {
    && task.done <= 2 && (task.done > 0 ==> c.dram == task.l.dram) && (task.done > 1 ==> c.nvme == task.l.nvme)
  }

  /** The one store in progress, if it is of ns. */
  ghost predicate StoringNs(s: State, t: nat, ns: Ns) { t in s.tasks && s.tasks[t].Storing? && s.tasks[t].ns == ns }

  /**
   * The cached limits are the registry's unless the namespace was added late, and
   * whatever store of it is in progress carries the registry's value.
   */
  ghost predicate Right(s: State, ns: Ns)
    requires ns in s.cached && ns in s.registry
  {
    && (forall t :: StoringNs(s, t, ns) ==> s.tasks[t].l == s.registry[ns])
    && (ns !in s.late ==> s.cached[ns] == s.registry[ns])
    && (ns in s.late && (forall t :: !StoringNs(s, t, ns)) ==> s.cached[ns] != s.registry[ns])
  }

  /** A SetQuota or first touch is storing the registry's present value. */
  ghost predicate Rightening(s: State, ns: Ns)
    requires ns in s.registry
  {
    exists t :: StoringNs(s, t, ns) && !s.tasks[t].reload && s.tasks[t].l == s.registry[ns]
  }

  /** A published and registered namespace is right, is being made right, or will be looked at again. */
  ghost predicate Converging(s: State, ns: Ns)
    requires ns in s.cached && ns in s.registry
  {
    Pending(s, ns) || Rightening(s, ns) || Right(s, ns)
  }

  ghost predicate OneStore(tasks: map<nat, Task>, lock: bool) {
    && (forall t, u :: t in tasks && u in tasks && tasks[t].Storing? && tasks[u].Storing? ==> t == u)
    && (lock <==> exists t :: t in tasks && tasks[t].Storing?)
  }

  ghost predicate TaskOk(s: State, t: nat)
    requires t in s.tasks
  {
    var task := s.tasks[t];
    && t < s.nextTask
    && (task.Storing? ==> task.ns in s.cached && task.ns in s.registry && PartlyStored(s.cached[task.ns], task))
    && (task.Refreshing? ==> task.ns in s.cached)
  }

  ghost predicate Shape(s: State) {
    && OneStore(s.tasks, s.lock)
    && (forall t :: t in s.tasks ==> TaskOk(s, t))
    && (forall ns :: ns in s.late ==> ns in s.cached && ns in s.registry)
  }

  ghost predicate Inv(s: State) {
    Shape(s) && forall ns :: ns in s.cached && ns in s.registry ==> Converging(s, ns)
  }

  // ---- steps ----------------------------------------------------------------------------------------

  lemma SpawnShape(s: State, r: map<Ns, Limits>, task: Task)
    requires Shape(s) && !task.Storing? && (task.Refreshing? ==> task.ns in s.cached)
    requires forall ns :: ns in s.registry ==> ns in r
    ensures Shape(Spawn(s.(registry := r), task))
  {
    var n := Spawn(s.(registry := r), task);
    assert OneStore(n.tasks, n.lock) by {
      if s.lock {
        var t :| t in s.tasks && s.tasks[t].Storing?;
        assert TaskOk(s, t);
        assert t in n.tasks && n.tasks[t].Storing?;
      }
    }
    forall t | t in n.tasks ensures TaskOk(n, t) { if t != s.nextTask { assert TaskOk(s, t); } }
  }

  lemma EndShape(s: State, t: nat)
    requires Shape(s) && t in s.tasks && !s.tasks[t].Storing?
    ensures Shape(Done(s, t))
  {
    var n := Done(s, t);
    assert OneStore(n.tasks, n.lock) by {
      if s.lock {
        var u :| u in s.tasks && s.tasks[u].Storing?;
        assert u in n.tasks && n.tasks[u].Storing?;
      }
    }
    forall u | u in n.tasks ensures TaskOk(n, u) { assert TaskOk(s, u); }
  }

  lemma RefreshShape(s: State, t: nat, ns: Ns)
    requires Shape(s) && t in s.tasks && !s.tasks[t].Storing? && ns in s.cached
    ensures Shape(Becomes(s, t, Refreshing(ns, false)))
  {
    var n := Becomes(s, t, Refreshing(ns, false));
    assert OneStore(n.tasks, n.lock) by {
      if s.lock {
        var u :| u in s.tasks && s.tasks[u].Storing?;
        assert u in n.tasks && n.tasks[u].Storing?;
      }
    }
    forall u | u in n.tasks ensures TaskOk(n, u) { assert TaskOk(s, u); }
  }

  lemma PublishShape(s: State, t: nat)
    requires Shape(s) && t in s.tasks && s.tasks[t].Snapshot?
    ensures Shape(Next(s, Publish(t)))
  {
    var ns := s.tasks[t].ns;
    if ns in s.cached {
      EndShape(s, t);
    } else {
      var m := s.(cached := s.cached[ns := s.tasks[t].limits]);
      forall u | u in m.tasks ensures TaskOk(m, u) { assert TaskOk(s, u); }
      RefreshShape(m, t, ns);
    }
  }

  lemma LockShape(s: State, t: nat)
    requires Shape(s) && t in s.tasks && s.tasks[t].Refreshing? && !s.lock && s.tasks[t].ns in s.registry
    ensures Shape(Next(s, Lock(t)))
  {
    var n := Next(s, Lock(t));
    assert n.tasks[t].Storing?;
    forall u | u in n.tasks ensures TaskOk(n, u) { assert TaskOk(s, u); }
  }

  lemma StoreShape(s: State, t: nat)
    requires Shape(s) && t in s.tasks && s.tasks[t].Storing?
    ensures Shape(Next(s, Store(t)))
  {
    var n := Next(s, Store(t));
    assert TaskOk(s, t);
    if s.tasks[t].done < 2 { assert n.tasks[t].Storing?; }
    forall u | u in n.tasks ensures TaskOk(n, u) { assert TaskOk(s, u); }
  }

  lemma AddShape(s: State, ns: Ns, l: Limits)
    requires Shape(s) && ns !in s.registry
    ensures Shape(Next(s, Add(ns, l)))
  {
    hide AddsLate;
    var n := Next(s, Add(ns, l));
    if AddsLate(s, ns, l) { assert ns in s.cached by { LateIsCached(s, ns, l); } }
    forall u | u in n.tasks ensures TaskOk(n, u) { assert TaskOk(s, u); }
  }

  lemma LateIsCached(s: State, ns: Ns, l: Limits)
    requires AddsLate(s, ns, l)
    ensures ns in s.cached && l != s.cached[ns] && !Pending(s, ns)
  {
  }

  lemma NextShape(s: State, step: Step)
    requires Shape(s)
    ensures Shape(Next(s, step))
  {
    hide Shape, AddsLate;
    match step
    case SetQuota(ns, tier, n) => if ns in s.registry { SpawnShape(s, s.registry[ns := With(s.registry[ns], tier, n)], Notifying(ns)); }
    case Notify(t) =>
      if t in s.tasks && s.tasks[t].Notifying? {
        if s.tasks[t].ns in s.cached { RefreshShape(s, t, s.tasks[t].ns); } else { EndShape(s, t); }
      }
    case Touch(ns) => SpawnShape(s, s.registry, Snapshot(ns, Found(s, ns)));
    case Publish(t) => if t in s.tasks && s.tasks[t].Snapshot? { PublishShape(s, t); }
    case Reload(ns) => if ns in s.cached { SpawnShape(s, s.registry, Refreshing(ns, true)); }
    case Lock(t) =>
      if t in s.tasks && s.tasks[t].Refreshing? && !s.lock {
        if s.tasks[t].ns in s.registry { LockShape(s, t); } else { EndShape(s, t); }
      }
    case Store(t) => if t in s.tasks && s.tasks[t].Storing? { StoreShape(s, t); }
    case Add(ns, l) => if ns !in s.registry { AddShape(s, ns, l); }
  }

  /** Nothing that matters to ns changed, or another refresh became pending. */
  lemma Carry(s: State, n: State, ns: Ns)
    requires ns in s.cached && ns in s.registry && Converging(s, ns)
    requires ns in n.cached && n.cached[ns] == s.cached[ns] && ns in n.registry && n.registry[ns] == s.registry[ns]
    requires ns in n.late <==> ns in s.late
    requires Pending(s, ns) ==> Pending(n, ns)
    requires forall t :: StoringNs(s, t, ns) <==> StoringNs(n, t, ns)
    requires forall t :: StoringNs(s, t, ns) ==> StoringNs(n, t, ns) && n.tasks[t] == s.tasks[t]
    ensures Converging(n, ns)
  {
    hide Pending;
    if Rightening(s, ns) {
      var t :| StoringNs(s, t, ns) && !s.tasks[t].reload && s.tasks[t].l == s.registry[ns];
      assert StoringNs(n, t, ns);
    }
  }

  lemma PendingBy(s: State, ns: Ns, t: nat)
    requires t in s.tasks && (s.tasks[t] == Notifying(ns) || s.tasks[t] == Refreshing(ns, false))
    ensures Pending(s, ns)
  {
  }

  /** Pending of ns survives a change of one task that was not about ns, and any new task. */
  lemma PendingKept(s: State, n: State, t: nat, ns: Ns)
    requires Pending(s, ns) && forall u :: u in s.tasks && u != t ==> u in n.tasks && n.tasks[u] == s.tasks[u]
    requires t in s.tasks ==> s.tasks[t] != Notifying(ns) && s.tasks[t] != Refreshing(ns, false)
    ensures Pending(n, ns)
  {
    var u :| u in s.tasks && (s.tasks[u] == Notifying(ns) || s.tasks[u] == Refreshing(ns, false));
    assert u in n.tasks;
  }

  /** A step that changes only task t, from one kind that is no store to another. */
  lemma TaskConverges(s: State, n: State, t: nat)
    requires Inv(s) && Shape(n) && n == s.(tasks := n.tasks, nextTask := n.nextTask)
    requires forall u :: u != t ==> (u in s.tasks <==> u in n.tasks) && (u in s.tasks ==> n.tasks[u] == s.tasks[u])
    requires t in s.tasks ==> !s.tasks[t].Storing?
    requires t in n.tasks ==> !n.tasks[t].Storing?
    requires t in s.tasks && s.tasks[t].Refreshing? ==> s.tasks[t].ns !in s.registry
    requires t in s.tasks && s.tasks[t].Notifying? && s.tasks[t].ns in s.cached ==> t in n.tasks && n.tasks[t] == Refreshing(s.tasks[t].ns, false)
    ensures Inv(n)
  {
    hide Shape, Converging;
    forall ns | ns in n.cached && ns in n.registry ensures Converging(n, ns) {
      assert Converging(s, ns);
      if t in s.tasks && s.tasks[t] == Notifying(ns) {
        PendingBy(n, ns, t);
      } else if Pending(s, ns) {
        PendingKept(s, n, t, ns);
      }
      Carry(s, n, ns);
    }
  }

  lemma SetQuotaConverges(s: State, ns: Ns, tier: Tier, v: int)
    requires Inv(s) && ns in s.registry
    ensures Inv(Next(s, SetQuota(ns, tier, v)))
  {
    var n := Next(s, SetQuota(ns, tier, v));
    NextShape(s, SetQuota(ns, tier, v));
    FreshTask(s);
    hide Shape, Converging;
    forall x | x in n.cached && x in n.registry ensures Converging(n, x) {
      if x == ns {
        PendingBy(n, ns, s.nextTask);
        NowPending(n, ns);
      } else {
        assert Converging(s, x);
        if Pending(s, x) { PendingKept(s, n, s.nextTask, x); }
        Carry(s, n, x);
      }
    }
  }

  lemma NowPending(s: State, ns: Ns)
    requires ns in s.cached && ns in s.registry && Pending(s, ns)
    ensures Converging(s, ns)
  {
  }

  lemma PublishConverges(s: State, t: nat)
    requires Inv(s) && t in s.tasks && s.tasks[t].Snapshot? && s.tasks[t].ns !in s.cached
    ensures Inv(Next(s, Publish(t)))
  {
    var n := Next(s, Publish(t));
    NextShape(s, Publish(t));
    hide Shape, Converging;
    forall x | x in n.cached && x in n.registry ensures Converging(n, x) {
      if x == s.tasks[t].ns {
        PendingBy(n, x, t);
        NowPending(n, x);
      } else {
        assert Converging(s, x);
        if Pending(s, x) { PendingKept(s, n, t, x); }
        Carry(s, n, x);
      }
    }
  }

  /** The refresh reads the registry's present value, so it is the one that makes the namespace right. */
  lemma LockConverges(s: State, t: nat)
    requires Inv(s) && t in s.tasks && s.tasks[t].Refreshing? && !s.lock && s.tasks[t].ns in s.registry
    ensures Inv(Next(s, Lock(t)))
  {
    var n := Next(s, Lock(t));
    NextShape(s, Lock(t));
    forall x | x in n.cached && x in n.registry ensures Converging(n, x) {
      if x == s.tasks[t].ns {
        LockedConverges(s, t);
      } else {
        assert Converging(s, x);
        hide Converging;
        if Pending(s, x) { PendingKept(s, n, t, x); }
        Carry(s, n, x);
      }
    }
  }

  lemma LockedConverges(s: State, t: nat)
    requires Inv(s) && t in s.tasks && s.tasks[t].Refreshing? && !s.lock && s.tasks[t].ns in s.registry && s.tasks[t].ns in s.cached
    ensures var n := Next(s, Lock(t)); var x := s.tasks[t].ns; x in n.cached && x in n.registry && Converging(n, x)
  {
    var n := Next(s, Lock(t));
    var x := s.tasks[t].ns;
    assert Converging(s, x) && StoringNs(n, t, x) && n.tasks[t].l == n.registry[x];
    assert forall u :: StoringNs(n, u, x) ==> u == t;
    if !s.tasks[t].reload {
      assert Rightening(n, x);
    } else if Pending(s, x) {
      PendingKept(s, n, t, x);
    } else {
      assert forall u :: !StoringNs(s, u, x);
    }
  }

  lemma StoreConverges(s: State, t: nat)
    requires Inv(s) && t in s.tasks && s.tasks[t].Storing?
    ensures Inv(Next(s, Store(t)))
  {
    var n := Next(s, Store(t));
    NextShape(s, Store(t));
    assert TaskOk(s, t);
    forall x | x in n.cached && x in n.registry ensures Converging(n, x) {
      assert Converging(s, x);
      if Pending(s, x) {
        PendingKept(s, n, t, x);
      } else if x == s.tasks[t].ns {
        assert StoringNs(s, t, x);
        StoreFinishes(s, t);
      } else {
        hide Converging;
        Carry(s, n, x);
      }
    }
  }

  lemma StoreFinishes(s: State, t: nat)
    requires Inv(s) && t in s.tasks && s.tasks[t].Storing? && !Pending(s, s.tasks[t].ns)
    ensures var n := Next(s, Store(t)); var x := s.tasks[t].ns; x in n.cached && x in n.registry && Converging(n, x)
  {
    var x := s.tasks[t].ns;
    var n := Next(s, Store(t));
    assert TaskOk(s, t) && Converging(s, x) && StoringNs(s, t, x);
    assert forall u :: StoringNs(s, u, x) ==> u == t;
    assert s.tasks[t].l == s.registry[x];
    if s.tasks[t].done < 2 {
      assert forall u :: StoringNs(n, u, x) <==> u == t;
      assert StoringNs(n, t, x) && n.tasks[t].l == n.registry[x] && n.tasks[t].reload == s.tasks[t].reload;
      assert x !in s.late && !Rightening(s, x) ==> n.cached[x] == s.cached[x];
      if Rightening(s, x) { assert Rightening(n, x); } else { assert Right(n, x); }
    } else {
      assert n.cached[x] == s.tasks[t].l && x !in n.late;
      assert forall u :: !StoringNs(n, u, x);
      assert Right(n, x);
    }
  }

  lemma AddConverges(s: State, ns: Ns, l: Limits)
    requires Inv(s) && ns !in s.registry
    ensures Inv(Next(s, Add(ns, l)))
  {
    var n := Next(s, Add(ns, l));
    NextShape(s, Add(ns, l));
    forall x | x in n.cached && x in n.registry ensures Converging(n, x) {
      if x == ns {
        assert forall t :: !StoringNs(s, t, ns) by { forall t | t in s.tasks ensures !StoringNs(s, t, ns) { assert TaskOk(s, t); } }
        assert forall t :: !StoringNs(n, t, ns);
        assert Pending(s, ns) <==> Pending(n, ns);
      } else {
        assert Converging(s, x);
        hide Converging;
        assert Pending(s, x) <==> Pending(n, x);
        Carry(s, n, x);
      }
    }
  }

  lemma FreshTask(s: State)
    requires Shape(s)
    ensures s.nextTask !in s.tasks
  {
  }

  lemma NextInv(s: State, step: Step)
    requires Inv(s)
    ensures Inv(Next(s, step))
  {
    NextShape(s, step);
    FreshTask(s);
    hide Shape, Converging, AddsLate, Pending;
    var n := Next(s, step);
    match step
    case SetQuota(ns, tier, v) => if ns in s.registry { SetQuotaConverges(s, ns, tier, v); }
    case Notify(t) => if t in s.tasks && s.tasks[t].Notifying? { TaskConverges(s, n, t); }
    case Touch(ns) => if ns !in s.cached { TaskConverges(s, n, s.nextTask); }
    case Publish(t) =>
      if t in s.tasks && s.tasks[t].Snapshot? {
        if s.tasks[t].ns in s.cached { TaskConverges(s, n, t); } else { PublishConverges(s, t); }
      }
    case Reload(ns) => if ns in s.cached { TaskConverges(s, n, s.nextTask); }
    case Lock(t) =>
      if t in s.tasks && s.tasks[t].Refreshing? && !s.lock {
        if s.tasks[t].ns in s.registry { LockConverges(s, t); } else { TaskConverges(s, n, t); }
      }
    case Store(t) => if t in s.tasks && s.tasks[t].Storing? { StoreConverges(s, t); }
    case Add(ns, l) => if ns !in s.registry { AddConverges(s, ns, l); }
  }

  lemma {:induction false} RunInv(s: State, steps: seq<Step>)
    requires Inv(s)
    ensures Inv(Run(s, steps))
    decreases |steps|
  {
    hide Inv, Next;
    if steps == [] {
    } else {
      NextInv(s, steps[0]);
      RunInv(Next(s, steps[0]), steps[1..]);
    }
  }

  // ---- convergence ------------------------------------------------------------------------------------

  /**
   * No SetQuota of ns is between its registry write and the end of its refresh,
   * and no first touch of ns between its publication and the end of its refresh.
   * Reloads of ns, losing first touches, and anything about other namespaces may
   * be in flight.
   */
  ghost predicate Quiet(s: State, ns: Ns) {
    forall t :: t in s.tasks && s.tasks[t].ns == ns ==>
      s.tasks[t].Snapshot? || ((s.tasks[t].Refreshing? || s.tasks[t].Storing?) && s.tasks[t].reload)
  }

  lemma QuietIsRight(s: State, ns: Ns)
    requires Inv(s) && Quiet(s, ns) && ns in s.cached && ns in s.registry
    ensures Right(s, ns)
  {
    assert Converging(s, ns);
  }

  /** A published limit is the registry's if and only if the namespace was not added late, whenever it is quiet and no store of it is in progress. */
  lemma ConvergesIffNotLate(registry: map<Ns, Limits>, steps: seq<Step>, ns: Ns)
    requires var s := Run(Init(registry), steps); Quiet(s, ns) && ns in s.cached && ns in s.registry
    requires forall t :: !StoringNs(Run(Init(registry), steps), t, ns)
    ensures var s := Run(Init(registry), steps); s.cached[ns] == s.registry[ns] <==> ns !in s.late
  {
    hide Next;
    RunInv(Init(registry), steps);
    QuietIsRight(Run(Init(registry), steps), ns);
  }

  /** The step registers ns with its domain already published, with other limits, when no SetQuota or first touch will look again. */
  ghost predicate IsLateAdd(s: State, step: Step, ns: Ns) { step.Add? && step.ns == ns && ns !in s.registry && AddsLate(s, ns, step.l) }

  ghost predicate NoLateAdd(s: State, steps: seq<Step>, ns: Ns)
    decreases |steps|
  {
    steps == [] || (!IsLateAdd(s, steps[0], ns) && NoLateAdd(Next(s, steps[0]), steps[1..], ns))
  }

  lemma LateOnlyByAdd(s: State, step: Step, ns: Ns)
    requires !IsLateAdd(s, step, ns) && ns !in s.late
    ensures ns !in Next(s, step).late
  {
    hide AddsLate;
  }

  lemma {:induction false} NoLateAddStays(s: State, steps: seq<Step>, ns: Ns)
    requires NoLateAdd(s, steps, ns) && ns !in s.late
    ensures ns !in Run(s, steps).late
    decreases |steps|
  {
    hide Next, IsLateAdd;
    if steps == [] {
    } else {
      LateOnlyByAdd(s, steps[0], ns);
      NoLateAddStays(Next(s, steps[0]), steps[1..], ns);
    }
  }

  /**
   * So unless ns itself was registered late, its cached limits are the registry's
   * whenever no SetQuota or first touch of it is in flight, in every interleaving:
   * with Reloads at any point and other namespaces in any state.
   */
  lemma LimitsConverge(registry: map<Ns, Limits>, steps: seq<Step>, ns: Ns)
    requires NoLateAdd(Init(registry), steps, ns)
    requires var s := Run(Init(registry), steps); Quiet(s, ns) && ns in s.cached && ns in s.registry
    ensures var s := Run(Init(registry), steps); s.cached[ns] == s.registry[ns]
  {
    hide Next;
    NoLateAddStays(Init(registry), steps, ns);
    RunInv(Init(registry), steps);
    QuietIsRight(Run(Init(registry), steps), ns);
  }

  // ---- the failing case -------------------------------------------------------------------------------

  lemma Snoc(s: State, a: seq<Step>, x: Step)
    ensures Run(s, a + [x]) == Next(Run(s, a), x)
    decreases |a|
  {
    hide Next;
    if a == [] {
      assert a + [x] == [x] && [x][1..] == [];
      assert Run(s, [x]) == Run(Next(s, x), []);
    } else {
      assert (a + [x])[0] == a[0] && (a + [x])[1..] == a[1..] + [x];
      Snoc(Next(s, a[0]), a[1..], x);
    }
  }

  /** Recovery charges a namespace the registry does not know; registering it afterwards leaves it unlimited. */
  lemma LateAddStaysUnlimited() returns (steps: seq<Step>)
    ensures var s := Run(Init(map[]), steps);
      s.tasks == map[] && 5 in s.cached && 5 in s.registry && s.cached[5] == UNLIMITED && s.registry[5] == Limits(10, 0, 0)
  {
    hide Run;
    var a := Init(map[]);
    var b := a.(tasks := map[0 := Snapshot(5, UNLIMITED)], nextTask := 1);
    var c := b.(cached := map[5 := UNLIMITED], tasks := map[0 := Refreshing(5, false)]);
    var d := c.(tasks := map[]);
    assert Next(a, Touch(5)) == b && Next(b, Publish(0)) == c && Next(c, Lock(0)) == d;
    assert Run(a, []) == a by { RunEmpty(a); }
    Snoc(a, [], Touch(5));
    Snoc(a, [Touch(5)], Publish(0));
    Snoc(a, [Touch(5), Publish(0)], Lock(0));
    Snoc(a, [Touch(5), Publish(0), Lock(0)], Add(5, Limits(10, 0, 0)));
    assert [] + [Touch(5)] == [Touch(5)] && [Touch(5)] + [Publish(0)] == [Touch(5), Publish(0)];
    assert [Touch(5), Publish(0)] + [Lock(0)] == [Touch(5), Publish(0), Lock(0)];
    steps := [Touch(5), Publish(0), Lock(0)] + [Add(5, Limits(10, 0, 0))];
  }

  lemma RunEmpty(s: State)
    ensures Run(s, []) == s
  {
  }

  // ---- a refresh heals ----------------------------------------------------------------------------------

  /** Until its last store, a refresh keeps the value it read; others neither store nor end it. */
  lemma StoreUnderWay(s: State, step: Step, t: nat, ns: Ns, v: Limits)
    requires Shape(s) && t < s.nextTask && (t in s.tasks ==> s.tasks[t].Storing? && s.tasks[t].ns == ns && s.tasks[t].l == v)
    ensures var n := Next(s, step); t < n.nextTask && (t in n.tasks ==> n.tasks[t].Storing? && n.tasks[t].ns == ns && n.tasks[t].l == v)
  {
    hide Shape, AddsLate;
  }

  lemma {:induction false} StoreRuns(s: State, steps: seq<Step>, t: nat, ns: Ns, v: Limits)
    requires Shape(s) && t < s.nextTask && (t in s.tasks ==> s.tasks[t].Storing? && s.tasks[t].ns == ns && s.tasks[t].l == v)
    ensures var n := Run(s, steps); Shape(n) && (t in n.tasks ==> n.tasks[t].Storing? && n.tasks[t].ns == ns && n.tasks[t].l == v)
    decreases |steps|
  {
    hide Shape, Next;
    if steps == [] {
    } else {
      StoreUnderWay(s, steps[0], t, ns, v);
      NextShape(s, steps[0]);
      StoreRuns(Next(s, steps[0]), steps[1..], t, ns, v);
    }
  }

  /**
   * A refresh that gets the lock and, whatever others do meanwhile, makes its last
   * store leaves the cached limits equal to what it read in the registry, and the
   * namespace no longer late.
   */
  lemma RefreshHeals(s: State, t: nat, steps: seq<Step>)
    requires Shape(s) && t in s.tasks && s.tasks[t].Refreshing? && !s.lock && s.tasks[t].ns in s.registry
    requires var n := Run(Next(s, Lock(t)), steps); t in n.tasks && (n.tasks[t].Storing? ==> n.tasks[t].done == 2)
    ensures var n := Next(Run(Next(s, Lock(t)), steps), Store(t)); var ns := s.tasks[t].ns;
      ns in n.cached && n.cached[ns] == s.registry[ns] && ns !in n.late && t !in n.tasks
  {
    LockShape(s, t);
    StoreRuns(Next(s, Lock(t)), steps, t, s.tasks[t].ns, s.registry[s.tasks[t].ns]);
    hide Run;
    assert TaskOk(Run(Next(s, Lock(t)), steps), t);
  }

  // ---- one SetQuota, with nobody in between --------------------------------------------------------

  /** The same limits but for one tier. */
  predicate Changed(a: Limits, b: Limits, tier: Tier, n: int) {
    match tier
    case Dram => b == Limits(n, a.nvme, a.s3)
    case Nvme => b == Limits(a.dram, n, a.s3)
    case S3 => b == Limits(a.dram, a.nvme, n)
  }

  lemma Announced(s: State, ns: Ns, tier: Tier, n: int)
    requires ns in s.registry && ns in s.cached
    ensures var r := Next(Next(s, SetQuota(ns, tier, n)), Notify(s.nextTask));
      && r == s.(registry := r.registry, tasks := s.tasks[s.nextTask := Refreshing(ns, false)], nextTask := s.nextTask + 1)
      && ns in r.registry && r.registry == s.registry[ns := r.registry[ns]] && Changed(s.registry[ns], r.registry[ns], tier, n)
  {
    var a := Next(s, SetQuota(ns, tier, n));
    assert a.tasks[s.nextTask := Refreshing(ns, false)] == s.tasks[s.nextTask := Refreshing(ns, false)];
  }

  lemma Stored(s: State, t: nat)
    requires t in s.tasks && s.tasks[t].Refreshing? && !s.lock && s.tasks[t].ns in s.registry && s.tasks[t].ns in s.cached
    ensures var ns := s.tasks[t].ns; var r := Next(Next(Next(Next(s, Lock(t)), Store(t)), Store(t)), Store(t));
      r == s.(cached := s.cached[ns := s.registry[ns]], tasks := s.tasks - {t}, late := s.late - {ns})
  {
    var ns, l := s.tasks[t].ns, s.registry[s.tasks[t].ns];
    var c := s.cached[ns];
    var a := Next(s, Lock(t));
    assert a == s.(lock := true, tasks := s.tasks[t := Storing(ns, l, 0, s.tasks[t].reload)]);
    StoredOnce(a, t);
    var b := Next(a, Store(t));
    StoredOnce(b, t);
    var d := Next(b, Store(t));
    assert d.cached[ns] == Limits(l.dram, l.nvme, c.s3);
    assert d.tasks - {t} == s.tasks - {t};
  }

  lemma StoredOnce(s: State, t: nat)
    requires t in s.tasks && s.tasks[t].Storing? && s.tasks[t].done < 2 && s.tasks[t].ns in s.cached
    ensures var task := s.tasks[t];
      Next(s, Store(t)) == s.(cached := s.cached[task.ns := if task.done == 0 then s.cached[task.ns].(dram := task.l.dram)
                                                            else s.cached[task.ns].(nvme := task.l.nvme)],
                              tasks := s.tasks[t := Storing(task.ns, task.l, task.done + 1, task.reload)])
  {
  }

  /** The new limit is in the registry and in force, that tier's and no other; no other namespace notices. */
  lemma QuotaTakes(s: State, ns: Ns, tier: Tier, n: int)
    requires ns in s.registry && ns in s.cached && !s.lock && s.nextTask !in s.tasks
    ensures var t := s.nextTask;
      var r := Next(Next(Next(Next(Next(Next(s, SetQuota(ns, tier, n)), Notify(t)), Lock(t)), Store(t)), Store(t)), Store(t));
      && ns in r.registry && ns in r.cached && Changed(s.registry[ns], r.registry[ns], tier, n) && r.cached[ns] == r.registry[ns]
      && (forall j :: j != ns ==> (j in r.cached <==> j in s.cached) && (j in s.cached ==> r.cached[j] == s.cached[j]))
      && r.tasks == s.tasks && !r.lock
  {
    hide Next, Changed;
    Announced(s, ns, tier, n);
    var t := s.nextTask;
    Stored(Next(Next(s, SetQuota(ns, tier, n)), Notify(t)), t);
    assert s.tasks[t := Refreshing(ns, false)] - {t} == s.tasks;
  }

  /** So does a Reload put the registry's limits in force, for a namespace that was added late too. */
  lemma ReloadTakes(s: State, ns: Ns)
    requires ns in s.registry && ns in s.cached && !s.lock && s.nextTask !in s.tasks
    ensures var t := s.nextTask;
      var r := Next(Next(Next(Next(Next(s, Reload(ns)), Lock(t)), Store(t)), Store(t)), Store(t));
      ns in r.cached && r.cached[ns] == s.registry[ns] && r.registry == s.registry && ns !in r.late && r.tasks == s.tasks
  {
    var t := s.nextTask;
    var a := Next(s, Reload(ns));
    assert a == s.(tasks := s.tasks[t := Refreshing(ns, true)], nextTask := t + 1);
    hide Next;
    Stored(a, t);
    assert a.tasks - {t} == s.tasks;
  }
}
