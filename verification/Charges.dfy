/**
 * One tenant's balance on one tier: charges admitted by a compare-and-swap loop
 * that loads the limit once and the balance on every try, unchecked additions
 * (recovery, tier transfers, an unlimited tier), refunds with their healing
 * step, and changes of the limit, all racing. The balance is one shared integer;
 * what each caller was granted is kept beside it, caller by caller.
 */
module Charges {
  import opened Sums

  datatype Task =
    | Checking(n: nat, limit: int)             // limit loaded
    | Loaded(n: nat, limit: int, cur: int)     // balance loaded, headroom seen
    | Healing(bal: int)                        // a refund saw a negative balance

  /** Bytes a caller was granted and has not given back. */
  datatype Grant = Grant(n: nat, checked: bool)

  datatype State = State(
    used: int,
    limit: int,
    peak: int,                  // the highest limit in force so far
    grants: map<nat, Grant>,
    tasks: map<nat, Task>,
    nextId: nat)

  function Init(limit: int): State { State(0, limit, limit, map[], map[], 0) }

  datatype Step =
    | Charge(n: nat)
    | Load(t: nat)
    | Cas(t: nat)
    | Seed(n: nat)
    | Refund(g: nat)
    | Heal(t: nat)
    | SetLimit(l: int)

  /** An atomic add; the caller holds the bytes from then on. */
  function Added(s: State, n: nat): State {
    s.(used := s.used + n, grants := s.grants[s.nextId := Grant(n, false)], nextId := s.nextId + 1)
  }

  function Next(s: State, step: Step): State {
    match step
    case Charge(n) =>
      if n == 0 then s
      else if s.limit <= 0 then Added(s, n)
      else s.(tasks := s.tasks[s.nextId := Checking(n, s.limit)], nextId := s.nextId + 1)
    case Load(t) =>
      if t !in s.tasks || !s.tasks[t].Checking? then s
      else if s.used + s.tasks[t].n > s.tasks[t].limit then s.(tasks := s.tasks - {t})
      else s.(tasks := s.tasks[t := Loaded(s.tasks[t].n, s.tasks[t].limit, s.used)])
    case Cas(t) =>
      if t !in s.tasks || !s.tasks[t].Loaded? then s
      else if s.used == s.tasks[t].cur then
        s.(used := s.tasks[t].cur + s.tasks[t].n, grants := s.grants[t := Grant(s.tasks[t].n, true)], tasks := s.tasks - {t})
      else s.(tasks := s.tasks[t := Checking(s.tasks[t].n, s.tasks[t].limit)])
    case Seed(n) => if n == 0 then s else Added(s, n)
    case Refund(g) =>
      if g !in s.grants then s
      else
        var bal := s.used - s.grants[g].n;
        s.(used := bal, grants := s.grants - {g},
           tasks := if bal < 0 then s.tasks[s.nextId := Healing(bal)] else s.tasks, nextId := s.nextId + 1)
    case Heal(t) =>
      if t !in s.tasks || !s.tasks[t].Healing? then s
      else s.(used := if s.used == s.tasks[t].bal then 0 else s.used, tasks := s.tasks - {t})
    case SetLimit(l) => s.(limit := l, peak := if l > s.peak then l else s.peak)
  }

  function Run(s: State, steps: seq<Step>): State
    decreases |steps|
  {
    if steps == [] then s else Run(Next(s, steps[0]), steps[1..])
  }

  function Bytes(): Grant -> int { (g: Grant) => g.n }
  function CheckedBytes(): Grant -> int { (g: Grant) => if g.checked then g.n else 0 }

  ghost function Granted(s: State): int { Sum(s.grants, Bytes()) }
  ghost function Checked(s: State): int { Sum(s.grants, CheckedBytes()) }

  ghost predicate TasksOk(s: State) {
    && (forall t :: t in s.tasks ==> t < s.nextId && t !in s.grants && !s.tasks[t].Healing?)
    && (forall t :: t in s.tasks && !s.tasks[t].Healing? ==> 0 < s.tasks[t].limit <= s.peak)
    && (forall t :: t in s.tasks && s.tasks[t].Loaded? ==> s.tasks[t].cur + s.tasks[t].n <= s.tasks[t].limit)
    && (forall g :: g in s.grants ==> g < s.nextId)
  }

  ghost predicate SumsOk(s: State) { s.used == Granted(s) && (Checked(s) <= s.peak || Checked(s) == 0) }

  ghost predicate Inv(s: State) { SumsOk(s) && TasksOk(s) && s.limit <= s.peak }

  /** What was granted with a check is part of what was granted. */
  lemma CheckedWithin(grants: map<nat, Grant>)
    ensures 0 <= Sum(grants, CheckedBytes()) <= Sum(grants, Bytes())
  {
    var rest := (g: Grant) => if g.checked then 0 else g.n;
    SumSplit(grants, Bytes(), CheckedBytes(), rest);
    SumBound(grants, CheckedBytes());
    SumBound(grants, rest);
  }

  lemma GrantAppears(grants: map<nat, Grant>, g: nat, x: Grant)
    requires g !in grants
    ensures Sum(grants[g := x], Bytes()) == Sum(grants, Bytes()) + x.n
    ensures Sum(grants[g := x], CheckedBytes()) == Sum(grants, CheckedBytes()) + if x.checked then x.n else 0
  {
    SumInsert(grants, g, x, Bytes());
    SumInsert(grants, g, x, CheckedBytes());
  }

  lemma GrantReturned(grants: map<nat, Grant>, g: nat)
    requires g in grants
    ensures Sum(grants - {g}, Bytes()) == Sum(grants, Bytes()) - grants[g].n >= 0
    ensures Sum(grants - {g}, CheckedBytes()) <= Sum(grants, CheckedBytes())
    ensures 0 <= Sum(grants - {g}, CheckedBytes())
  {
    SumPick(grants, g, Bytes());
    SumPick(grants, g, CheckedBytes());
    CheckedWithin(grants - {g});
  }

  lemma NextTasks(s: State, step: Step)
    requires s.limit <= s.peak && TasksOk(s) && (step.Refund? && step.g in s.grants ==> s.grants[step.g].n <= s.used)
    ensures TasksOk(Next(s, step))
  {
  }

  lemma NextSums(s: State, step: Step)
    requires SumsOk(s) && s.limit <= s.peak && TasksOk(s)
    ensures SumsOk(Next(s, step)) && (step.Refund? && step.g in s.grants ==> s.grants[step.g].n <= s.used)
  {
    CheckedWithin(s.grants);
    match step
    case Charge(n) => if s.limit <= 0 { GrantAppears(s.grants, s.nextId, Grant(n, false)); }
    case Load(t) =>
    case Cas(t) => if t in s.tasks && s.tasks[t].Loaded? { GrantAppears(s.grants, t, Grant(s.tasks[t].n, true)); }
    case Seed(n) => GrantAppears(s.grants, s.nextId, Grant(n, false));
    case Refund(g) => if g in s.grants { GrantReturned(s.grants, g); }
    case Heal(t) =>
    case SetLimit(l) =>
  }

  lemma NextInv(s: State, step: Step)
    requires Inv(s)
    ensures Inv(Next(s, step))
  {
    NextSums(s, step);
    hide SumsOk, TasksOk;
    NextTasks(s, step);
  }

  lemma {:induction false} RunInv(s: State, steps: seq<Step>)
    requires Inv(s)
    ensures Inv(Run(s, steps)) && Run(s, steps).peak >= s.peak
    decreases |steps|
  {
    if steps == [] {
    } else {
      NextInv(s, steps[0]);
      hide Inv;
      RunInv(Next(s, steps[0]), steps[1..]);
    }
  }

  /** Whatever races, the balance is the sum of what the callers hold: no update is lost, and no refund ever has to heal. */
  lemma BalanceIsExact(limit: int, steps: seq<Step>)
    ensures var s := Run(Init(limit), steps);
      s.used == Granted(s) >= 0 && forall t :: t in s.tasks ==> !s.tasks[t].Healing?
  {
    RunInv(Init(limit), steps);
    CheckedWithin(Run(Init(limit), steps).grants);
  }

  /** What the callers hold by checked charges stays within the highest limit in force so far. */
  lemma NeverOverPeak(limit: int, steps: seq<Step>)
    ensures var s := Run(Init(limit), steps); Checked(s) <= if s.peak > 0 then s.peak else 0
  {
    RunInv(Init(limit), steps);
  }

  /** The limit never changes along the run. */
  predicate Steady(steps: seq<Step>) { forall i :: 0 <= i < |steps| ==> !steps[i].SetLimit? }
  predicate NoSeed(steps: seq<Step>) { forall i :: 0 <= i < |steps| ==> !steps[i].Seed? }

  ghost predicate AllChecked(s: State) { forall g :: g in s.grants ==> s.grants[g].checked }

  lemma {:induction false} SteadyKeeps(s: State, steps: seq<Step>)
    requires Steady(steps) && s.limit > 0 && s.peak == s.limit
    ensures var n := Run(s, steps); n.limit == s.limit && n.peak == s.peak
    ensures NoSeed(steps) && AllChecked(s) ==> AllChecked(Run(s, steps))
    decreases |steps|
  {
    if steps == [] {
    } else {
      SteadyKeeps(Next(s, steps[0]), steps[1..]);
    }
  }

  /** Under a steady limit checked charges never exceed it, however they race; without unchecked additions neither does the balance. */
  lemma NeverOverQuota(limit: int, steps: seq<Step>)
    requires limit > 0 && Steady(steps)
    ensures Checked(Run(Init(limit), steps)) <= limit
    ensures NoSeed(steps) ==> 0 <= Run(Init(limit), steps).used <= limit
  {
    NeverOverPeak(limit, steps);
    BalanceIsExact(limit, steps);
    SteadyKeeps(Init(limit), steps);
    var s := Run(Init(limit), steps);
    if NoSeed(steps) { SumCongruent(s.grants, Bytes(), CheckedBytes()); }
  }

  // ---- one charge at a time ------------------------------------------------------------------------

  /** With nobody in between, a charge is granted exactly when the balance it makes is within the limit, or there is no limit. */
  lemma ChargeGrantedIff(limit: int, steps: seq<Step>, n: nat)
    requires n > 0
    ensures var s := Run(Init(limit), steps);
      var t := Next(Next(Next(s, Charge(n)), Load(s.nextId)), Cas(s.nextId));
      var granted := s.limit <= 0 || s.used + n <= s.limit;
      && t.used == s.used + (if granted then n else 0) && t.tasks == s.tasks && t.limit == s.limit
      && t.grants == if granted then s.grants[s.nextId := Grant(n, s.limit > 0)] else s.grants
  {
    RunInv(Init(limit), steps);
    hide Run, SumsOk;
    var s := Run(Init(limit), steps);
    assert s.nextId !in s.tasks;
    var a := Next(s, Charge(n));
    if s.limit > 0 {
      assert a.tasks - {s.nextId} == s.tasks;
      var b := Next(a, Load(s.nextId));
      if s.used + n <= s.limit { assert b.tasks - {s.nextId} == s.tasks; }
    }
  }

  /** A refund undoes its grant: what a caller was granted and gave back leaves no trace in the balance. */
  lemma RefundUndoes(limit: int, steps: seq<Step>, g: nat)
    requires g in Run(Init(limit), steps).grants
    ensures var s := Run(Init(limit), steps); var t := Next(s, Refund(g));
      t.used == s.used - s.grants[g].n >= 0 && t.grants == s.grants - {g} && t.tasks == s.tasks
  {
    RunInv(Init(limit), steps);
    GrantReturned(Run(Init(limit), steps).grants, g);
  }
}
