/**
 * The DRAM tier's reference counts and arena. Lookup, load, compare-and-swap,
 * index removal, decrement and free are separate steps, so GET, DELETE,
 * eviction, demotion and PUT interleave freely. A ref's id also names its
 * arena extent.
 */
module BlockRefs {
  import opened Sums

  type Key = nat
  type RefId = nat

  datatype Extent = Extent(off: nat, len: nat)

  datatype Task =
    | Placing(k: Key, r: RefId)        // PUT: bytes copied into a fresh extent, not published
    | Losing(r: RefId)                 // PUT: refused by quota or beaten to the publish, its own extent to give back
    | Looked(r: RefId)                 // pointer read from the index, nothing acquired
    | Loaded(r: RefId, v: int)         // Acquire read the count v > 0
    | Holding(r: RefId)                // Acquire succeeded
    | Dropping(r: RefId)               // removed from the index, the index's reference to release
    | Freeing(r: RefId)                // a release hit zero, the extent to give back

  datatype State = State(
    index: map<Key, RefId>,
    count: map<RefId, int>,
    extents: map<RefId, Extent>,       // allocated extents
    data: map<RefId, seq<int>>,        // what was put, for reference
    mem: map<nat, int>,                // the arena
    tasks: map<nat, Task>,
    nextTask: nat,
    nextRef: RefId)

  const EMPTY := State(map[], map[], map[], map[], map[], map[], 0, 0)

  datatype Step =
    | Alloc(k: Key, off: nat, bytes: seq<int>)
    | Publish(t: nat)
    | Refuse(t: nat)
    | GiveBack(t: nat)
    | Lookup(k: Key)
    | Load(t: nat)
    | Cas(t: nat)
    | Release(t: nat)
    | Remove(k: Key)
    | Free(t: nat)

  predicate Disjoint(a: Extent, b: Extent) { a.off + a.len <= b.off || b.off + b.len <= a.off || a.len == 0 || b.len == 0 }

  function Write(mem: map<nat, int>, off: nat, bytes: seq<int>): map<nat, int> {
    mem + map i: nat | off <= i < off + |bytes| :: ByteAt(bytes, off, i)
  }
  function ByteAt(bytes: seq<int>, off: nat, i: nat): int
    requires off <= i < off + |bytes|
  {
    bytes[i - off]
  }

  function Spawn(s: State, task: Task): State { s.(tasks := s.tasks[s.nextTask := task], nextTask := s.nextTask + 1) }
  function Done(s: State, t: nat): State { s.(tasks := s.tasks - {t}) }
  function Becomes(s: State, t: nat, task: Task): State { s.(tasks := s.tasks[t := task]) }

  /** Allocate where nothing is allocated, and copy the bytes in. */
  function Place(s: State, k: Key, off: nat, bytes: seq<int>): State {
    if exists r :: r in s.extents && !Disjoint(s.extents[r], Extent(off, |bytes|)) then s
    else Spawn(s.(extents := s.extents[s.nextRef := Extent(off, |bytes|)], data := s.data[s.nextRef := bytes],
                  mem := Write(s.mem, off, bytes), nextRef := s.nextRef + 1),
               Placing(k, s.nextRef))
  }

  /** Insert-if-absent; the index's own reference is the first one. */
  function Insert(s: State, t: nat, k: Key, r: RefId): State {
    if k in s.index then Becomes(s, t, Losing(r))
    else Done(s.(index := s.index[k := r], count := s.count[r := 1]), t)
  }

  /** One reference goes; whoever reaches zero frees. Below zero is clamped and frees nothing. */
  function Decrement(s: State, t: nat, r: RefId): State {
    if r !in s.count then s
    else if s.count[r] - 1 < 0 then Done(s.(count := s.count[r := 0]), t)
    else if s.count[r] - 1 == 0 then Becomes(s.(count := s.count[r := 0]), t, Freeing(r))
    else Done(s.(count := s.count[r := s.count[r] - 1]), t)
  }

  function Advance(s: State, t: nat, task: Task, step: Step): State {
    match (step, task)
    case (Publish(_), Placing(k, r)) => Insert(s, t, k, r)
    case (Refuse(_), Placing(k, r)) => Becomes(s, t, Losing(r))
    case (GiveBack(_), Losing(r)) => Done(s.(extents := s.extents - {r}), t)
    case (Load(_), Looked(r)) =>
      if r !in s.count || s.count[r] <= 0 then Done(s, t) else Becomes(s, t, Loaded(r, s.count[r]))
    case (Cas(_), Loaded(r, v)) =>
      if r !in s.count || s.count[r] != v then Becomes(s, t, Looked(r))
      else Becomes(s.(count := s.count[r := v + 1]), t, Holding(r))
    case (Release(_), Holding(r)) => Decrement(s, t, r)
    case (Release(_), Dropping(r)) => Decrement(s, t, r)
    case (Free(_), Freeing(r)) => Done(s.(extents := s.extents - {r}), t)
    case _ => s
  }

  function Next(s: State, step: Step): State {
    match step
    case Alloc(k, off, bytes) => Place(s, k, off, bytes)
    case Lookup(k) => if k in s.index then Spawn(s, Looked(s.index[k])) else s
    case Remove(k) =>
      if k in s.index then Spawn(s.(index := s.index - {k}), Dropping(s.index[k])) else s
    case _ => if step.t in s.tasks then Advance(s, step.t, s.tasks[step.t], step) else s
  }

  function Run(s: State, steps: seq<Step>): State
    decreases |steps|
  {
    if steps == [] then s else Run(Next(s, steps[0]), steps[1..])
  }

  // ---- what is counted ------------------------------------------------------------------------

  function Holds(r: RefId): Task -> int { (t: Task) => if t == Holding(r) || t == Dropping(r) then 1 else 0 }
  function Frees(r: RefId): Task -> int { (t: Task) => if t == Freeing(r) then 1 else 0 }
  function Places(r: RefId): Task -> int { (t: Task) => if (t.Placing? || t.Losing?) && t.r == r then 1 else 0 }
  function Points(r: RefId): RefId -> int { (j: RefId) => if j == r then 1 else 0 }

  /** References that exist: holders, the index's own, and index references removed but not yet dropped. */
  ghost function Refs(s: State, r: RefId): int { Sum(s.tasks, Holds(r)) + Sum(s.index, Points(r)) }

  /** What is counted of one ref: references, pending frees, PUTs in flight. */
  datatype Tally = Tally(refs: int, frees: int, places: int)

  ghost function TallyOf(s: State, r: RefId): Tally { Tally(Refs(s, r), Sum(s.tasks, Frees(r)), Sum(s.tasks, Places(r))) }
  function Weight(task: Task, r: RefId): Tally { Tally(Holds(r)(task), Frees(r)(task), Places(r)(task)) }

  // ---- invariant ------------------------------------------------------------------------------

  /**
   * A published ref's count is exact and never negative; its extent is allocated
   * until the one free that follows the release that reached zero. An
   * unpublished extent belongs to one PUT in flight.
   */
  predicate Fits(published: bool, count: int, placed: bool, y: Tally) {
    if published then
      && count == y.refs >= 0 && y.places == 0
      && y.frees == (if count == 0 && placed then 1 else 0)
      && (count > 0 ==> placed)
    else
      y.refs == 0 && y.frees == 0 && y.places == (if placed then 1 else 0)
  }

  ghost predicate IdOk(s: State, r: RefId) {
    Fits(r in s.count, if r in s.count then s.count[r] else 0, r in s.extents, TallyOf(s, r))
  }

  /** The arena reads as d from the start of e. */
  ghost predicate Reads(mem: map<nat, int>, e: Extent, d: seq<int>) {
    |d| == e.len && forall i :: 0 <= i < |d| ==> ReadsByte(mem, e.off + i, d[i])
  }
  predicate ReadsByte(mem: map<nat, int>, at: nat, b: int) { at in mem && mem[at] == b }

  /** The bytes of an allocated extent are the ones that were put. */
  ghost predicate BytesOk(s: State, r: RefId)
    requires r in s.extents
  {
    r in s.data && Reads(s.mem, s.extents[r], s.data[r])
  }

  ghost predicate Apart(s: State) {
    forall a, b :: a in s.extents && b in s.extents && a != b ==> Disjoint(s.extents[a], s.extents[b])
  }

  ghost predicate TaskIds(tasks: map<nat, Task>, nextTask: nat, nextRef: RefId) {
    forall t :: t in tasks ==> t < nextTask && tasks[t].r < nextRef && (tasks[t].Loaded? ==> tasks[t].v > 0)
  }
  ghost predicate IndexIds(index: map<Key, RefId>, nextRef: RefId) { forall k :: k in index ==> index[k] < nextRef }
  ghost predicate CountIds(count: map<RefId, int>, nextRef: RefId) { forall r :: r in count ==> r < nextRef }
  ghost predicate ExtentIds(extents: map<RefId, Extent>, nextRef: RefId) { forall r :: r in extents ==> r < nextRef }

  ghost predicate Ids(s: State) {
    TaskIds(s.tasks, s.nextTask, s.nextRef) && IndexIds(s.index, s.nextRef) && CountIds(s.count, s.nextRef)
    && ExtentIds(s.extents, s.nextRef)
  }

  ghost predicate Counts(s: State) { forall r: RefId :: IdOk(s, r) }

  ghost predicate Arena(s: State) {
    Apart(s) && forall r :: r in s.extents ==> BytesOk(s, r)
  }

  ghost predicate Inv(s: State) { Ids(s) && Counts(s) && Arena(s) }

  // ---- steps ----------------------------------------------------------------------------------

  /** A task appears, changes or ends: what that does to each measure. */
  lemma TaskShift(m: map<nat, Task>, t: nat, task: Task, f: Task -> int)
    ensures Sum(m[t := task], f) == Sum(m, f) + f(task) - (if t in m then f(m[t]) else 0)
    ensures t in m ==> Sum(m - {t}, f) == Sum(m, f) - f(m[t])
  {
    if t in m {
      SumUpdate(m, t, task, f);
      SumPick(m, t, f);
    } else {
      SumInsert(m, t, task, f);
    }
  }

  lemma TallySet(s: State, n: State, t: nat, task: Task, r: RefId)
    requires n.index == s.index && n.tasks == s.tasks[t := task]
    ensures var y, w := TallyOf(s, r), Weight(task, r); var o := if t in s.tasks then Weight(s.tasks[t], r) else Tally(0, 0, 0);
      TallyOf(n, r) == Tally(y.refs + w.refs - o.refs, y.frees + w.frees - o.frees, y.places + w.places - o.places)
  {
    hide Holds, Frees, Places;
    TaskShift(s.tasks, t, task, Holds(r));
    TaskShift(s.tasks, t, task, Frees(r));
    TaskShift(s.tasks, t, task, Places(r));
  }

  lemma TallyDone(s: State, n: State, t: nat, r: RefId)
    requires t in s.tasks && n.index == s.index && n.tasks == s.tasks - {t}
    ensures var y, o := TallyOf(s, r), Weight(s.tasks[t], r);
      TallyOf(n, r) == Tally(y.refs - o.refs, y.frees - o.frees, y.places - o.places)
  {
    hide Holds, Frees, Places;
    TaskShift(s.tasks, t, s.tasks[t], Holds(r));
    TaskShift(s.tasks, t, s.tasks[t], Frees(r));
    TaskShift(s.tasks, t, s.tasks[t], Places(r));
  }

  lemma TallyIndex(s: State, n: State, k: Key, p: RefId, r: RefId)
    requires n.tasks == s.tasks && k !in s.index && n.index == s.index[k := p]
    ensures TallyOf(n, r) == TallyOf(s, r).(refs := TallyOf(s, r).refs + if r == p then 1 else 0)
  {
    SumInsert(s.index, k, p, Points(r));
  }

  /** A task in the table is counted. */
  lemma Counted(s: State, t: nat)
    requires t in s.tasks
    ensures var r := s.tasks[t].r; var y, w := TallyOf(s, r), Weight(s.tasks[t], r);
      y.refs >= w.refs && y.frees >= w.frees && y.places >= w.places
  {
    var r := s.tasks[t].r;
    SumBound(s.tasks, Holds(r));
    SumBound(s.tasks, Frees(r));
    SumBound(s.tasks, Places(r));
    SumBound(s.index, Points(r));
  }

  /** A task weighs nothing for another ref. */
  lemma Elsewhere(task: Task, r: RefId)
    requires task.r != r || task.Looked? || task.Loaded?
    ensures Weight(task, r) == Tally(0, 0, 0)
  {
  }

  /** A task that counts nowhere appears, changes into another such task, or ends. */
  lemma NeutralCounts(s: State, n: State, t: nat, task: Task)
    requires Counts(s) && n == s.(tasks := n.tasks, nextTask := n.nextTask)
    requires task.Looked? || task.Loaded?
    requires t in s.tasks ==> s.tasks[t].Looked? || s.tasks[t].Loaded?
    requires n.tasks == s.tasks[t := task] || (t in s.tasks && n.tasks == s.tasks - {t})
    ensures Counts(n)
  {
    hide TallyOf, Weight, Fits;
    forall r: RefId ensures IdOk(n, r) {
      assert IdOk(s, r);
      Elsewhere(task, r);
      if t in s.tasks { Elsewhere(s.tasks[t], r); }
      if n.tasks == s.tasks[t := task] { TallySet(s, n, t, task, r); } else { TallyDone(s, n, t, r); }
    }
  }

  lemma PlaceCounts(s: State, k: Key, off: nat, bytes: seq<int>)
    requires Ids(s) && Counts(s)
    ensures Counts(Place(s, k, off, bytes))
  {
    hide TallyOf, Write, Disjoint;
    var n := Place(s, k, off, bytes);
    if n != s {
      forall r: RefId ensures IdOk(n, r) {
        assert IdOk(s, r);
        TallySet(s, n, s.nextTask, Placing(k, s.nextRef), r);
      }
    }
  }

  lemma WinCounts(s: State, t: nat)
    requires Ids(s) && Counts(s) && t in s.tasks && s.tasks[t].Placing? && s.tasks[t].k !in s.index
    ensures Counts(Done(s.(index := s.index[s.tasks[t].k := s.tasks[t].r], count := s.count[s.tasks[t].r := 1]), t))
  {
    hide TallyOf;
    var k, p := s.tasks[t].k, s.tasks[t].r;
    var m := Done(s, t);
    var n := m.(index := s.index[k := p], count := s.count[p := 1]);
    Counted(s, t);
    assert IdOk(s, p);
    forall r: RefId ensures IdOk(n, r) {
      assert IdOk(s, r);
      TallyDone(s, m, t, r);
      TallyIndex(m, n, k, p, r);
    }
  }

  lemma LoseCounts(s: State, t: nat)
    requires Counts(s) && t in s.tasks && s.tasks[t].Placing?
    ensures Counts(Becomes(s, t, Losing(s.tasks[t].r)))
  {
    hide TallyOf;
    var n := Becomes(s, t, Losing(s.tasks[t].r));
    forall r: RefId ensures IdOk(n, r) {
      assert IdOk(s, r);
      TallySet(s, n, t, Losing(s.tasks[t].r), r);
    }
  }

  lemma InsertCounts(s: State, t: nat)
    requires Ids(s) && Counts(s) && t in s.tasks && s.tasks[t].Placing?
    ensures Counts(Insert(s, t, s.tasks[t].k, s.tasks[t].r))
  {
    hide Ids, Counts;
    if s.tasks[t].k in s.index { LoseCounts(s, t); } else { WinCounts(s, t); }
  }

  /** A free always finds its extent allocated: nothing is freed twice. */
  lemma FreeCounts(s: State, t: nat)
    requires Counts(s) && t in s.tasks && (s.tasks[t].Losing? || s.tasks[t].Freeing?)
    ensures s.tasks[t].r in s.extents
    ensures Counts(Done(s.(extents := s.extents - {s.tasks[t].r}), t))
  {
    hide TallyOf;
    var p := s.tasks[t].r;
    var n := Done(s.(extents := s.extents - {p}), t);
    Counted(s, t);
    assert IdOk(s, p);
    forall r: RefId ensures IdOk(n, r) {
      assert IdOk(s, r);
      TallyDone(s, n, t, r);
    }
  }

  lemma CasCounts(s: State, t: nat)
    requires Ids(s) && Counts(s) && t in s.tasks && s.tasks[t].Loaded?
    requires s.tasks[t].r in s.count && s.count[s.tasks[t].r] == s.tasks[t].v
    ensures Counts(Becomes(s.(count := s.count[s.tasks[t].r := s.tasks[t].v + 1]), t, Holding(s.tasks[t].r)))
  {
    hide TallyOf;
    var p := s.tasks[t].r;
    var n := Becomes(s.(count := s.count[p := s.tasks[t].v + 1]), t, Holding(p));
    forall r: RefId ensures IdOk(n, r) {
      assert IdOk(s, r);
      TallySet(s, n, t, Holding(p), r);
    }
  }

  /** Whoever holds a reference finds a positive count, so the clamp below zero never acts. */
  lemma HolderCounted(s: State, t: nat)
    requires Counts(s) && t in s.tasks && (s.tasks[t].Holding? || s.tasks[t].Dropping?)
    ensures s.tasks[t].r in s.count && s.count[s.tasks[t].r] >= 1 && s.tasks[t].r in s.extents
  {
    hide TallyOf;
    Counted(s, t);
    assert IdOk(s, s.tasks[t].r);
  }

  lemma DecrementCounts(s: State, t: nat)
    requires Counts(s) && t in s.tasks && (s.tasks[t].Holding? || s.tasks[t].Dropping?)
    ensures Counts(Decrement(s, t, s.tasks[t].r))
  {
    hide TallyOf;
    var p := s.tasks[t].r;
    var n := Decrement(s, t, p);
    HolderCounted(s, t);
    var last := s.count[p] == 1;
    forall r: RefId ensures IdOk(n, r) {
      assert IdOk(s, r);
      if last { TallySet(s, n, t, Freeing(p), r); } else { TallyDone(s, n, t, r); }
    }
  }

  lemma RemoveCounts(s: State, k: Key)
    requires Ids(s) && Counts(s) && k in s.index
    ensures Counts(Spawn(s.(index := s.index - {k}), Dropping(s.index[k])))
  {
    hide TallyOf;
    var m := s.(index := s.index - {k});
    var n := Spawn(m, Dropping(s.index[k]));
    assert m.index[k := s.index[k]] == s.index;
    forall r: RefId ensures IdOk(n, r) {
      assert IdOk(s, r);
      TallyIndex(m, s, k, s.index[k], r);
      TallySet(m, n, s.nextTask, Dropping(s.index[k]), r);
    }
  }

  // ---- the arena --------------------------------------------------------------------------------

  /** Steps that give memory back, or none. */
  lemma FewerExtents(s: State, n: State)
    requires Arena(s) && n.mem == s.mem && n.data == s.data
    requires forall r :: r in n.extents ==> r in s.extents && n.extents[r] == s.extents[r]
    ensures Arena(n)
  {
  }

  lemma WriteApart(mem: map<nat, int>, off: nat, bytes: seq<int>, e: Extent, d: seq<int>)
    requires Reads(mem, e, d) && Disjoint(e, Extent(off, |bytes|))
    ensures Reads(Write(mem, off, bytes), e, d)
  {
  }

  lemma WriteReads(mem: map<nat, int>, off: nat, bytes: seq<int>)
    ensures Reads(Write(mem, off, bytes), Extent(off, |bytes|), bytes)
  {
  }

  /** A write into a fresh extent leaves every other extent's bytes alone. */
  lemma PlaceArena(s: State, k: Key, off: nat, bytes: seq<int>)
    requires Ids(s) && Arena(s)
    ensures Arena(Place(s, k, off, bytes))
  {
    hide Reads, Write;
    var n := Place(s, k, off, bytes);
    if forall r :: r in s.extents ==> Disjoint(s.extents[r], Extent(off, |bytes|)) {
      forall r | r in n.extents ensures BytesOk(n, r) {
        if r == s.nextRef {
          WriteReads(s.mem, off, bytes);
        } else {
          assert BytesOk(s, r) && Disjoint(s.extents[r], Extent(off, |bytes|));
          WriteApart(s.mem, off, bytes, s.extents[r], s.data[r]);
        }
      }
      assert Apart(n);
    } else {
    }
  }

  // ---- every step -------------------------------------------------------------------------------

  lemma TaskIdsKept(s: State, t: nat, task: Task)
    requires TaskIds(s.tasks, s.nextTask, s.nextRef) && t in s.tasks
    ensures TaskIds(s.tasks - {t}, s.nextTask, s.nextRef)
    ensures task.r == s.tasks[t].r && (task.Loaded? ==> task.v > 0) ==> TaskIds(s.tasks[t := task], s.nextTask, s.nextRef)
  {
  }

  lemma DecrementIds(s: State, t: nat)
    requires Ids(s) && t in s.tasks
    ensures Ids(Decrement(s, t, s.tasks[t].r))
  {
    hide TaskIds;
    TaskIdsKept(s, t, Freeing(s.tasks[t].r));
  }

  lemma InsertIds(s: State, t: nat)
    requires Ids(s) && t in s.tasks && s.tasks[t].Placing?
    ensures Ids(Insert(s, t, s.tasks[t].k, s.tasks[t].r))
  {
  }

  lemma AdvanceIds(s: State, t: nat, step: Step)
    requires Ids(s) && t in s.tasks
    ensures Ids(Advance(s, t, s.tasks[t], step))
  {
    hide TaskIds, Decrement, Insert;
    match (step, s.tasks[t])
    case (Publish(_), Placing(k, r)) => InsertIds(s, t);
    case (Refuse(_), Placing(k, r)) => TaskIdsKept(s, t, Losing(r));
    case (GiveBack(_), Losing(r)) => TaskIdsKept(s, t, Losing(r));
    case (Load(_), Looked(r)) => if r in s.count { TaskIdsKept(s, t, Loaded(r, s.count[r])); } else { TaskIdsKept(s, t, Looked(r)); }
    case (Cas(_), Loaded(r, v)) =>
      TaskIdsKept(s, t, Looked(r));
      TaskIdsKept(s, t, Holding(r));
    case (Release(_), Holding(r)) => DecrementIds(s, t);
    case (Release(_), Dropping(r)) => DecrementIds(s, t);
    case (Free(_), Freeing(r)) => TaskIdsKept(s, t, Freeing(r));
    case _ =>
  }

  lemma QuietMemory(s: State, t: nat)
    requires t in s.tasks
    ensures var d := Decrement(s, t, s.tasks[t].r); d.mem == s.mem && d.data == s.data && d.extents == s.extents
    ensures s.tasks[t].Placing? ==> var n := Insert(s, t, s.tasks[t].k, s.tasks[t].r);
      n.mem == s.mem && n.data == s.data && n.extents == s.extents
  {
  }

  lemma AdvanceInv(s: State, t: nat, step: Step)
    requires Inv(s) && t in s.tasks
    ensures Inv(Advance(s, t, s.tasks[t], step))
  {
    hide Counts, Arena, Insert, Decrement;
    AdvanceIds(s, t, step);
    hide Ids;
    QuietMemory(s, t);
    var n := Advance(s, t, s.tasks[t], step);
    match (step, s.tasks[t])
    case (Publish(_), Placing(k, r)) =>
      InsertCounts(s, t);
      FewerExtents(s, n);
    case (Refuse(_), Placing(k, r)) =>
      LoseCounts(s, t);
      FewerExtents(s, n);
    case (GiveBack(_), Losing(r)) =>
      FreeCounts(s, t);
      FewerExtents(s, n);
    case (Load(_), Looked(r)) =>
      if r !in s.count || s.count[r] <= 0 { NeutralCounts(s, n, t, Looked(r)); } else { NeutralCounts(s, n, t, Loaded(r, s.count[r])); }
      FewerExtents(s, n);
    case (Cas(_), Loaded(r, v)) =>
      if r !in s.count || s.count[r] != v { NeutralCounts(s, n, t, Looked(r)); } else { CasCounts(s, t); }
      FewerExtents(s, n);
    case (Release(_), Holding(r)) =>
      HolderCounted(s, t);
      DecrementCounts(s, t);
      FewerExtents(s, n);
    case (Release(_), Dropping(r)) =>
      HolderCounted(s, t);
      DecrementCounts(s, t);
      FewerExtents(s, n);
    case (Free(_), Freeing(r)) =>
      FreeCounts(s, t);
      FewerExtents(s, n);
    case _ =>
  }

  lemma NextInv(s: State, step: Step)
    requires Inv(s)
    ensures Inv(Next(s, step))
  {
    hide Counts, Arena, Advance;
    match step
    case Alloc(k, off, bytes) =>
      PlaceCounts(s, k, off, bytes);
      PlaceArena(s, k, off, bytes);
    case Lookup(k) =>
      if k in s.index {
        NeutralCounts(s, Next(s, step), s.nextTask, Looked(s.index[k]));
        FewerExtents(s, Next(s, step));
      }
    case Remove(k) =>
      if k in s.index {
        RemoveCounts(s, k);
        FewerExtents(s, Next(s, step));
      }
    case _ => if step.t in s.tasks { AdvanceInv(s, step.t, step); }
  }

  lemma {:induction false} RunInv(s: State, steps: seq<Step>)
    requires Inv(s)
    ensures Inv(Run(s, steps))
    decreases |steps|
  {
    hide Inv, Next;
    if steps == [] {
    } else {
      NextInv(s, steps[0]);
      RunInv(Next(s, steps[0]), steps[1..]);
    }
  }

  // ---- what every run guarantees ------------------------------------------------------------------

  lemma Reachable(steps: seq<Step>)
    ensures Inv(Run(EMPTY, steps))
  {
    forall r: RefId ensures IdOk(EMPTY, r) {}
    RunInv(EMPTY, steps);
  }

  /** The count is exactly the holders plus the index's own or not-yet-dropped reference; it is never negative. */
  lemma CountIsExact(steps: seq<Step>, r: RefId)
    requires r in Run(EMPTY, steps).count
    ensures var s := Run(EMPTY, steps); s.count[r] == Refs(s, r) >= 0
  {
    hide Run;
    Reachable(steps);
    assert IdOk(Run(EMPTY, steps), r);
  }

  /** While anyone holds a block its extent is allocated, overlaps no other, and still reads as the bytes that were put. */
  lemma HolderReadsItsBytes(steps: seq<Step>, t: nat)
    requires t in Run(EMPTY, steps).tasks && Run(EMPTY, steps).tasks[t].Holding?
    ensures var s := Run(EMPTY, steps); var r := s.tasks[t].r;
      && r in s.extents && BytesOk(s, r) && r in s.count && s.count[r] >= 1
      && forall j :: j in s.extents && j != r ==> Disjoint(s.extents[r], s.extents[j])
  {
    hide Run;
    Reachable(steps);
    HolderCounted(Run(EMPTY, steps), t);
  }

  /** Every give-back finds its extent still allocated: nothing is freed twice, after a last release, a lost race or a refusal by quota. */
  lemma NoDoubleFree(steps: seq<Step>, t: nat)
    requires t in Run(EMPTY, steps).tasks && (Run(EMPTY, steps).tasks[t].Freeing? || Run(EMPTY, steps).tasks[t].Losing?)
    ensures var s := Run(EMPTY, steps); s.tasks[t].r in s.extents
  {
    hide Run;
    Reachable(steps);
    FreeCounts(Run(EMPTY, steps), t);
  }

  /** Nothing leaks: an allocated extent is referenced, about to be freed, or still in the hands of its PUT. */
  lemma NoLeak(steps: seq<Step>, r: RefId)
    requires r in Run(EMPTY, steps).extents
    ensures var s := Run(EMPTY, steps);
      || (r in s.count && s.count[r] > 0)
      || exists t :: t in s.tasks && s.tasks[t].r == r && (s.tasks[t].Freeing? || s.tasks[t].Placing? || s.tasks[t].Losing?)
  {
    hide Run;
    var s := Run(EMPTY, steps);
    Reachable(steps);
    assert IdOk(s, r);
    if r in s.count {
      if s.count[r] == 0 { SumWitness(s.tasks, Frees(r)); }
    } else {
      SumWitness(s.tasks, Places(r));
    }
  }

  /** A count that reached zero stays zero: a lookup that lost the race never revives the block. */
  lemma DeadStep(s: State, step: Step, r: RefId)
    requires Inv(s) && r in s.count && s.count[r] == 0
    ensures var n := Next(s, step); r in n.count && n.count[r] == 0
  {
    hide TallyOf, Ids, Arena, Write, Disjoint;
    assert IdOk(s, r);
    if step.Publish? && step.t in s.tasks && s.tasks[step.t].Placing? {
      Counted(s, step.t);
    } else if step.Release? && step.t in s.tasks && (s.tasks[step.t].Holding? || s.tasks[step.t].Dropping?) {
      HolderCounted(s, step.t);
    } else if step.Cas? && step.t in s.tasks && s.tasks[step.t].Loaded? {
      LoadedPositive(s, step.t);
    } else {
    }
  }

  lemma LoadedPositive(s: State, t: nat)
    requires Ids(s) && t in s.tasks && s.tasks[t].Loaded?
    ensures s.tasks[t].v > 0
  {
  }

  lemma {:induction false} DeadStaysDead(s: State, steps: seq<Step>, r: RefId)
    requires Inv(s) && r in s.count && s.count[r] == 0
    ensures var n := Run(s, steps); r in n.count && n.count[r] == 0
    decreases |steps|
  {
    hide Inv, Next;
    if steps == [] {
    } else {
      DeadStep(s, steps[0], r);
      NextInv(s, steps[0]);
      DeadStaysDead(Next(s, steps[0]), steps[1..], r);
    }
  }

  /** So once a run has freed a block, no continuation ever holds it again. */
  lemma NeverReacquired(steps: seq<Step>, more: seq<Step>, r: RefId, t: nat)
    requires r in Run(EMPTY, steps).count && Run(EMPTY, steps).count[r] == 0
    requires t in Run(Run(EMPTY, steps), more).tasks
    ensures Run(Run(EMPTY, steps), more).tasks[t] != Holding(r)
  {
    hide Run;
    var s := Run(EMPTY, steps);
    Reachable(steps);
    DeadStaysDead(s, more, r);
    RunInv(s, more);
    if Run(s, more).tasks[t] == Holding(r) { HolderCounted(Run(s, more), t); }
  }

  // ---- one operation at a time ------------------------------------------------------------------------

  /** An indexed block is referenced. */
  lemma IndexedAlive(s: State, k: Key)
    requires Inv(s) && k in s.index
    ensures s.index[k] in s.count && s.count[s.index[k]] >= 1
  {
    hide Ids, Arena;
    var r := s.index[k];
    assert IdOk(s, r);
    SumPick(s.index, k, Points(r));
    SumBound(s.index - {k}, Points(r));
    SumBound(s.tasks, Holds(r));
  }

  lemma FreshIds(s: State)
    requires Inv(s)
    ensures s.nextTask !in s.tasks && s.nextRef !in s.extents
  {
  }

  lemma Acquired(s: State, k: Key)
    requires k in s.index && s.index[k] in s.count && s.count[s.index[k]] >= 1
    ensures var t, r := s.nextTask, s.index[k];
      Next(Next(Next(s, Lookup(k)), Load(t)), Cas(t))
      == s.(count := s.count[r := s.count[r] + 1], tasks := s.tasks[t := Holding(r)], nextTask := t + 1)
  {
    var t, r := s.nextTask, s.index[k];
    var a := Next(s, Lookup(k));
    var b := Next(a, Load(t));
    assert b == s.(tasks := s.tasks[t := Loaded(r, s.count[r])], nextTask := t + 1);
    assert b.tasks[t := Holding(r)] == s.tasks[t := Holding(r)];
  }

  /** GET with nobody in between: an indexed block is always acquired, and its count grows by one. */
  lemma AcquireAlone(steps: seq<Step>, k: Key)
    requires k in Run(EMPTY, steps).index
    ensures var s := Run(EMPTY, steps); var t, r := s.nextTask, s.index[k];
      && r in s.count
      && Next(Next(Next(s, Lookup(k)), Load(t)), Cas(t))
         == s.(count := s.count[r := s.count[r] + 1], tasks := s.tasks[t := Holding(r)], nextTask := t + 1)
  {
    hide Run, Next, Inv;
    Reachable(steps);
    IndexedAlive(Run(EMPTY, steps), k);
    Acquired(Run(EMPTY, steps), k);
  }

  lemma Taken(s: State, k: Key)
    requires k in s.index && s.nextTask !in s.tasks
    ensures Next(s, Remove(k)) == s.(index := s.index - {k}, tasks := s.tasks[s.nextTask := Dropping(s.index[k])], nextTask := s.nextTask + 1)
  {
  }

  /** One reference less; the last one takes the extent along. */
  lemma Released(s: State, t: nat)
    requires t in s.tasks && (s.tasks[t].Dropping? || s.tasks[t].Holding?) && s.tasks[t].r in s.count && s.count[s.tasks[t].r] >= 1
    ensures var r := s.tasks[t].r;
      Next(Next(s, Release(t)), Free(t))
      == s.(count := s.count[r := s.count[r] - 1], tasks := s.tasks - {t},
            extents := if s.count[r] == 1 then s.extents - {r} else s.extents)
  {
    var r := s.tasks[t].r;
    var a := Next(s, Release(t));
    if s.count[r] == 1 {
      assert a == s.(count := s.count[r := 0], tasks := s.tasks[t := Freeing(r)]);
      assert a.tasks - {t} == s.tasks - {t};
    } else {
      assert a == s.(count := s.count[r := s.count[r] - 1], tasks := s.tasks - {t});
    }
  }

  /** DELETE with nobody in between: the key is gone; the extent goes too exactly when nobody else holds the block. */
  lemma DeleteAlone(steps: seq<Step>, k: Key)
    requires k in Run(EMPTY, steps).index
    ensures var s := Run(EMPTY, steps); var t, r := s.nextTask, s.index[k];
      var n := Next(Next(Next(s, Remove(k)), Release(t)), Free(t));
      && n.index == s.index - {k} && n.tasks == s.tasks
      && r in s.count && n.count == s.count[r := s.count[r] - 1]
      && n.extents == if s.count[r] == 1 then s.extents - {r} else s.extents
  {
    hide Run, Next, Inv;
    Reachable(steps);
    var s := Run(EMPTY, steps);
    IndexedAlive(s, k);
    FreshIds(s);
    Taken(s, k);
    Released(Next(s, Remove(k)), s.nextTask);
    assert s.tasks[s.nextTask := Dropping(s.index[k])] - {s.nextTask} == s.tasks;
  }

  /** The last holder's release gives the extent back. */
  lemma LastReleaseFrees(steps: seq<Step>, t: nat)
    requires t in Run(EMPTY, steps).tasks && Run(EMPTY, steps).tasks[t].Holding?
    ensures var s := Run(EMPTY, steps); var r := s.tasks[t].r;
      var n := Next(Next(s, Release(t)), Free(t));
      r in s.count && r in s.extents && n.index == s.index && (r !in n.extents <==> s.count[r] == 1)
  {
    hide Run, Next;
    Reachable(steps);
    HolderCounted(Run(EMPTY, steps), t);
    hide Inv;
    Released(Run(EMPTY, steps), t);
  }

  lemma Allocated(s: State, k: Key, off: nat, bytes: seq<int>)
    requires forall r :: r in s.extents ==> Disjoint(s.extents[r], Extent(off, |bytes|))
    ensures var a := Next(s, Alloc(k, off, bytes));
      && a == s.(extents := s.extents[s.nextRef := Extent(off, |bytes|)], data := s.data[s.nextRef := bytes], mem := a.mem,
                 nextRef := s.nextRef + 1, tasks := s.tasks[s.nextTask := Placing(k, s.nextRef)], nextTask := s.nextTask + 1)
      && Reads(a.mem, Extent(off, |bytes|), bytes)
  {
    hide Reads, Write, Disjoint;
    WriteReads(s.mem, off, bytes);
  }

  lemma Settled(s: State, t: nat)
    requires t in s.tasks && s.tasks[t].Placing? && s.tasks[t].k !in s.index
    ensures var k, r := s.tasks[t].k, s.tasks[t].r;
      && Next(s, Publish(t)) == s.(index := s.index[k := r], count := s.count[r := 1], tasks := s.tasks - {t})
      && Next(Next(s, Refuse(t)), GiveBack(t)) == s.(extents := s.extents - {r}, tasks := s.tasks - {t})
  {
    var r := s.tasks[t].r;
    assert Next(s, Refuse(t)) == s.(tasks := s.tasks[t := Losing(r)]);
    assert s.tasks[t := Losing(r)] - {t} == s.tasks - {t};
  }

  /** PUT with nobody in between: into free space and under a free key it is published with its bytes; refused, it leaves nothing allocated. */
  lemma PutAlone(steps: seq<Step>, k: Key, off: nat, bytes: seq<int>)
    requires var s := Run(EMPTY, steps); k !in s.index && forall r :: r in s.extents ==> Disjoint(s.extents[r], Extent(off, |bytes|))
    ensures var s := Run(EMPTY, steps); var t, r, a := s.nextTask, s.nextRef, Next(s, Alloc(k, off, bytes));
      && Reads(a.mem, Extent(off, |bytes|), bytes)
      && Next(a, Publish(t)) == a.(index := s.index[k := r], count := s.count[r := 1], tasks := s.tasks)
      && a.extents == s.extents[r := Extent(off, |bytes|)]
      && Next(Next(a, Refuse(t)), GiveBack(t)) == a.(extents := s.extents, tasks := s.tasks) && a.index == s.index && a.count == s.count
  {
    hide Run, Next, Inv, Disjoint, Reads;
    Reachable(steps);
    var s := Run(EMPTY, steps);
    FreshIds(s);
    Allocated(s, k, off, bytes);
    var t, r, a := s.nextTask, s.nextRef, Next(s, Alloc(k, off, bytes));
    Settled(a, t);
    assert s.tasks[t := Placing(k, r)] - {t} == s.tasks;
    assert s.extents[r := Extent(off, |bytes|)] - {r} == s.extents;
  }
}
