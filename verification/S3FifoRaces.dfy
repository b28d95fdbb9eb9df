/**
 * The eviction policy under its real interleavings. Admit publishes in the table
 * and queues later; Remove takes the table entry and unlinks later; a scan gives
 * up its lock between visits; touches change a count at any moment. Whatever the
 * schedule, every entry is linked in exactly the queue its state names, and the
 * counters are exact.
 */
module S3FifoRaces {
  import opened Sums

  type Key = nat
  type Eid = nat

  datatype Where = Unqueued | Small | Main | Dead

  datatype Task =
    | Publishing(e: Eid)            // Admit: in the table, not queued yet
    | Unlinking(e: Eid)             // Remove: out of the table, not unlinked yet
    | Touching(e: Eid, f: int)      // Touch: read the count f < 3

  datatype State = State(
    keyOf: map<Eid, Key>,
    sizeOf: map<Eid, nat>,
    whereOf: map<Eid, Where>,
    freqOf: map<Eid, int>,
    table: map<Key, Eid>,
    small: seq<Eid>,
    main: seq<Eid>,
    visiting: Option<Eid>,          // popped from main by a scan that holds the lock
    smallBytes: int,
    mainBytes: int,
    mainCount: int,
    mainHi: int,
    tasks: map<nat, Task>,
    nextEid: Eid,
    nextTask: nat)

  const EMPTY := State(map[], map[], map[], map[], map[], [], [], None, 0, 0, 0, 0, map[], 0, 0)

  datatype Step =
    | AdmitPublish(k: Key, size: nat)
    | AdmitQueue(t: nat, ghostHit: bool)
    | RemoveTable(k: Key)
    | RemoveUnlink(t: nat)
    | VisitSmall
    | VisitMain
    | SecondChance
    | TouchLoad(k: Key)
    | TouchCas(t: nat)
    | DecayHi

  function Where0(s: State, e: Eid): Where { if e in s.whereOf then s.whereOf[e] else Dead }
  function Size0(s: State, e: Eid): nat { if e in s.sizeOf then s.sizeOf[e] else 0 }
  function Freq0(s: State, e: Eid): int { if e in s.freqOf then s.freqOf[e] else 0 }

  /** q without its first e. */
  function Unlinked(q: seq<Eid>, e: Eid): seq<Eid> {
    if q == [] then [] else if q[0] == e then q[1..] else [q[0]] + Unlinked(q[1..], e)
  }

  function Spawn(s: State, task: Task): State { s.(tasks := s.tasks[s.nextTask := task], nextTask := s.nextTask + 1) }
  function Done(s: State, t: nat): State { s.(tasks := s.tasks - {t}) }

  function Publish(s: State, k: Key, size: nat): State {
    if size == 0 || k in s.table then s
    else
      var e := s.nextEid;
      Spawn(s.(keyOf := s.keyOf[e := k], sizeOf := s.sizeOf[e := size], whereOf := s.whereOf[e := Unqueued],
               freqOf := s.freqOf[e := 0], table := s.table[k := e], nextEid := e + 1), Publishing(e))
  }

  function ToMain(s: State, e: Eid): State {
    s.(whereOf := s.whereOf[e := Main], main := s.main + [e], mainBytes := s.mainBytes + Size0(s, e),
       mainCount := s.mainCount + 1, mainHi := if s.mainCount + 1 > s.mainHi then s.mainCount + 1 else s.mainHi)
  }

  /** Admit's second half: an entry tombstoned meanwhile is never queued. */
  function Queue(s: State, e: Eid, ghostHit: bool): State {
    if Where0(s, e) == Dead then s
    else if ghostHit then ToMain(s, e)
    else s.(whereOf := s.whereOf[e := Small], small := s.small + [e], smallBytes := s.smallBytes + Size0(s, e))
  }

  /** Remove's second half: unlink from wherever the entry is, or leave a tombstone. */
  function Unlink(s: State, e: Eid): State {
    match Where0(s, e)
    case Small => s.(small := Unlinked(s.small, e), smallBytes := s.smallBytes - Size0(s, e), whereOf := s.whereOf[e := Dead])
    case Main => s.(main := Unlinked(s.main, e), mainBytes := s.mainBytes - Size0(s, e), mainCount := s.mainCount - 1,
                    whereOf := s.whereOf[e := Dead])
    case _ => s.(whereOf := s.whereOf[e := Dead])
  }

  /** The table entry goes by key, whatever entry it now names. */
  function Expel(s: State, e: Eid): State {
    s.(whereOf := s.whereOf[e := Dead], table := if e in s.keyOf then s.table - {s.keyOf[e]} else s.table)
  }

  function ScanSmall(s: State): State
    requires s.small != []
  {
    var e := s.small[0];
    var r := s.(small := s.small[1..], smallBytes := s.smallBytes - Size0(s, e));
    if Freq0(s, e) > 1 then ToMain(r, e) else Expel(r, e)
  }

  function ScanMain(s: State): State
    requires s.main != []
  {
    var e := s.main[0];
    if Freq0(s, e) > 0 then s.(main := s.main[1..], visiting := Some(e))
    else Expel(s.(main := s.main[1..], mainBytes := s.mainBytes - Size0(s, e), mainCount := s.mainCount - 1), e)
  }

  /** The popped entry pays one point and goes to the tail; touches may have raised its count since it was read. */
  function Burn(s: State): State
    requires s.visiting.Some?
  {
    var e := s.visiting.value;
    s.(freqOf := s.freqOf[e := Freq0(s, e) - 1], main := s.main + [e], visiting := None)
  }

  function Next(s: State, step: Step): State {
    var free := s.visiting.None?;
    match step
    case AdmitPublish(k, size) => Publish(s, k, size)
    case AdmitQueue(t, hit) => if free && t in s.tasks && s.tasks[t].Publishing? then Done(Queue(s, s.tasks[t].e, hit), t) else s
    case RemoveTable(k) => if k in s.table then Spawn(s.(table := s.table - {k}), Unlinking(s.table[k])) else s
    case RemoveUnlink(t) => if free && t in s.tasks && s.tasks[t].Unlinking? then Done(Unlink(s, s.tasks[t].e), t) else s
    case VisitSmall => if free && s.small != [] then ScanSmall(s) else s
    case VisitMain => if free && s.main != [] then ScanMain(s) else s
    case SecondChance => if free then s else Burn(s)
    case TouchLoad(k) =>
      if k in s.table && Freq0(s, s.table[k]) < 3 then Spawn(s, Touching(s.table[k], Freq0(s, s.table[k]))) else s
    case TouchCas(t) =>
      if t in s.tasks && s.tasks[t].Touching? then
        Done(s.(freqOf := if Freq0(s, s.tasks[t].e) == s.tasks[t].f then s.freqOf[s.tasks[t].e := s.tasks[t].f + 1] else s.freqOf), t)
      else s
    case DecayHi => if free && s.mainHi > s.mainCount then s.(mainHi := s.mainHi - (s.mainHi - s.mainCount) / 2) else s
  }

  function Run(s: State, steps: seq<Step>): State
    decreases |steps|
  {
    if steps == [] then s else Run(Next(s, steps[0]), steps[1..])
  }

  // ---- measures -----------------------------------------------------------------------------------

  function Weight(q: seq<Eid>, size: map<Eid, nat>): nat {
    if q == [] then 0 else (if q[0] in size then size[q[0]] else 0) + Weight(q[1..], size)
  }

  lemma {:induction false} QueueSnoc(q: seq<Eid>, x: Eid, e: Eid, size: map<Eid, nat>)
    ensures Occurs(q + [x], e) == Occurs(q, e) + if x == e then 1 else 0
    ensures Weight(q + [x], size) == Weight(q, size) + if x in size then size[x] else 0
    decreases |q|
  {
    if q == [] {
      assert q + [x] == [x];
    } else {
      assert (q + [x])[1..] == q[1..] + [x];
      QueueSnoc(q[1..], x, e, size);
    }
  }

  lemma {:induction false} UnlinkedOccurs(q: seq<Eid>, x: Eid, e: Eid, size: map<Eid, nat>)
    requires Occurs(q, x) > 0
    ensures Occurs(Unlinked(q, x), e) == Occurs(q, e) - if x == e then 1 else 0
    ensures Weight(Unlinked(q, x), size) == Weight(q, size) - if x in size then size[x] else 0
    ensures |Unlinked(q, x)| == |q| - 1
    decreases |q|
  {
    if q[0] != x {
      UnlinkedOccurs(q[1..], x, e, size);
      assert Unlinked(q, x)[1..] == Unlinked(q[1..], x);
    }
  }

  lemma {:induction false} WeightFrame(q: seq<Eid>, size: map<Eid, nat>, e: Eid, n: nat)
    requires Occurs(q, e) == 0
    ensures Weight(q, size[e := n]) == Weight(q, size)
    decreases |q|
  {
    if q != [] { WeightFrame(q[1..], size, e, n); }
  }

  // ---- invariant ----------------------------------------------------------------------------------

  /** The entry is linked exactly where its state says: once, or nowhere. */
  predicate PlaceOk(small: seq<Eid>, main: seq<Eid>, v: Option<Eid>, w: Where, e: Eid) {
    && Occurs(small, e) == (if w == Small then 1 else 0)
    && Occurs(main, e) + InHand(v, e) == (if w == Main then 1 else 0)
  }

  ghost predicate Linked(s: State) { forall e: Eid :: PlaceOk(s.small, s.main, s.visiting, Where0(s, e), e) }

  predicate Counters(s: State) {
    && s.smallBytes == Weight(s.small, s.sizeOf)
    && s.mainBytes == Weight(s.main, s.sizeOf) + (if s.visiting.Some? then Size0(s, s.visiting.value) else 0)
    && s.mainCount == |s.main| + (if s.visiting.Some? then 1 else 0)
    && s.mainHi >= s.mainCount
  }

  ghost predicate InRange(freqOf: map<Eid, int>) { forall e :: e in freqOf ==> 0 <= freqOf[e] <= 3 }
  ghost predicate TouchesOk(tasks: map<nat, Task>) { forall t :: t in tasks && tasks[t].Touching? ==> 0 <= tasks[t].f < 3 }

  ghost predicate Freqs(s: State) {
    && InRange(s.freqOf) && TouchesOk(s.tasks)
    && (s.visiting.Some? ==> Freq0(s, s.visiting.value) >= 1)
  }

  ghost predicate TaskIds(tasks: map<nat, Task>, nextTask: nat, nextEid: Eid) {
    forall t :: t in tasks ==> t < nextTask && tasks[t].e < nextEid
  }
  ghost predicate AdmitsUnqueued(tasks: map<nat, Task>, whereOf: map<Eid, Where>) {
    forall t :: t in tasks && tasks[t].Publishing? && tasks[t].e in whereOf ==> whereOf[tasks[t].e] in {Unqueued, Dead}
  }
  ghost predicate AdmitsDistinct(tasks: map<nat, Task>) {
    forall t, u :: t in tasks && u in tasks && tasks[t].Publishing? && tasks[u].Publishing? && t != u ==> tasks[t].e != tasks[u].e
  }
  ghost predicate KnownIds(whereOf: map<Eid, Where>, sizeOf: map<Eid, nat>, nextEid: Eid) {
    && (forall e :: e in whereOf ==> e < nextEid) && (forall e :: e in sizeOf ==> e < nextEid)
  }
  ghost predicate TableIds(table: map<Key, Eid>, nextEid: Eid) { forall k :: k in table ==> table[k] < nextEid }

  /** Admits in flight own distinct entries that are not queued; unknown ids are not used yet. */
  ghost predicate Tasks(s: State) {
    && TaskIds(s.tasks, s.nextTask, s.nextEid) && AdmitsUnqueued(s.tasks, s.whereOf) && AdmitsDistinct(s.tasks)
    && KnownIds(s.whereOf, s.sizeOf, s.nextEid) && TableIds(s.table, s.nextEid)
  }

  ghost predicate Inv(s: State) { Linked(s) && Counters(s) && Freqs(s) && Tasks(s) }

  // ---- placement ----------------------------------------------------------------------------------

  lemma At(s: State, e: Eid)
    requires Linked(s)
    ensures PlaceOk(s.small, s.main, s.visiting, Where0(s, e), e)
  {
  }

  lemma PublishLinked(s: State, k: Key, size: nat)
    requires Linked(s) && Tasks(s)
    ensures Linked(Publish(s, k, size))
  {
    hide PlaceOk;
    var n := Publish(s, k, size);
    if size != 0 && k !in s.table {
      forall e: Eid ensures PlaceOk(n.small, n.main, n.visiting, Where0(n, e), e) {
        At(s, e);
        if e == s.nextEid { SameNowhere(s.small, s.main, s.visiting, e); }
      }
    } else {
    }
  }

  /** Dead and unqueued both mean linked nowhere. */
  lemma SameNowhere(small: seq<Eid>, main: seq<Eid>, v: Option<Eid>, e: Eid)
    ensures PlaceOk(small, main, v, Dead, e) <==> PlaceOk(small, main, v, Unqueued, e)
  {
  }

  lemma ToMainLinked(s: State, e: Eid)
    requires Linked(s) && Where0(s, e) in {Unqueued, Dead} && s.visiting.None?
    ensures Linked(ToMain(s, e))
  {
    var n := ToMain(s, e);
    forall x: Eid ensures PlaceOk(n.small, n.main, n.visiting, Where0(n, x), x) {
      At(s, x);
      QueueSnoc(s.main, e, x, s.sizeOf);
    }
  }

  lemma QueueLinked(s: State, e: Eid, hit: bool)
    requires Linked(s) && Where0(s, e) in {Unqueued, Dead} && s.visiting.None?
    ensures Linked(Queue(s, e, hit))
  {
    if Where0(s, e) == Dead {
    } else if hit {
      ToMainLinked(s, e);
    } else {
      var n := Queue(s, e, hit);
      forall x: Eid ensures PlaceOk(n.small, n.main, n.visiting, Where0(n, x), x) {
        At(s, x);
        QueueSnoc(s.small, e, x, s.sizeOf);
      }
    }
  }

  lemma UnlinkSmall(s: State, e: Eid)
    requires Linked(s) && Where0(s, e) == Small
    ensures Linked(s.(small := Unlinked(s.small, e), whereOf := s.whereOf[e := Dead]))
  {
    var n := s.(small := Unlinked(s.small, e), whereOf := s.whereOf[e := Dead]);
    At(s, e);
    forall x: Eid ensures PlaceOk(n.small, n.main, n.visiting, Where0(n, x), x) {
      At(s, x);
      UnlinkedOccurs(s.small, e, x, s.sizeOf);
    }
  }

  lemma UnlinkMain(s: State, e: Eid)
    requires Linked(s) && Where0(s, e) == Main && s.visiting.None?
    ensures Linked(s.(main := Unlinked(s.main, e), whereOf := s.whereOf[e := Dead]))
  {
    var n := s.(main := Unlinked(s.main, e), whereOf := s.whereOf[e := Dead]);
    At(s, e);
    forall x: Eid ensures PlaceOk(n.small, n.main, n.visiting, Where0(n, x), x) {
      At(s, x);
      UnlinkedOccurs(s.main, e, x, s.sizeOf);
    }
  }

  lemma Tombstone(s: State, e: Eid)
    requires Linked(s) && Where0(s, e) in {Unqueued, Dead}
    ensures Linked(s.(whereOf := s.whereOf[e := Dead]))
  {
    hide PlaceOk;
    var n := s.(whereOf := s.whereOf[e := Dead]);
    forall x: Eid ensures PlaceOk(n.small, n.main, n.visiting, Where0(n, x), x) {
      At(s, x);
      SameNowhere(s.small, s.main, s.visiting, x);
    }
  }

  lemma UnlinkLinked(s: State, e: Eid)
    requires Linked(s) && s.visiting.None?
    ensures Linked(Unlink(s, e))
  {
    hide Linked;
    match Where0(s, e)
    case Small =>
      UnlinkSmall(s, e);
      SameLinked(s.(small := Unlinked(s.small, e), whereOf := s.whereOf[e := Dead]), Unlink(s, e));
    case Main =>
      UnlinkMain(s, e);
      SameLinked(s.(main := Unlinked(s.main, e), whereOf := s.whereOf[e := Dead]), Unlink(s, e));
    case _ => Tombstone(s, e);
  }

  /** Taking the head of small leaves it linked nowhere. */
  lemma PopSmall(s: State)
    requires Linked(s) && s.small != []
    ensures Linked(s.(small := s.small[1..], whereOf := s.whereOf[s.small[0] := Dead]))
  {
    var e := s.small[0];
    var n := s.(small := s.small[1..], whereOf := s.whereOf[e := Dead]);
    At(s, e);
    forall x: Eid ensures PlaceOk(n.small, n.main, n.visiting, Where0(n, x), x) { At(s, x); }
  }

  lemma PopMain(s: State)
    requires Linked(s) && s.main != [] && s.visiting.None?
    ensures Linked(s.(main := s.main[1..], whereOf := s.whereOf[s.main[0] := Dead]))
    ensures Linked(s.(main := s.main[1..], visiting := Some(s.main[0])))
  {
    var e := s.main[0];
    var n := s.(main := s.main[1..], whereOf := s.whereOf[e := Dead]);
    var v := s.(main := s.main[1..], visiting := Some(e));
    At(s, e);
    forall x: Eid ensures PlaceOk(n.small, n.main, n.visiting, Where0(n, x), x) && PlaceOk(v.small, v.main, v.visiting, Where0(v, x), x) {
      At(s, x);
    }
  }

  lemma BurnLinked(s: State)
    requires Linked(s) && s.visiting.Some?
    ensures Linked(Burn(s))
  {
    var n := Burn(s);
    forall x: Eid ensures PlaceOk(n.small, n.main, n.visiting, Where0(n, x), x) {
      At(s, x);
      QueueSnoc(s.main, s.visiting.value, x, s.sizeOf);
    }
  }

  /** Nothing that placement looks at changed. */
  lemma SameLinked(s: State, n: State)
    requires Linked(s) && n.small == s.small && n.main == s.main && n.visiting == s.visiting && n.whereOf == s.whereOf
    ensures Linked(n)
  {
    hide PlaceOk;
    forall e: Eid ensures PlaceOk(n.small, n.main, n.visiting, Where0(n, e), e) { At(s, e); }
  }

  lemma ScanSmallLinked(s: State)
    requires Linked(s) && s.small != [] && s.visiting.None?
    ensures Linked(ScanSmall(s))
  {
    var e := s.small[0];
    var r := s.(small := s.small[1..], smallBytes := s.smallBytes - Size0(s, e));
    var d := s.(small := s.small[1..], whereOf := s.whereOf[e := Dead]);
    PopSmall(s);
    hide Linked;
    if Freq0(s, e) > 1 {
      ToMainLinked(d, e);
      assert d.whereOf[e := Main] == s.whereOf[e := Main];
      SameLinked(ToMain(d, e), ScanSmall(s));
    } else {
      SameLinked(d, ScanSmall(s));
    }
  }

  lemma ScanMainLinked(s: State)
    requires Linked(s) && s.main != [] && s.visiting.None?
    ensures Linked(ScanMain(s))
  {
    var e := s.main[0];
    PopMain(s);
    hide Linked;
    if Freq0(s, e) > 0 {
    } else {
      SameLinked(s.(main := s.main[1..], whereOf := s.whereOf[e := Dead]), ScanMain(s));
    }
  }

  lemma QuietLinked(s: State, step: Step)
    requires Linked(s) && (step.RemoveTable? || step.TouchLoad? || step.TouchCas? || step.DecayHi?)
    ensures Linked(Next(s, step))
  {
    hide Linked, Publish, Queue, Unlink, ScanSmall, ScanMain, Burn;
    if step.RemoveTable? {
      SameLinked(s, Next(s, step));
    } else if step.TouchLoad? {
      SameLinked(s, Next(s, step));
    } else if step.TouchCas? {
      SameLinked(s, Next(s, step));
    } else {
      SameLinked(s, Next(s, step));
    }
  }

  lemma NextLinked(s: State, step: Step)
    requires Linked(s) && Tasks(s)
    ensures Linked(Next(s, step))
  {
    hide Linked, Publish, Queue, Unlink, ScanSmall, ScanMain, Burn;
    match step
    case AdmitPublish(k, size) => PublishLinked(s, k, size);
    case AdmitQueue(t, hit) =>
      if s.visiting.None? && t in s.tasks && s.tasks[t].Publishing? {
        QueueLinked(s, s.tasks[t].e, hit);
        SameLinked(Queue(s, s.tasks[t].e, hit), Next(s, step));
      }
    case RemoveTable(k) => QuietLinked(s, step);
    case RemoveUnlink(t) =>
      if s.visiting.None? && t in s.tasks && s.tasks[t].Unlinking? {
        UnlinkLinked(s, s.tasks[t].e);
        SameLinked(Unlink(s, s.tasks[t].e), Next(s, step));
      }
    case VisitSmall => if s.visiting.None? && s.small != [] { ScanSmallLinked(s); }
    case VisitMain => if s.visiting.None? && s.main != [] { ScanMainLinked(s); }
    case SecondChance => if s.visiting.Some? { BurnLinked(s); }
    case TouchLoad(k) => QuietLinked(s, step);
    case TouchCas(t) => QuietLinked(s, step);
    case DecayHi => QuietLinked(s, step);
  }

  // ---- counters -----------------------------------------------------------------------------------

  lemma PublishCounters(s: State, k: Key, size: nat)
    requires Linked(s) && Counters(s) && Tasks(s)
    ensures Counters(Publish(s, k, size))
  {
    At(s, s.nextEid);
    WeightFrame(s.small, s.sizeOf, s.nextEid, size);
    WeightFrame(s.main, s.sizeOf, s.nextEid, size);
  }

  lemma QueueCounters(s: State, e: Eid, hit: bool)
    requires Counters(s) && s.visiting.None?
    ensures Counters(Queue(s, e, hit))
  {
    QueueSnoc(s.main, e, e, s.sizeOf);
    QueueSnoc(s.small, e, e, s.sizeOf);
  }

  lemma UnlinkCounters(s: State, e: Eid)
    requires Linked(s) && Counters(s) && s.visiting.None?
    ensures Counters(Unlink(s, e))
  {
    At(s, e);
    if Where0(s, e) == Small {
      UnlinkedOccurs(s.small, e, e, s.sizeOf);
    } else if Where0(s, e) == Main {
      UnlinkedOccurs(s.main, e, e, s.sizeOf);
    } else {
    }
  }

  lemma ScanSmallCounters(s: State)
    requires Counters(s) && s.visiting.None? && s.small != []
    ensures Counters(ScanSmall(s))
  {
    QueueSnoc(s.main, s.small[0], s.small[0], s.sizeOf);
    if Freq0(s, s.small[0]) > 1 {} else {}
  }

  lemma ScanMainCounters(s: State)
    requires Counters(s) && s.visiting.None? && s.main != []
    ensures Counters(ScanMain(s))
  {
    if Freq0(s, s.main[0]) > 0 {} else {}
  }

  lemma BurnCounters(s: State)
    requires Counters(s) && s.visiting.Some?
    ensures Counters(Burn(s))
  {
    QueueSnoc(s.main, s.visiting.value, s.visiting.value, s.sizeOf);
  }

  lemma NextCounters(s: State, step: Step)
    requires Linked(s) && Counters(s) && Tasks(s)
    ensures Counters(Next(s, step))
  {
    hide Linked, Tasks, Publish, Queue, Unlink, ScanSmall, ScanMain, Burn;
    match step
    case AdmitPublish(k, size) => PublishCounters(s, k, size);
    case AdmitQueue(t, hit) => if s.visiting.None? && t in s.tasks && s.tasks[t].Publishing? { QueueCounters(s, s.tasks[t].e, hit); }
    case RemoveTable(k) =>
    case RemoveUnlink(t) => if s.visiting.None? && t in s.tasks && s.tasks[t].Unlinking? { UnlinkCounters(s, s.tasks[t].e); }
    case VisitSmall => if s.visiting.None? && s.small != [] { ScanSmallCounters(s); }
    case VisitMain => if s.visiting.None? && s.main != [] { ScanMainCounters(s); }
    case SecondChance => if s.visiting.Some? { BurnCounters(s); }
    case TouchLoad(k) =>
    case TouchCas(t) =>
    case DecayHi =>
  }

  // ---- touch counts -------------------------------------------------------------------------------

  lemma TaskTouches(s: State, t: nat, task: Task)
    requires TouchesOk(s.tasks) && (task.Touching? ==> 0 <= task.f < 3)
    ensures TouchesOk(s.tasks - {t}) && TouchesOk(s.tasks[t := task])
  {
  }

  /** Only a scan lowers a count, and only after reading it positive under the lock; a touch raises it by a CAS from below 3. */
  lemma CasFreqs(s: State, t: nat)
    requires Freqs(s) && t in s.tasks && s.tasks[t].Touching?
    ensures Freqs(Next(s, TouchCas(t)))
  {
  }

  predicate SameBesides(s: State, n: State) {
    n.freqOf == s.freqOf && n.visiting == s.visiting && n.tasks == s.tasks && n.sizeOf == s.sizeOf && n.nextEid == s.nextEid
    && n.nextTask == s.nextTask && n.table == s.table
  }

  lemma QueueFrame(s: State, e: Eid, hit: bool)
    ensures SameBesides(s, Queue(s, e, hit))
  {
  }

  lemma UnlinkFrame(s: State, e: Eid)
    ensures SameBesides(s, Unlink(s, e))
  {
    hide Unlinked;
    match Where0(s, e)
    case Small =>
    case Main =>
    case _ =>
  }

  lemma ScanFreqs(s: State)
    requires Freqs(s) && s.visiting.None?
    ensures s.small != [] ==> Freqs(ScanSmall(s))
    ensures s.main != [] ==> Freqs(ScanMain(s))
  {
  }

  lemma PublishFreqs(s: State, k: Key, size: nat)
    requires Linked(s) && Freqs(s) && Tasks(s)
    ensures Freqs(Publish(s, k, size))
  {
    hide TouchesOk, PlaceOk;
    TaskTouches(s, s.nextTask, Publishing(s.nextEid));
    if s.visiting.Some? { VisitedKnown(s); }
  }

  lemma VisitedKnown(s: State)
    requires Linked(s) && Tasks(s) && s.visiting.Some?
    ensures s.visiting.value < s.nextEid
  {
    At(s, s.visiting.value);
  }

  lemma NextFreqs(s: State, step: Step)
    requires Linked(s) && Freqs(s) && Tasks(s)
    ensures Freqs(Next(s, step))
  {
    hide Linked, Tasks, Publish, TouchesOk, Queue, Unlink, ScanSmall, ScanMain;
    match step
    case AdmitPublish(k, size) => PublishFreqs(s, k, size);
    case AdmitQueue(t, hit) =>
      if t in s.tasks {
        QueueFrame(s, s.tasks[t].e, hit);
        TaskTouches(s, t, Unlinking(0));
      }
    case RemoveTable(k) => if k in s.table { TaskTouches(s, s.nextTask, Unlinking(s.table[k])); }
    case RemoveUnlink(t) =>
      if t in s.tasks {
        UnlinkFrame(s, s.tasks[t].e);
        TaskTouches(s, t, Unlinking(0));
      }
    case VisitSmall => if s.visiting.None? { ScanFreqs(s); }
    case VisitMain => if s.visiting.None? { ScanFreqs(s); }
    case SecondChance =>
    case TouchLoad(k) => if k in s.table && Freq0(s, s.table[k]) < 3 { TaskTouches(s, s.nextTask, Touching(s.table[k], Freq0(s, s.table[k]))); }
    case TouchCas(t) => if t in s.tasks && s.tasks[t].Touching? { CasFreqs(s, t); }
    case DecayHi =>
  }

  // ---- tasks --------------------------------------------------------------------------------------

  /** A task ends, or one that is no Admit appears. */
  lemma TaskShape(s: State, t: nat, task: Task)
    requires Tasks(s) && !task.Publishing? && task.e < s.nextEid
    ensures TaskIds(s.tasks - {t}, s.nextTask, s.nextEid) && AdmitsUnqueued(s.tasks - {t}, s.whereOf) && AdmitsDistinct(s.tasks - {t})
    ensures TaskIds(s.tasks[s.nextTask := task], s.nextTask + 1, s.nextEid)
    ensures AdmitsUnqueued(s.tasks[s.nextTask := task], s.whereOf) && AdmitsDistinct(s.tasks[s.nextTask := task])
  {
  }

  /** An entry that no Admit owns changes state, or any entry dies. */
  lemma Moved(tasks: map<nat, Task>, whereOf: map<Eid, Where>, sizeOf: map<Eid, nat>, nextEid: Eid, e: Eid, w: Where)
    requires AdmitsUnqueued(tasks, whereOf) && KnownIds(whereOf, sizeOf, nextEid) && e < nextEid
    requires w == Dead || forall t :: t in tasks && tasks[t].Publishing? ==> tasks[t].e != e
    ensures AdmitsUnqueued(tasks, whereOf[e := w]) && KnownIds(whereOf[e := w], sizeOf, nextEid)
  {
  }

  lemma PublishTasks(s: State, k: Key, size: nat)
    requires Tasks(s)
    ensures Tasks(Publish(s, k, size))
  {
  }

  lemma QueueTasks(s: State, t: nat, hit: bool)
    requires Tasks(s) && t in s.tasks && s.tasks[t].Publishing?
    ensures Tasks(Done(Queue(s, s.tasks[t].e, hit), t))
  {
  }

  lemma UnlinkTasks(s: State, t: nat)
    requires Tasks(s) && t in s.tasks && s.tasks[t].Unlinking?
    ensures Tasks(Done(Unlink(s, s.tasks[t].e), t))
  {
    var e := s.tasks[t].e;
    assert e < s.nextEid;
    TaskShape(s, t, Unlinking(e));
    UnlinkFrame(s, e);
    Moved(s.tasks - {t}, s.whereOf, s.sizeOf, s.nextEid, e, Dead);
    hide TaskIds, AdmitsUnqueued, AdmitsDistinct, KnownIds, TableIds;
    match Where0(s, e)
    case Small =>
    case Main =>
    case _ =>
  }

  /** A queued entry is known, and no Admit owns it. */
  lemma QueuedKnown(s: State, e: Eid)
    requires Linked(s) && Tasks(s) && (Occurs(s.small, e) > 0 || Occurs(s.main, e) > 0)
    ensures e < s.nextEid && forall t :: t in s.tasks && s.tasks[t].Publishing? ==> s.tasks[t].e != e
  {
    At(s, e);
  }

  lemma ExpelTasks(s: State, e: Eid)
    requires Tasks(s) && e < s.nextEid
    ensures Tasks(Expel(s, e))
  {
    Moved(s.tasks, s.whereOf, s.sizeOf, s.nextEid, e, Dead);
    hide TaskIds, AdmitsUnqueued, AdmitsDistinct, KnownIds;
  }

  lemma ScanSmallTasks(s: State)
    requires Linked(s) && Tasks(s) && s.small != []
    ensures Tasks(ScanSmall(s))
  {
    var e := s.small[0];
    QueuedKnown(s, e);
    Moved(s.tasks, s.whereOf, s.sizeOf, s.nextEid, e, Main);
    hide TaskIds, AdmitsUnqueued, AdmitsDistinct, KnownIds, TableIds;
    var r := s.(small := s.small[1..], smallBytes := s.smallBytes - Size0(s, e));
    ExpelTasks(r, e);
    if Freq0(s, e) > 1 {} else {}
  }

  lemma ScanMainTasks(s: State)
    requires Linked(s) && Tasks(s) && s.main != []
    ensures Tasks(ScanMain(s))
  {
    var e := s.main[0];
    QueuedKnown(s, e);
    hide TaskIds, AdmitsUnqueued, AdmitsDistinct, KnownIds, TableIds;
    ExpelTasks(s.(main := s.main[1..], mainBytes := s.mainBytes - Size0(s, e), mainCount := s.mainCount - 1), e);
    if Freq0(s, e) > 0 {} else {}
  }

  lemma NextTasks(s: State, step: Step)
    requires Linked(s) && Tasks(s)
    ensures Tasks(Next(s, step))
  {
    hide Linked, TaskIds, AdmitsUnqueued, AdmitsDistinct, KnownIds, Publish, Queue, Unlink, ScanSmall, ScanMain;
    match step
    case AdmitPublish(k, size) => PublishTasks(s, k, size);
    case AdmitQueue(t, hit) => if t in s.tasks && s.tasks[t].Publishing? { QueueTasks(s, t, hit); }
    case RemoveTable(k) => if k in s.table { TaskShape(s, 0, Unlinking(s.table[k])); }
    case RemoveUnlink(t) => if t in s.tasks && s.tasks[t].Unlinking? { UnlinkTasks(s, t); }
    case VisitSmall => if s.small != [] { ScanSmallTasks(s); }
    case VisitMain => if s.main != [] { ScanMainTasks(s); }
    case SecondChance =>
    case TouchLoad(k) => if k in s.table { TaskShape(s, 0, Touching(s.table[k], Freq0(s, s.table[k]))); }
    case TouchCas(t) => if t in s.tasks { TaskEnds(s, t); }
    case DecayHi =>
  }

  lemma TaskEnds(s: State, t: nat)
    requires Tasks(s) && t in s.tasks
    ensures TaskIds(s.tasks - {t}, s.nextTask, s.nextEid) && AdmitsUnqueued(s.tasks - {t}, s.whereOf) && AdmitsDistinct(s.tasks - {t})
  {
  }

  // ---- every run ------------------------------------------------------------------------------------

  lemma NextInv(s: State, step: Step)
    requires Inv(s)
    ensures Inv(Next(s, step))
  {
    hide Next, Linked, Counters, Freqs, Tasks;
    NextLinked(s, step);
    NextCounters(s, step);
    NextFreqs(s, step);
    NextTasks(s, step);
  }

  lemma {:induction false} RunInv(s: State, steps: seq<Step>)
    requires Inv(s)
    ensures Inv(Run(s, steps))
    decreases |steps|
  {
    hide Inv, Next;
    if steps == [] {
    } else {
      NextInv(s, steps[0]);
      RunInv(Next(s, steps[0]), steps[1..]);
    }
  }

  lemma InitInv()
    ensures Inv(EMPTY)
  {
    forall x: Eid ensures PlaceOk([], [], None, Where0(EMPTY, x), x) {}
  }

  /**
   * However Admit, Remove, Touch and scans interleave: every entry is linked once
   * in the queue its state names and nowhere else, the byte and entry counters
   * are exact, touch counts stay within 0 to 3, and the watermark never falls
   * below the main queue's count.
   */
  lemma QueuesStayExact(steps: seq<Step>, e: Eid)
    ensures var s := Run(EMPTY, steps);
      && PlaceOk(s.small, s.main, s.visiting, Where0(s, e), e) && 0 <= Freq0(s, e) <= 3
      && Counters(s)
  {
    InitInv();
    RunInv(EMPTY, steps);
    At(Run(EMPTY, steps), e);
  }
}
