/**
 * The racing machine and the policy agree: run without interference, the steps
 * of a call of S3FifoRaces do to the queues exactly what the call does in S3Fifo.
 */
module S3FifoAlone {
  import opened Sums
  import opened FifoQueue
  import opened S3Fifo
  import opened GhostRing
  import R = S3FifoRaces

  function KeyAt(s: R.State, e: R.Eid): Key { if e in s.keyOf then s.keyOf[e] else 0 }
  function FreqAt(s: R.State, e: R.Eid): nat { if R.Freq0(s, e) < 0 then 0 else R.Freq0(s, e) }

  function Shown(s: R.State, e: R.Eid): Ent { Ent(KeyAt(s, e), R.Size0(s, e), FreqAt(s, e)) }

  function Ents(s: R.State, q: seq<R.Eid>): seq<Ent> { seq(|q|, i requires 0 <= i < |q| => Shown(s, q[i])) }

  /** The machine shows these queues, and no scan is in the middle of a visit. */
  predicate Shows(s: R.State, q: Queues) {
    s.visiting.None? && q.small == Ents(s, s.small) && q.main == Ents(s, s.main) && s.mainHi == q.hi && s.mainCount == |s.main|
  }

  lemma EntsSnoc(s: R.State, q: seq<R.Eid>, e: R.Eid)
    ensures Ents(s, q + [e]) == Ents(s, q) + [Shown(s, e)]
  {
  }

  lemma EntsTail(s: R.State, q: seq<R.Eid>)
    requires q != []
    ensures Ents(s, q)[0] == Shown(s, q[0]) && Ents(s, q[1..]) == Ents(s, q)[1..]
  {
  }

  predicate SameLooks(s: R.State, n: R.State) { n.keyOf == s.keyOf && n.sizeOf == s.sizeOf && n.freqOf == s.freqOf && n.visiting.None? }

  lemma AllSame(s: R.State, n: R.State, q: seq<R.Eid>)
    requires SameLooks(s, n)
    ensures Ents(n, q) == Ents(s, q)
  {
  }

  /** A new count shows in that entry only. */
  lemma Recount(s: R.State, n: R.State, e: R.Eid, f: nat, q: seq<R.Eid>)
    requires n.keyOf == s.keyOf && n.sizeOf == s.sizeOf && n.freqOf == s.freqOf[e := f] && forall i :: 0 <= i < |q| ==> q[i] != e
    ensures Ents(n, q) == Ents(s, q) && Shown(n, e) == Shown(s, e).(freq := f)
  {
    forall i | 0 <= i < |q| ensures Shown(n, q[i]) == Shown(s, q[i]) {}
  }

  lemma RecountAt(s: R.State, n: R.State, e: R.Eid, f: nat, q: seq<R.Eid>, i: nat)
    requires n.keyOf == s.keyOf && n.sizeOf == s.sizeOf && n.freqOf == s.freqOf[e := f]
    requires i < |q| && q[i] == e && forall j :: 0 <= j < |q| && j != i ==> q[j] != e
    ensures Ents(n, q) == Ents(s, q)[i := Shown(s, e).(freq := f)]
  {
    forall j | 0 <= j < |q| ensures Shown(n, q[j]) == if j == i then Shown(s, e).(freq := f) else Shown(s, q[j]) {}
  }

  /** A new entry shows nowhere else. */
  lemma Appears(s: R.State, n: R.State, e: R.Eid, k: Key, size: nat, q: seq<R.Eid>)
    requires n.keyOf == s.keyOf[e := k] && n.sizeOf == s.sizeOf[e := size] && n.freqOf == s.freqOf[e := 0] && forall i :: 0 <= i < |q| ==> q[i] != e
    ensures Ents(n, q) == Ents(s, q) && Shown(n, e) == Ent(k, size, 0)
  {
    forall i | 0 <= i < |q| ensures Shown(n, q[i]) == Shown(s, q[i]) {}
  }

  lemma {:induction false} NotThere(q: seq<R.Eid>, e: R.Eid)
    requires Occurs(q, e) == 0
    ensures forall i :: 0 <= i < |q| ==> q[i] != e
    decreases |q|
  {
    if q != [] { NotThere(q[1..], e); }
  }

  lemma SmallStep(s: R.State)
    requires s.visiting.None? && s.small != []
    ensures var n, e := R.Next(s, R.VisitSmall), s.small[0];
      && SameLooks(s, n) && n.small == s.small[1..]
      && (R.Freq0(s, e) > 1 ==> n.main == s.main + [e] && n.mainCount == s.mainCount + 1
                                && n.mainHi == if s.mainCount + 1 > s.mainHi then s.mainCount + 1 else s.mainHi)
      && (R.Freq0(s, e) <= 1 ==> n.main == s.main && n.mainCount == s.mainCount && n.mainHi == s.mainHi)
  {
  }

  /** A visit of small. */
  lemma SmallVisitAgrees(p: Policy, s: R.State, q: Queues)
    requires Shows(s, q) && Shaped(p, q) && FromSmall(q) && q.small != []
    ensures Shows(R.Next(s, R.VisitSmall), Visit(p, q).0)
  {
    hide FromSmall, GrownTo, R.Next;
    var e, n := s.small[0], R.Next(s, R.VisitSmall);
    SmallStep(s);
    EntsTail(s, s.small);
    EntsSnoc(s, s.main, e);
    VisitIs(p, q);
    AllSame(s, n, n.small);
    AllSame(s, n, n.main);
    hide Visit, Ents;
  }

  lemma MainStep(s: R.State)
    requires s.visiting.None? && s.main != []
    ensures var n, e := R.Next(R.Next(s, R.VisitMain), R.SecondChance), s.main[0];
      && n.keyOf == s.keyOf && n.sizeOf == s.sizeOf && n.visiting.None? && n.small == s.small && n.mainHi == s.mainHi
      && (R.Freq0(s, e) > 0 ==> n.main == s.main[1..] + [e] && n.mainCount == s.mainCount && n.freqOf == s.freqOf[e := R.Freq0(s, e) - 1])
      && (R.Freq0(s, e) <= 0 ==> n.main == s.main[1..] && n.mainCount == s.mainCount - 1 && n.freqOf == s.freqOf)
  {
    hide R.Next;
    PopStep(s);
    BurnStep(R.Next(s, R.VisitMain));
  }

  lemma PopStep(s: R.State)
    requires s.visiting.None? && s.main != []
    ensures var n, e := R.Next(s, R.VisitMain), s.main[0];
      && n.keyOf == s.keyOf && n.sizeOf == s.sizeOf && n.freqOf == s.freqOf && n.small == s.small && n.main == s.main[1..] && n.mainHi == s.mainHi
      && n.visiting == (if R.Freq0(s, e) > 0 then Some(e) else None)
      && n.mainCount == s.mainCount - if R.Freq0(s, e) > 0 then 0 else 1
  {
    assert R.Next(s, R.VisitMain) == R.ScanMain(s);
    hide R.Next;
  }

  lemma BurnStep(s: R.State)
    ensures var n := R.Next(s, R.SecondChance);
      && n.keyOf == s.keyOf && n.sizeOf == s.sizeOf && n.visiting.None? && n.small == s.small && n.mainHi == s.mainHi && n.mainCount == s.mainCount
      && (s.visiting.None? ==> n.main == s.main && n.freqOf == s.freqOf)
      && (s.visiting.Some? ==> n.main == s.main + [s.visiting.value]
                               && n.freqOf == s.freqOf[s.visiting.value := R.Freq0(s, s.visiting.value) - 1])
  {
  }

  /** A visit of main, with the second chance that may follow. */
  lemma MainVisitAgrees(p: Policy, s: R.State, q: Queues)
    requires R.Linked(s) && Shows(s, q) && Shaped(p, q) && !FromSmall(q) && q.main != []
    ensures Shows(R.Next(R.Next(s, R.VisitMain), R.SecondChance), Visit(p, q).0)
  {
    HeadOnce(s);
    hide FromSmall, R.Next, R.Linked;
    var e, n := s.main[0], R.Next(R.Next(s, R.VisitMain), R.SecondChance);
    MainStep(s);
    EntsTail(s, s.main);
    VisitIs(p, q);
    hide Visit;
    if R.Freq0(s, e) > 0 {
      Recount(s, n, e, R.Freq0(s, e) - 1, s.main[1..]);
      Recount(s, n, e, R.Freq0(s, e) - 1, s.small);
      EntsSnoc(n, s.main[1..], e);
    } else {
      AllSame(s, n, n.main);
      AllSame(s, n, s.small);
    }
    hide Ents, Shown;
  }

  /** The head of main is nowhere else. */
  lemma HeadOnce(s: R.State)
    requires R.Linked(s) && s.main != []
    ensures forall i :: 0 <= i < |s.main[1..]| ==> s.main[1..][i] != s.main[0]
    ensures forall i :: 0 <= i < |s.small| ==> s.small[i] != s.main[0]
  {
    var e := s.main[0];
    R.At(s, e);
    NotThere(s.main[1..], e);
    NotThere(s.small, e);
  }

  lemma AdmitStep(s: R.State, k: Key, size: nat, hit: bool)
    requires s.visiting.None? && size > 0 && k !in s.table
    ensures var e, n := s.nextEid, R.Next(R.Next(s, R.AdmitPublish(k, size)), R.AdmitQueue(s.nextTask, hit));
      && n.keyOf == s.keyOf[e := k] && n.sizeOf == s.sizeOf[e := size] && n.freqOf == s.freqOf[e := 0] && n.visiting.None?
      && (hit ==> n.small == s.small && n.main == s.main + [e] && n.mainCount == s.mainCount + 1
                  && n.mainHi == if s.mainCount + 1 > s.mainHi then s.mainCount + 1 else s.mainHi)
      && (!hit ==> n.main == s.main && n.small == s.small + [e] && n.mainCount == s.mainCount && n.mainHi == s.mainHi)
  {
    hide R.ToMain;
    var a := R.Next(s, R.AdmitPublish(k, size));
    assert a.tasks[s.nextTask] == R.Publishing(s.nextEid) && a.whereOf[s.nextEid] == R.Unqueued && a.visiting.None?;
    QueueStep(a, s.nextTask, hit);
  }

  lemma QueueStep(s: R.State, t: nat, hit: bool)
    requires s.visiting.None? && t in s.tasks && s.tasks[t].Publishing? && R.Where0(s, s.tasks[t].e) != R.Dead
    ensures var e, n := s.tasks[t].e, R.Next(s, R.AdmitQueue(t, hit));
      && SameLooks(s, n)
      && (hit ==> n.small == s.small && n.main == s.main + [e] && n.mainCount == s.mainCount + 1
                  && n.mainHi == if s.mainCount + 1 > s.mainHi then s.mainCount + 1 else s.mainHi)
      && (!hit ==> n.main == s.main && n.small == s.small + [e] && n.mainCount == s.mainCount && n.mainHi == s.mainHi)
  {
  }

  lemma AdmittedNow(p: Policy, q: Queues, k: Key, size: nat)
    requires Shaped(p, q) && q.hi >= |q.main|
    ensures var r, hit := Admitted(p, q, k, size, 0), p.fp(k) in q.remembered;
      && r.small == (if hit then q.small else q.small + [Ent(k, size, 0)])
      && r.main == (if hit then q.main + [Ent(k, size, 0)] else q.main)
      && r.hi == if hit && |q.main| + 1 > q.hi then |q.main| + 1 else q.hi
  {
  }

  /** An Admit of a key the table does not hold, with no decay due: to main on a ghost hit, else to small. */
  lemma AdmitAgrees(p: Policy, s: R.State, q: Queues, k: Key, size: nat)
    requires R.Linked(s) && R.Tasks(s) && Shows(s, q) && Shaped(p, q) && q.hi >= |q.main| && size > 0 && k !in s.table
    ensures var hit := p.fp(k) in q.remembered;
      Shows(R.Next(R.Next(s, R.AdmitPublish(k, size)), R.AdmitQueue(s.nextTask, hit)), Admitted(p, q, k, size, 0))
  {
    NewIsNowhere(s);
    hide GrownTo, R.Next, R.Linked, R.Tasks;
    var e, hit := s.nextEid, p.fp(k) in q.remembered;
    AdmitStep(s, k, size, hit);
    AdmittedNow(p, q, k, size);
    hide Admitted;
    var n := R.Next(R.Next(s, R.AdmitPublish(k, size)), R.AdmitQueue(s.nextTask, hit));
    Appears(s, n, e, k, size, s.small);
    Appears(s, n, e, k, size, s.main);
    EntsSnoc(n, s.small, e);
    EntsSnoc(n, s.main, e);
    hide Ents, Shown;
  }

  lemma NewIsNowhere(s: R.State)
    requires R.Linked(s) && R.Tasks(s)
    ensures s.nextEid !in s.whereOf && s.nextTask !in s.tasks
    ensures forall i :: 0 <= i < |s.small| ==> s.small[i] != s.nextEid
    ensures forall i :: 0 <= i < |s.main| ==> s.main[i] != s.nextEid
  {
    R.At(s, s.nextEid);
    NotThere(s.small, s.nextEid);
    NotThere(s.main, s.nextEid);
  }

  // ---- touch and remove ---------------------------------------------------------------------------------

  /** Entry e is the one of its key, and is in q at most once. */
  predicate OnlyOne(s: R.State, q: seq<R.Eid>, e: R.Eid) {
    (forall i :: 0 <= i < |q| && KeyAt(s, q[i]) == KeyAt(s, e) ==> q[i] == e) && Occurs(q, e) <= 1
  }

  lemma {:induction false} OccursOnce(q: seq<R.Eid>, e: R.Eid, i: nat)
    requires Occurs(q, e) <= 1 && i < |q| && q[i] == e
    ensures forall j :: 0 <= j < |q| && j != i ==> q[j] != e
    decreases |q|
  {
    assert forall j :: 0 < j < |q| ==> q[j] == q[1..][j - 1];
    if i == 0 {
      NotThere(q[1..], e);
    } else {
      OccursOnce(q[1..], e, i - 1);
      Somewhere(q[1..], e, i - 1);
    }
  }

  lemma FirstIs(s: R.State, q: seq<R.Eid>, e: R.Eid)
    requires OnlyOne(s, q, e)
    ensures var i := IndexOf(Ents(s, q), KeyAt(s, e));
      (i < |q| ==> q[i] == e && forall j :: 0 <= j < |q| && j != i ==> q[j] != e) && (i == |q| ==> forall j :: 0 <= j < |q| ==> q[j] != e)
  {
    var es := Ents(s, q);
    var i := IndexOf(es, KeyAt(s, e));
    if i < |q| {
      assert es[i] == Shown(s, q[i]);
      OccursOnce(q, e, i);
    } else {
      forall j | 0 <= j < |q| ensures q[j] != e { assert es[j].key != KeyAt(s, e); }
    }
  }

  /** One use more shows as one use more. */
  lemma Bumps(s: R.State, n: R.State, e: R.Eid, q: seq<R.Eid>)
    requires OnlyOne(s, q, e) && 0 <= R.Freq0(s, e) < 3
    requires n.keyOf == s.keyOf && n.sizeOf == s.sizeOf && n.freqOf == s.freqOf[e := R.Freq0(s, e) + 1]
    ensures Ents(n, q) == Bumped(Ents(s, q), KeyAt(s, e))
  {
    FirstIs(s, q, e);
    hide OnlyOne;
    var i := IndexOf(Ents(s, q), KeyAt(s, e));
    hide IndexOf;
    if i < |q| {
      RecountAt(s, n, e, R.Freq0(s, e) + 1, q, i);
    } else {
      Recount(s, n, e, R.Freq0(s, e) + 1, q);
    }
    hide Ents;
  }

  /** At the cap nothing is counted. */
  lemma BumpsNot(s: R.State, e: R.Eid, q: seq<R.Eid>)
    requires OnlyOne(s, q, e) && R.Freq0(s, e) >= 3
    ensures Bumped(Ents(s, q), KeyAt(s, e)) == Ents(s, q)
  {
    FirstIs(s, q, e);
  }

  lemma TouchStep(s: R.State, k: Key)
    requires k in s.table && s.nextTask !in s.tasks
    ensures var e, n := s.table[k], R.Next(R.Next(s, R.TouchLoad(k)), R.TouchCas(s.nextTask));
      && n.keyOf == s.keyOf && n.sizeOf == s.sizeOf && n.small == s.small && n.main == s.main && n.visiting == s.visiting
      && n.mainCount == s.mainCount && n.mainHi == s.mainHi
      && n.freqOf == if R.Freq0(s, e) < 3 then s.freqOf[e := R.Freq0(s, e) + 1] else s.freqOf
  {
    var a := R.Next(s, R.TouchLoad(k));
    if R.Freq0(s, s.table[k]) < 3 {
      assert a == s.(tasks := s.tasks[s.nextTask := R.Touching(s.table[k], R.Freq0(s, s.table[k]))], nextTask := s.nextTask + 1);
    } else {
      assert a == s;
    }
  }

  /** A Touch of a key whose entry the table names. */
  lemma TouchAgrees(s: R.State, q: Queues, k: Key)
    requires Shows(s, q) && k in s.table && s.nextTask !in s.tasks && KeyAt(s, s.table[k]) == k && R.Freq0(s, s.table[k]) >= 0
    requires OnlyOne(s, s.small, s.table[k]) && OnlyOne(s, s.main, s.table[k])
    ensures Shows(R.Next(R.Next(s, R.TouchLoad(k)), R.TouchCas(s.nextTask)), Touched(q, k))
  {
    hide R.Next, OnlyOne;
    TouchStep(s, k);
    var e, n := s.table[k], R.Next(R.Next(s, R.TouchLoad(k)), R.TouchCas(s.nextTask));
    if R.Freq0(s, e) < 3 {
      Bumps(s, n, e, s.small);
      Bumps(s, n, e, s.main);
    } else {
      BumpsNot(s, e, s.small);
      BumpsNot(s, e, s.main);
      AllSame(s, n, s.small);
      AllSame(s, n, s.main);
    }
    hide Ents, Bumped;
  }

  lemma {:induction false} UnlinkedAt(q: seq<R.Eid>, e: R.Eid, i: nat)
    requires i < |q| && q[i] == e && forall j :: 0 <= j < |q| && j != i ==> q[j] != e
    ensures R.Unlinked(q, e) == Without(q, i)
    decreases |q|
  {
    if i > 0 {
      UnlinkedAt(q[1..], e, i - 1);
      assert Without(q, i) == [q[0]] + Without(q[1..], i - 1);
    }
  }

  lemma EntsWithout(s: R.State, q: seq<R.Eid>, i: nat)
    requires i < |q|
    ensures Ents(s, Without(q, i)) == Without(Ents(s, q), i)
  {
  }

  /** Unlinking the key's entry is dropping the key. */
  lemma Drops(s: R.State, e: R.Eid, q: seq<R.Eid>)
    requires OnlyOne(s, q, e)
    ensures Occurs(q, e) == 1 ==> Ents(s, R.Unlinked(q, e)) == Dropped(Ents(s, q), KeyAt(s, e))
    ensures Occurs(q, e) == 0 ==> Ents(s, q) == Dropped(Ents(s, q), KeyAt(s, e))
  {
    FirstIs(s, q, e);
    var i := IndexOf(Ents(s, q), KeyAt(s, e));
    hide IndexOf, OnlyOne;
    if i < |q| {
      UnlinkedAt(q, e, i);
      Somewhere(q, e, i);
      EntsWithout(s, q, i);
      hide Ents, R.Unlinked, Without;
    } else {
      Nowhere(q, e);
      hide Ents;
    }
  }

  lemma {:induction false} Somewhere(q: seq<R.Eid>, e: R.Eid, i: nat)
    requires i < |q| && q[i] == e
    ensures Occurs(q, e) >= 1
    decreases |q|
  {
    if i > 0 { Somewhere(q[1..], e, i - 1); }
  }

  lemma {:induction false} Nowhere(q: seq<R.Eid>, e: R.Eid)
    requires forall j :: 0 <= j < |q| ==> q[j] != e
    ensures Occurs(q, e) == 0
    decreases |q|
  {
    if q != [] { Nowhere(q[1..], e); }
  }

  lemma RemoveStep(s: R.State, k: Key)
    requires k in s.table && s.visiting.None? && s.nextTask !in s.tasks
    ensures var e, w, n := s.table[k], R.Where0(s, s.table[k]), R.Next(R.Next(s, R.RemoveTable(k)), R.RemoveUnlink(s.nextTask));
      && SameLooks(s, n) && n.mainHi == s.mainHi && k !in n.table
      && n.small == (if w == R.Small then R.Unlinked(s.small, e) else s.small)
      && n.main == (if w == R.Main then R.Unlinked(s.main, e) else s.main)
      && n.mainCount == s.mainCount - if w == R.Main then 1 else 0
  {
    hide R.Next;
    TableStep(s, k);
    UnlinkStep(R.Next(s, R.RemoveTable(k)), s.nextTask);
  }

  lemma TableStep(s: R.State, k: Key)
    requires k in s.table
    ensures R.Next(s, R.RemoveTable(k))
         == s.(table := s.table - {k}, tasks := s.tasks[s.nextTask := R.Unlinking(s.table[k])], nextTask := s.nextTask + 1)
  {
  }

  lemma UnlinkStep(s: R.State, t: nat)
    requires s.visiting.None? && t in s.tasks && s.tasks[t].Unlinking?
    ensures var e := s.tasks[t].e; var w, n := R.Where0(s, e), R.Next(s, R.RemoveUnlink(t));
      && SameLooks(s, n) && n.mainHi == s.mainHi && n.table == s.table
      && n.small == (if w == R.Small then R.Unlinked(s.small, e) else s.small)
      && n.main == (if w == R.Main then R.Unlinked(s.main, e) else s.main)
      && n.mainCount == s.mainCount - if w == R.Main then 1 else 0
  {
    hide R.Unlinked;
    match R.Where0(s, s.tasks[t].e)
    case Small =>
    case Main =>
    case _ =>
  }

  /** A Remove of a key whose entry the table names. */
  lemma RemoveAgrees(s: R.State, q: Queues, k: Key)
    requires R.Linked(s) && Shows(s, q) && k in s.table && s.nextTask !in s.tasks && KeyAt(s, s.table[k]) == k
    requires OnlyOne(s, s.small, s.table[k]) && OnlyOne(s, s.main, s.table[k])
    ensures Shows(R.Next(R.Next(s, R.RemoveTable(k)), R.RemoveUnlink(s.nextTask)), Removed(q, k))
  {
    var e, n := s.table[k], R.Next(R.Next(s, R.RemoveTable(k)), R.RemoveUnlink(s.nextTask));
    R.At(s, e);
    hide R.Next, OnlyOne, R.Linked;
    RemoveStep(s, k);
    Drops(s, e, s.small);
    Drops(s, e, s.main);
    AllSame(s, n, n.small);
    AllSame(s, n, n.main);
    if R.Where0(s, e) == R.Main { R.UnlinkedOccurs(s.main, e, e, s.sizeOf); }
    hide Ents, Dropped, R.Unlinked;
  }

  /** A decay of the watermark. */
  lemma DecayAgrees(s: R.State)
    requires s.visiting.None? && s.mainHi >= s.mainCount >= 0
    ensures var n := R.Next(s, R.DecayHi); n == s.(mainHi := Decayed(s.mainHi, s.mainCount))
  {
  }
}
