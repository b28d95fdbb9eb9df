/**
 * One tenant's S3-FIFO domain: a small probationary queue, a main queue and a
 * ghost ring. The functions say what each call does to the queues; the class
 * below them does it in place, each call uncontended.
 */
module S3Fifo {
  import opened GhostRing
  import opened FifoQueue
  import opened Sums

  type Key = nat

  datatype Queues = Queues(small: seq<Ent>, main: seq<Ent>, hi: nat, lastDecay: int, remembered: seq<nat>, capacity: nat)

  datatype Policy = Policy(fp: Key -> nat, ghostMax: nat)

  const DECAY_EPOCH := 60_000_000_000

  // ---- measures -----------------------------------------------------------------------------------

  function Bytes(q: seq<Ent>): nat { if q == [] then 0 else q[0].size + Bytes(q[1..]) }

  lemma {:induction false} BytesConcat(a: seq<Ent>, b: seq<Ent>)
    ensures Bytes(a + b) == Bytes(a) + Bytes(b)
    decreases |a|
  {
    if a == [] {
      assert a + b == b;
    } else {
      assert (a + b)[1..] == a[1..] + b;
      BytesConcat(a[1..], b);
    }
  }

  lemma BytesSnoc(q: seq<Ent>, e: Ent)
    ensures Bytes(q + [e]) == Bytes(q) + e.size
  {
    BytesConcat(q, [e]);
    assert Bytes([e]) == e.size + Bytes([e][1..]);
  }

  lemma BytesHead(q: seq<Ent>)
    requires q != []
    ensures Bytes(q) == q[0].size + Bytes(q[1..])
  {
  }

  /** How many more visits an entry can cost: in small, a proven entry also pays for its time in main. */
  function SmallCost(q: seq<Ent>): nat {
    if q == [] then 0 else (if q[0].freq > 1 then q[0].freq + 2 else 1) + SmallCost(q[1..])
  }
  function MainCost(q: seq<Ent>): nat { if q == [] then 0 else q[0].freq + 1 + MainCost(q[1..]) }

  function Potential(q: Queues): nat { SmallCost(q.small) + MainCost(q.main) }

  lemma {:induction false} MainCostSnoc(q: seq<Ent>, e: Ent)
    ensures MainCost(q + [e]) == MainCost(q) + e.freq + 1
    decreases |q|
  {
    if q == [] {
      assert q + [e] == [e];
    } else {
      assert (q + [e])[1..] == q[1..] + [e];
      MainCostSnoc(q[1..], e);
    }
  }

  predicate Calm(q: seq<Ent>) { forall i :: 0 <= i < |q| ==> q[i].freq <= 3 && q[i].size > 0 }

  /** At most five visits per entry. */
  lemma {:induction false} CostBound(q: seq<Ent>)
    requires Calm(q)
    ensures SmallCost(q) <= 5 * |q| && MainCost(q) <= 4 * |q|
    decreases |q|
  {
    if q != [] { CostBound(q[1..]); }
  }

  // ---- what one visit does ----------------------------------------------------------------------------

  function Total(q: Queues): nat { Bytes(q.small) + Bytes(q.main) }

  /** Drain small while it exceeds a tenth of the bytes; an empty queue yields to the other. */
  predicate FromSmall(q: Queues) {
    if Bytes(q.small) > Total(q) / 10 then q.small != [] else q.main == []
  }

  function Promote(p: Policy, q: Queues, e: Ent): Queues
    requires q.capacity <= Ceiling(p.ghostMax)
  {
    var n := |q.main| + 1;
    q.(main := q.main + [e], hi := if n > q.hi then n else q.hi,
       capacity := if n > q.hi then GrownTo(q.capacity, n, p.ghostMax) else q.capacity)
  }

  function Remember(p: Policy, q: Queues, e: Ent): Queues
    requires |q.remembered| <= q.capacity
  {
    var c := if q.capacity == 0 then GHOST_FLOOR else q.capacity;
    q.(remembered := Pushed(q.remembered, c, p.fp(e.key)), capacity := c)
  }

  predicate Shaped(p: Policy, q: Queues) { |q.remembered| <= q.capacity <= Ceiling(p.ghostMax) }

  /** One visit: promote, give a second chance, or evict (from small, remembering the fingerprint). */
  function Visit(p: Policy, q: Queues): (Queues, seq<Ent>)
    requires (q.small != [] || q.main != []) && Shaped(p, q)
  {
    if FromSmall(q) then
      var e, r := q.small[0], q.(small := q.small[1..]);
      if e.freq > 1 then (Promote(p, r, e), []) else (Remember(p, r, e), [e])
    else
      var e, r := q.main[0], q.(main := q.main[1..]);
      if e.freq > 0 then (r.(main := r.main + [e.(freq := e.freq - 1)]), []) else (r, [e])
  }

  lemma VisitIs(p: Policy, q: Queues)
    requires (q.small != [] || q.main != []) && Shaped(p, q)
    ensures FromSmall(q) && q.small[0].freq > 1 ==> Visit(p, q) == (Promote(p, q.(small := q.small[1..]), q.small[0]), [])
    ensures FromSmall(q) && q.small[0].freq <= 1 ==> Visit(p, q) == (Remember(p, q.(small := q.small[1..]), q.small[0]), [q.small[0]])
    ensures !FromSmall(q) && q.main[0].freq > 0 ==>
              Visit(p, q) == (q.(main := q.main[1..] + [q.main[0].(freq := q.main[0].freq - 1)]), [])
    ensures !FromSmall(q) && q.main[0].freq == 0 ==> Visit(p, q) == (q.(main := q.main[1..]), [q.main[0]])
  {
  }

  lemma VisitCosts(p: Policy, q: Queues)
    requires (q.small != [] || q.main != []) && Shaped(p, q)
    ensures Potential(Visit(p, q).0) == Potential(q) - 1
    ensures Total(Visit(p, q).0) + Bytes(Visit(p, q).1) == Total(q)
    ensures Shaped(p, Visit(p, q).0)
  {
    if FromSmall(q) {
      var e := q.small[0];
      MainCostSnoc(q.main, e);
      BytesSnoc(q.main, e);
    } else {
      var e := q.main[0];
      MainCostSnoc(q.main[1..], e.(freq := if e.freq > 0 then e.freq - 1 else 0));
      BytesSnoc(q.main[1..], e.(freq := if e.freq > 0 then e.freq - 1 else 0));
    }
  }

  /** Visit until the candidates cover need or the domain is empty. */
  function Scan(p: Policy, q: Queues, need: int): (Queues, seq<Ent>)
    requires Shaped(p, q)
    decreases Potential(q)
  {
    if need <= 0 || (q.small == [] && q.main == []) then (q, [])
    else
      VisitCosts(p, q);
      var (r, c) := Visit(p, q);
      var rest := Scan(p, r, need - Bytes(c));
      (rest.0, c + rest.1)
  }

  // ---- what a pass guarantees ---------------------------------------------------------------------------

  lemma VisitEvictsOne(p: Policy, q: Queues)
    requires (q.small != [] || q.main != []) && Shaped(p, q)
    ensures |Visit(p, q).1| <= 1 && forall e :: e in Visit(p, q).1 ==> e.freq <= 1
  {
  }

  lemma ScanStep(p: Policy, q: Queues, need: int)
    requires need > 0 && (q.small != [] || q.main != []) && Shaped(p, q)
    ensures var (r, c) := Visit(p, q);
      && Shaped(p, r) && Bytes(c) == (if c == [] then 0 else c[0].size)
      && Scan(p, q, need) == (Scan(p, r, need - Bytes(c)).0, c + Scan(p, r, need - Bytes(c)).1)
  {
  }

  lemma ScanDone(p: Policy, q: Queues, need: int)
    requires Shaped(p, q) && (need <= 0 || (q.small == [] && q.main == []))
    ensures Scan(p, q, need) == (q, []) && forall out: seq<Ent> :: out + [] == out
  {
  }

  /** Bytes before are bytes after plus bytes returned. */
  lemma {:induction false} ScanConserves(p: Policy, q: Queues, need: int)
    requires Shaped(p, q)
    ensures Total(Scan(p, q, need).0) + Bytes(Scan(p, q, need).1) == Total(q)
    decreases Potential(q)
  {
    hide Visit, Scan;
    if need <= 0 || (q.small == [] && q.main == []) {
      ScanDone(p, q, need);
    } else {
      ScanStep(p, q, need);
      VisitCosts(p, q);
      var (r, c) := Visit(p, q);
      ScanConserves(p, r, need - Bytes(c));
      BytesConcat(c, Scan(p, r, need - Bytes(c)).1);
    }
  }

  /** The candidates cover the need, or nothing is left. */
  lemma {:induction false} ScanCovers(p: Policy, q: Queues, need: int)
    requires Shaped(p, q)
    ensures var (r, c) := Scan(p, q, need); Bytes(c) >= need || (r.small == [] && r.main == [])
    decreases Potential(q)
  {
    hide Visit, Scan;
    if need <= 0 || (q.small == [] && q.main == []) {
      ScanDone(p, q, need);
    } else {
      ScanStep(p, q, need);
      VisitCosts(p, q);
      var (r, c) := Visit(p, q);
      ScanCovers(p, r, need - Bytes(c));
      BytesConcat(c, Scan(p, r, need - Bytes(c)).1);
    }
  }

  lemma LastDropped(c: seq<Ent>, rest: seq<Ent>)
    requires |c| <= 1
    ensures rest != [] ==> Bytes((c + rest)[..|c + rest| - 1]) == Bytes(c) + Bytes(rest[..|rest| - 1])
    ensures rest == [] && c != [] ==> Bytes((c + rest)[..|c + rest| - 1]) == 0
  {
    if rest != [] {
      assert (c + rest)[..|c + rest| - 1] == c + rest[..|rest| - 1];
      BytesConcat(c, rest[..|rest| - 1]);
    }
  }

  /** No candidate is one too many: without the last one the need would not be covered. */
  lemma {:induction false} ScanIsMinimal(p: Policy, q: Queues, need: int)
    requires Shaped(p, q)
    ensures var c := Scan(p, q, need).1; c != [] ==> Bytes(c[..|c| - 1]) < need
    decreases Potential(q)
  {
    hide Visit, Scan;
    if need <= 0 || (q.small == [] && q.main == []) {
      ScanDone(p, q, need);
    } else {
      ScanStep(p, q, need);
      VisitCosts(p, q);
      VisitEvictsOne(p, q);
      var (r, c) := Visit(p, q);
      ScanIsMinimal(p, r, need - Bytes(c));
      LastDropped(c, Scan(p, r, need - Bytes(c)).1);
    }
  }

  /** How many entries of q are block k of the given size. */
  function Copies(q: seq<Ent>, k: Key, size: nat): nat {
    if q == [] then 0 else (if q[0].key == k && q[0].size == size then 1 else 0) + Copies(q[1..], k, size)
  }

  function Tracked(q: Queues, k: Key, size: nat): nat { Copies(q.small, k, size) + Copies(q.main, k, size) }

  lemma {:induction false} CopiesConcat(a: seq<Ent>, b: seq<Ent>, k: Key, size: nat)
    ensures Copies(a + b, k, size) == Copies(a, k, size) + Copies(b, k, size)
    decreases |a|
  {
    if a == [] {
      assert a + b == b;
    } else {
      assert (a + b)[1..] == a[1..] + b;
      CopiesConcat(a[1..], b, k, size);
    }
  }

  lemma VisitPartitions(p: Policy, q: Queues, k: Key, size: nat)
    requires (q.small != [] || q.main != []) && Shaped(p, q)
    ensures Tracked(Visit(p, q).0, k, size) + Copies(Visit(p, q).1, k, size) == Tracked(q, k, size)
  {
    if FromSmall(q) {
      CopiesConcat(q.main, [q.small[0]], k, size);
    } else {
      var e := q.main[0];
      CopiesConcat(q.main[1..], [e.(freq := if e.freq > 0 then e.freq - 1 else 0)], k, size);
    }
  }

  /** Every tracked block is still tracked or was returned, exactly once. */
  lemma {:induction false} ScanPartitions(p: Policy, q: Queues, need: int, k: Key, size: nat)
    requires Shaped(p, q)
    ensures Tracked(Scan(p, q, need).0, k, size) + Copies(Scan(p, q, need).1, k, size) == Tracked(q, k, size)
    decreases Potential(q)
  {
    hide Visit, Scan;
    if need <= 0 || (q.small == [] && q.main == []) {
      ScanDone(p, q, need);
    } else {
      ScanStep(p, q, need);
      VisitCosts(p, q);
      VisitPartitions(p, q, k, size);
      var (r, c) := Visit(p, q);
      ScanPartitions(p, r, need - Bytes(c), k, size);
      CopiesConcat(c, Scan(p, r, need - Bytes(c)).1, k, size);
    }
  }

  // ---- the other calls ----------------------------------------------------------------------------------

  function Decay(p: Policy, q: Queues, now: int): Queues
    requires Shaped(p, q) && q.hi >= |q.main|
  {
    if now == 0 then q
    else if q.lastDecay == 0 then q.(lastDecay := now)
    else if now - q.lastDecay < DECAY_EPOCH then q
    else
      var hi := Decayed(q.hi, |q.main|);
      var cap := ShrunkTo(q.capacity, hi, p.ghostMax);
      q.(lastDecay := now, hi := hi, capacity := cap, remembered := Newest(q.remembered, cap))
  }

  /** A ghost hit goes straight to main, anything else to small. */
  function Admitted(p: Policy, q: Queues, k: Key, size: nat, now: int): Queues
    requires Shaped(p, q) && q.hi >= |q.main|
  {
    var d := Decay(p, q, now);
    if p.fp(k) in d.remembered then Promote(p, d, Ent(k, size, 0)) else d.(small := d.small + [Ent(k, size, 0)])
  }

  function IndexOf(q: seq<Ent>, k: Key): (i: nat)
    ensures i <= |q| && (i < |q| ==> q[i].key == k) && forall j :: 0 <= j < i ==> q[j].key != k
  {
    if q == [] || q[0].key == k then 0 else 1 + IndexOf(q[1..], k)
  }

  function Dropped(q: seq<Ent>, k: Key): (r: seq<Ent>)
    ensures |r| <= |q|
  {
    var i := IndexOf(q, k);
    if i < |q| then Without(q, i) else q
  }

  function Bumped(q: seq<Ent>, k: Key): (r: seq<Ent>)
    ensures |r| == |q|
  {
    var i := IndexOf(q, k);
    if i < |q| && q[i].freq < 3 then q[i := q[i].(freq := q[i].freq + 1)] else q
  }

  function Removed(q: Queues, k: Key): Queues { q.(small := Dropped(q.small, k), main := Dropped(q.main, k)) }
  function Touched(q: Queues, k: Key): Queues { q.(small := Bumped(q.small, k), main := Bumped(q.main, k)) }

  // ---- the table ----------------------------------------------------------------------------------------

  /** How many entries of q carry key k. */
  function KeyCount(q: seq<Ent>, k: Key): nat { if q == [] then 0 else (if q[0].key == k then 1 else 0) + KeyCount(q[1..], k) }

  lemma {:induction false} KeyCountConcat(a: seq<Ent>, b: seq<Ent>, k: Key)
    ensures KeyCount(a + b, k) == KeyCount(a, k) + KeyCount(b, k)
    decreases |a|
  {
    if a == [] {
      assert a + b == b;
    } else {
      assert (a + b)[1..] == a[1..] + b;
      KeyCountConcat(a[1..], b, k);
    }
  }

  /** The table holds exactly the queued keys, and each is queued once. */
  ghost predicate TableOk(table: set<Key>, q: Queues) {
    forall k: Key :: KeyCount(q.small, k) + KeyCount(q.main, k) == if k in table then 1 else 0
  }

  ghost predicate Sound(p: Policy, q: Queues, table: set<Key>) {
    && Shaped(p, q) && Distinct(q.remembered) && q.hi >= |q.main|
    && Calm(q.small) && Calm(q.main) && TableOk(table, q)
  }

  /** The key of the one entry a visit may evict. */
  function Keys(c: seq<Ent>): set<Key> { if c == [] then {} else {c[0].key} }

  lemma VisitTable(p: Policy, q: Queues, table: set<Key>)
    requires (q.small != [] || q.main != []) && Shaped(p, q) && TableOk(table, q)
    ensures TableOk(table - Keys(Visit(p, q).1), Visit(p, q).0)
  {
    var (r, c) := Visit(p, q);
    var gone := Keys(c);
    forall k: Key ensures KeyCount(r.small, k) + KeyCount(r.main, k) == if k in table - gone then 1 else 0 {
      if FromSmall(q) {
        KeyCountConcat(q.main, [q.small[0]], k);
      } else {
        var e := q.main[0];
        KeyCountConcat(q.main[1..], [e.(freq := if e.freq > 0 then e.freq - 1 else 0)], k);
      }
    }
  }

  lemma VisitSound(p: Policy, q: Queues, table: set<Key>)
    requires (q.small != [] || q.main != []) && Sound(p, q, table)
    ensures Sound(p, Visit(p, q).0, table - Keys(Visit(p, q).1))
  {
    VisitTable(p, q, table);
    VisitCosts(p, q);
    hide TableOk;
    if FromSmall(q) {
      var e := q.small[0];
      if e.freq <= 1 {
        PushedDistinct(q.remembered, if q.capacity == 0 then GHOST_FLOOR else q.capacity, p.fp(e.key));
      }
    } else {
    }
  }

  lemma EmptySound(p: Policy)
    ensures Sound(p, Queues([], [], 0, 0, [], 0), {})
  {
  }

  lemma SoundGives(p: Policy, q: Queues, table: set<Key>)
    requires Sound(p, q, table)
    ensures Shaped(p, q) && q.hi >= |q.main|
  {
  }

  lemma DecaySound(p: Policy, q: Queues, table: set<Key>, now: int)
    requires Sound(p, q, table)
    ensures Sound(p, Decay(p, q, now), table)
  {
  }

  lemma AdmitSound(p: Policy, q: Queues, table: set<Key>, e: Ent, toMain: bool)
    requires Sound(p, q, table) && e.key !in table && e.size > 0 && e.freq == 0
    ensures Sound(p, if toMain then Promote(p, q, e) else q.(small := q.small + [e]), table + {e.key})
  {
    hide GrownTo;
    var r := if toMain then Promote(p, q, e) else q.(small := q.small + [e]);
    forall k: Key ensures KeyCount(r.small, k) + KeyCount(r.main, k) == if k in table + {e.key} then 1 else 0 {
      KeyCountConcat(q.small, [e], k);
      KeyCountConcat(q.main, [e], k);
    }
  }

  /** Dropping takes out one entry of the key, if there is one. */
  lemma DroppedCounts(q: seq<Ent>, k: Key, j: Key)
    ensures KeyCount(Dropped(q, k), j) == KeyCount(q, j) - (if j == k && IndexOf(q, k) < |q| then 1 else 0)
    ensures Bytes(q) == Bytes(Dropped(q, k)) + (if IndexOf(q, k) < |q| then q[IndexOf(q, k)].size else 0)
    ensures KeyCount(q, k) == 0 <==> IndexOf(q, k) == |q|
  {
    var i := IndexOf(q, k);
    Absent(q, k);
    if i < |q| {
      assert q == q[..i] + ([q[i]] + q[i + 1..]);
      KeyCountConcat(q[..i], [q[i]] + q[i + 1..], j);
      KeyCountConcat([q[i]], q[i + 1..], j);
      KeyCountConcat(q[..i], q[i + 1..], j);
      BytesConcat(q[..i], [q[i]] + q[i + 1..]);
      BytesConcat([q[i]], q[i + 1..]);
      BytesConcat(q[..i], q[i + 1..]);
    }
  }

  lemma {:induction false} Absent(q: seq<Ent>, k: Key)
    ensures KeyCount(q, k) == 0 <==> IndexOf(q, k) == |q|
    decreases |q|
  {
    if q != [] && q[0].key != k { Absent(q[1..], k); }
  }

  lemma RemoveSound(p: Policy, q: Queues, table: set<Key>, k: Key)
    requires Sound(p, q, table)
    ensures Sound(p, Removed(q, k), table - {k})
  {
    var r := Removed(q, k);
    forall j: Key ensures KeyCount(r.small, j) + KeyCount(r.main, j) == if j in table - {k} then 1 else 0 {
      DroppedCounts(q.small, k, j);
      DroppedCounts(q.main, k, j);
      assert KeyCount(q.small, k) + KeyCount(q.main, k) <= 1;
    }
  }

  lemma DroppedIs(q: seq<Ent>, k: Key)
    ensures var i := IndexOf(q, k);
      if i < |q| then Dropped(q, k) == Without(q, i) && Bytes(Dropped(q, k)) == Bytes(q) - q[i].size && |Dropped(q, k)| == |q| - 1
      else Dropped(q, k) == q
  {
    DroppedCounts(q, k, k);
  }

  lemma OneQueue(p: Policy, q: Queues, table: set<Key>, k: Key)
    requires Sound(p, q, table)
    ensures IndexOf(q.small, k) < |q.small| ==> IndexOf(q.main, k) == |q.main| && Dropped(q.main, k) == q.main
  {
    Absent(q.small, k);
    Absent(q.main, k);
    assert KeyCount(q.small, k) + KeyCount(q.main, k) <= 1;
  }

  lemma Untracked(p: Policy, q: Queues, table: set<Key>, k: Key)
    requires Sound(p, q, table) && k !in table
    ensures Removed(q, k) == q && Touched(q, k) == q
  {
    assert KeyCount(q.small, k) + KeyCount(q.main, k) == 0;
    Absent(q.small, k);
    Absent(q.main, k);
  }

  /** A touch changes no key, no size, and keeps the count within 3. */
  lemma {:induction false} BumpedCounts(q: seq<Ent>, k: Key, j: Key)
    ensures KeyCount(Bumped(q, k), j) == KeyCount(q, j) && Bytes(Bumped(q, k)) == Bytes(q)
    ensures Calm(q) ==> Calm(Bumped(q, k))
    decreases |q|
  {
    if q != [] && q[0].key != k {
      BumpedCounts(q[1..], k, j);
      assert Bumped(q, k) == [q[0]] + Bumped(q[1..], k);
    }
  }

  lemma TouchSound(p: Policy, q: Queues, table: set<Key>, k: Key)
    requires Sound(p, q, table)
    ensures Sound(p, Touched(q, k), table)
    ensures Bytes(Touched(q, k).small) == Bytes(q.small) && Bytes(Touched(q, k).main) == Bytes(q.main)
  {
    hide Bumped, Calm;
    var r := Touched(q, k);
    forall j: Key ensures KeyCount(r.small, j) + KeyCount(r.main, j) == if j in table then 1 else 0 {
      BumpedCounts(q.small, k, j);
      BumpedCounts(q.main, k, j);
    }
    BumpedCounts(q.small, k, k);
    BumpedCounts(q.main, k, k);
  }

  /** The table leads from each key to the one entry of that key linked in a or b, and from nowhere else. */
  ghost predicate Directs(table: map<Key, Entry>, a: seq<Entry>, b: seq<Entry>) {
    && (forall k :: k in table ==> table[k].key == k && (table[k] in a || table[k] in b))
    && (forall e :: e in a ==> e.key in table && table[e.key] == e && e !in b)
    && (forall e :: e in b ==> e.key in table && table[e.key] == e)
    && (forall i, j :: 0 <= i < j < |a| ==> a[i] != a[j]) && (forall i, j :: 0 <= i < j < |b| ==> b[i] != b[j])
  }

  lemma DirectsAdd(table: map<Key, Entry>, a: seq<Entry>, b: seq<Entry>, e: Entry)
    requires Directs(table, a, b) && e.key !in table
    ensures Directs(table[e.key := e], a + [e], b) && Directs(table[e.key := e], a, b + [e])
  {
  }

  lemma DirectsMove(table: map<Key, Entry>, a: seq<Entry>, b: seq<Entry>)
    requires Directs(table, a, b)
    ensures a != [] ==> Directs(table, a[1..], b + [a[0]])
    ensures b != [] ==> Directs(table, a, b[1..] + [b[0]])
  {
    if a != [] {
      assert a == [a[0]] + a[1..];
      assert forall e :: e in a <==> e == a[0] || e in a[1..];
      assert a[0] !in a[1..];
    }
    if b != [] {
      assert b == [b[0]] + b[1..];
      assert forall e :: e in b <==> e == b[0] || e in b[1..];
    }
  }

  lemma DirectsDrop(table: map<Key, Entry>, a: seq<Entry>, b: seq<Entry>, i: nat)
    requires Directs(table, a, b) && i < |a|
    ensures Directs(table - {a[i].key}, Without(a, i), b)
  {
  }

  lemma DirectsDropMain(table: map<Key, Entry>, a: seq<Entry>, b: seq<Entry>, i: nat)
    requires Directs(table, a, b) && i < |b|
    ensures Directs(table - {b[i].key}, a, Without(b, i))
  {
  }

  /** Taking the head of either list out, with the table entry still there and without it. */
  lemma DirectsPop(table: map<Key, Entry>, a: seq<Entry>, b: seq<Entry>)
    requires Directs(table, a, b)
    ensures a != [] ==> a[0].key in table && table[a[0].key] == a[0]
                        && Directs(table, a[1..], b + [a[0]]) && Directs(table - {a[0].key}, a[1..], b)
    ensures b != [] ==> b[0].key in table && table[b[0].key] == b[0]
                        && Directs(table, a, b[1..] + [b[0]]) && Directs(table - {b[0].key}, a, b[1..])
  {
    DirectsMove(table, a, b);
    if a != [] { DirectsDrop(table, a, b, 0); }
    if b != [] { DirectsDropMain(table, a, b, 0); }
    assert a != [] ==> Without(a, 0) == a[1..] && a[0] in a;
    assert b != [] ==> Without(b, 0) == b[1..] && b[0] in b;
  }

  class Domain {
    const policy: Policy
    const ring: Ring
    const small: Fifo
    const main: Fifo
    var table: map<Key, Entry>
    var smallBytes: int
    var mainBytes: int
    var mainCount: int
    var mainHi: nat
    var lastDecay: int

    ghost function View(): Queues
      requires ring.Valid()
      reads `mainHi, `lastDecay, small`ents, main`ents, ring, ring.ring
    {
      Queues(small.ents, main.ents, mainHi, lastDecay, ring.Contents(), ring.ring.Length)
    }

    /** Both lists are linked right, and the table leads from each key to its one linked entry. */
    ghost predicate Lists()
      reads `table, small, main, small.nodes, main.nodes
    {
      && small != main && small.Valid() && main.Valid() && small.place == InSmall && main.place == InMain
      && small.nodes !! main.nodes && Directs(table, small.items, main.items)
    }

    ghost predicate Counted()
      reads `smallBytes, `mainBytes, `mainCount, small`ents, main`ents
    {
      smallBytes == Bytes(small.ents) && mainBytes == Bytes(main.ents) && mainCount == |main.ents|
    }

    /** The lists, the table, the counters and the watermark agree. */
    ghost predicate Valid()
      reads this, ring, ring.ring, small, main, small.nodes, main.nodes
    {
      ring.Valid() && Lists() && Counted() && Sound(policy, View(), table.Keys)
    }

    constructor (policy: Policy)
      ensures Valid() && View() == Queues([], [], 0, 0, [], 0) && this.policy == policy
      ensures fresh(ring) && fresh(ring.ring) && fresh(small) && fresh(main) && small.nodes + main.nodes == {}
    {
      this.policy := policy;
      ring := new Ring();
      small := new Fifo(InSmall);
      main := new Fifo(InMain);
      table := map[];
      smallBytes, mainBytes, mainCount, mainHi, lastDecay := 0, 0, 0, 0, 0;
      new;
      hide Sound, Fifo.Linked, Fifo.Labelled, Ring.Valid, Ring.Contents;
      assert Lists() && Counted();
      hide Lists, Counted;
      assert table.Keys == {} && View() == Queues([], [], 0, 0, [], 0);
      EmptySound(policy);
    }

    method MaybeDecay(now: int)
      requires Valid()
      modifies `mainHi, `lastDecay, ring
      ensures Valid() && View() == Decay(policy, old(View()), now) && (ring.ring == old(ring.ring) || fresh(ring.ring))
    {
      hide Sound, Bytes, Rung, ShrunkTo, Newest, Lists;
      assert Shaped(policy, View()) && mainHi >= |main.ents| by { SoundGives(policy, View(), table.Keys); }
      DecaySound(policy, View(), table.Keys, now);
      if now == 0 { return; }
      if lastDecay == 0 {
        lastDecay := now;
        return;
      }
      if now - lastDecay < DECAY_EPOCH { return; }
      lastDecay := now;
      if mainHi > mainCount { mainHi := mainHi - (mainHi - mainCount) / 2; }
      MaybeShrink(ring, mainHi, policy.ghostMax);
    }

    /** One more entry in main: the watermark follows, and with it the ring. */
    method RaiseHi()
      requires ring.Valid() && ring.ring.Length <= Ceiling(policy.ghostMax)
      modifies `mainCount, `mainHi, ring
      ensures ring.Valid() && ring.Contents() == old(ring.Contents()) && (ring.ring == old(ring.ring) || fresh(ring.ring))
      ensures mainCount == old(mainCount) + 1 && mainHi == (if mainCount > old(mainHi) then mainCount else old(mainHi))
      ensures ring.ring.Length
           == if mainCount > old(mainHi) then GrownTo(old(ring.ring.Length), mainCount, policy.ghostMax) else old(ring.ring.Length)
    {
      mainCount := mainCount + 1;
      if mainCount > mainHi {
        mainHi := mainCount;
        MaybeGrow(ring, mainHi, policy.ghostMax);
      }
    }

    /** Append to main. */
    method PushMain(e: Entry)
      requires ring.Valid() && main.Valid() && small != main && mainCount == |main.ents|
      requires ring.ring.Length <= Ceiling(policy.ghostMax) && e !in main.nodes
      modifies `mainBytes, `mainCount, `mainHi, ring, main, main.nodes`prev, main.nodes`next, e`prev, e`next, e`place
      ensures ring.Valid() && View() == Promote(policy, old(View()), e.Shown()) && (ring.ring == old(ring.ring) || fresh(ring.ring))
      ensures main.Valid() && main.items == old(main.items) + [e] && main.nodes == old(main.nodes) + {e} && main.ents == old(main.ents) + [e.Shown()]
      ensures mainCount == |main.ents| && mainBytes == old(mainBytes) + e.size
    {
      hide Fifo.Linked, Fifo.Labelled, GrownTo, Ring.Contents, Ring.Valid;
      main.PushTail(e);
      mainBytes := mainBytes + e.size;
      RaiseHi();
    }

    /** Track a block; a key already tracked, or an empty block, changes nothing. */
    method Admit(k: Key, size: int, now: int)
      requires Valid()
      modifies this, ring, small, main, small.nodes, main.nodes
      ensures Valid() && (ring.ring == old(ring.ring) || fresh(ring.ring))
      ensures fresh(small.nodes - old(small.nodes)) && fresh(main.nodes - old(main.nodes))
      ensures if size <= 0 || k in old(table) then View() == old(View()) && table == old(table)
              else View() == Admitted(policy, old(View()), k, size, now) && table.Keys == old(table.Keys) + {k}
    {
      hide Sound, Decay, Lists, Fifo.Linked, Fifo.Labelled, Ring.Valid, Ring.Contents;
      if size <= 0 { return; }
      if k in table { return; }
      SoundGives(policy, View(), table.Keys);
      MaybeDecay(now);
      SoundGives(policy, View(), table.Keys);
      var e := new Entry(k, size);
      var hit := ring.Contains(policy.fp(k));
      AdmitSound(policy, View(), table.Keys, Ent(k, size, 0), hit);
      Enqueue(e, hit);
      assert table.Keys == old(table).Keys + {k};
    }

    method Enqueue(e: Entry, toMain: bool)
      requires ring.Valid() && Lists() && Counted() && e !in small.nodes && e !in main.nodes && e.key !in table
      requires ring.ring.Length <= Ceiling(policy.ghostMax)
      modifies this, ring, small, main, small.nodes, main.nodes, e
      ensures ring.Valid() && Lists() && Counted() && table == old(table)[e.key := e]
      ensures small.nodes <= old(small.nodes) + {e} && main.nodes <= old(main.nodes) + {e}
      ensures (ring.ring == old(ring.ring) || fresh(ring.ring))
      ensures View() == if toMain then Promote(policy, old(View()), old(e.Shown()))
                        else old(View()).(small := old(small.ents) + [old(e.Shown())])
    {
      hide Fifo.Linked, Fifo.Labelled, Ring.Valid, Ring.Contents, Bytes, GrownTo;
      DirectsAdd(table, small.items, main.items, e);
      BytesSnoc(main.ents, e.Shown());
      BytesSnoc(small.ents, e.Shown());
      hide Directs;
      table := table[e.key := e];
      if toMain {
        PushMain(e);
      } else {
        small.PushTail(e);
        smallBytes := smallBytes + e.size;
      }
    }

    /** The tracked entry of k is linked in small or in main, at the index its key has there. */
    lemma Found(k: Key)
      requires Lists() && k in table
      ensures |small.items| == |small.ents| && |main.items| == |main.ents|
      ensures table[k] in small.nodes || table[k] in main.nodes
      ensures table[k] in small.nodes ==> table[k].place == InSmall
      ensures table[k] in main.nodes ==> table[k].place == InMain
      ensures table[k].place == InSmall ==> IndexOf(small.ents, k) < |small.items| && small.items[IndexOf(small.ents, k)] == table[k]
      ensures table[k].place == InMain ==> IndexOf(main.ents, k) < |main.items| && main.items[IndexOf(main.ents, k)] == table[k]
    {
      hide Fifo.Linked;
      var e := table[k];
      if e in small.items {
        var i :| 0 <= i < |small.items| && small.items[i] == e;
        small.At(i);
        var j := IndexOf(small.ents, k);
        small.At(j);
        assert small.items[j] in small.items;
      } else {
        var i :| 0 <= i < |main.items| && main.items[i] == e;
        main.At(i);
        var j := IndexOf(main.ents, k);
        main.At(j);
        assert main.items[j] in main.items;
      }
    }

    method Remove(k: Key)
      requires Valid()
      modifies this, small, main, small.nodes, main.nodes
      ensures Valid() && View() == Removed(old(View()), k) && table == old(table) - {k}
      ensures small.nodes <= old(small.nodes) && main.nodes <= old(main.nodes)
    {
      hide Sound, Lists, Counted, Fifo.Linked, Fifo.Labelled, Ring.Valid, Ring.Contents, Dropped;
      RemoveSound(policy, View(), table.Keys, k);
      assert (table - {k}).Keys == table.Keys - {k};
      if k !in table {
        Untracked(policy, View(), table.Keys, k);
        assert table - {k} == table;
        return;
      }
      OneQueue(policy, View(), table.Keys, k);
      Dequeue(k);
    }

    /** Unlink k's entry from the queue it is in. */
    method Dequeue(k: Key)
      requires Lists() && Counted() && k in table
      requires IndexOf(small.ents, k) < |small.ents| ==> Dropped(main.ents, k) == main.ents
      modifies `table, `smallBytes, `mainBytes, `mainCount, small, main, small.nodes, main.nodes
      ensures Lists() && Counted() && table == old(table) - {k}
      ensures small.ents == Dropped(old(small.ents), k) && main.ents == Dropped(old(main.ents), k)
      ensures small.nodes <= old(small.nodes) && main.nodes <= old(main.nodes)
    {
      hide Fifo.Linked, Fifo.Labelled, Bytes, Dropped, Without, IndexOf;
      DroppedIs(small.ents, k);
      DroppedIs(main.ents, k);
      Found(k);
      var e := table[k];
      ghost var i, j := IndexOf(small.ents, k), IndexOf(main.ents, k);
      table := table - {k};
      if e.place == InSmall {
        DirectsDrop(old(table), small.items, main.items, i);
        hide Directs;
        small.At(i);
        small.Unlink(e, i);
        smallBytes := smallBytes - e.size;
      } else {
        DirectsDropMain(old(table), small.items, main.items, j);
        hide Directs;
        main.At(j);
        main.Unlink(e, j);
        mainBytes := mainBytes - e.size;
        mainCount := mainCount - 1;
      }
      e.place := Dead;
    }

    method Touch(k: Key)
      requires Valid()
      modifies small`ents, main`ents, small.nodes`freq, main.nodes`freq
      ensures Valid() && View() == Touched(old(View()), k)
    {
      hide Sound, Fifo.Linked, Fifo.Labelled, Ring.Valid, Ring.Contents, Directs, Bytes, IndexOf;
      TouchSound(policy, View(), table.Keys, k);
      if k !in table {
        Untracked(policy, View(), table.Keys, k);
        return;
      }
      Found(k);
      OneQueue(policy, View(), table.Keys, k);
      var e := table[k];
      if e.place == InSmall {
        ghost var i := IndexOf(small.ents, k);
        small.At(i);
        if e.freq < 3 { small.SetFreq(e, e.freq + 1, i); }
      } else {
        ghost var i := IndexOf(main.ents, k);
        main.At(i);
        if e.freq < 3 { main.SetFreq(e, e.freq + 1, i); }
      }
    }

    /** The head of small: promoted if it proved itself, else evicted and remembered. */
    method VisitSmall() returns (c: seq<Ent>)
      requires Valid() && small.ents != [] && FromSmall(View())
      modifies this, ring, ring.ring, small, main, small.nodes, main.nodes
      ensures Valid() && (View(), c) == Visit(policy, old(View())) && (ring.ring == old(ring.ring) || fresh(ring.ring))
      ensures small.nodes <= old(small.nodes) && main.nodes <= old(main.nodes) + old(small.nodes)
    {
      hide FromSmall, Visit, Sound, Pushed, GrownTo, Bytes, Counted, Lists, Popped, Fifo.Linked, Fifo.Labelled, Ring.Valid, Ring.Contents;
      SoundGives(policy, View(), table.Keys);
      VisitIs(policy, View());
      VisitSound(policy, View(), table.Keys);
      var e := PopSmall();
      if e.freq > 1 {
        Requeue(e);
        c := [];
      } else {
        ring.Push(policy.fp(e.key));
        c := [e.Shown()];
        Expel(e);
      }
      assert table.Keys == old(table).Keys - Keys(c);
    }

    /** The lists and counters, with e popped but still in the table. */
    ghost predicate Popped(e: Entry)
      reads `table, small, main, small.nodes, main.nodes
    {
      && small != main && small.Valid() && main.Valid() && small.place == InSmall && main.place == InMain
      && small.nodes !! main.nodes && e !in small.nodes && e !in main.nodes && e.key in table && table[e.key] == e
      && Directs(table, small.items, main.items + [e]) && Directs(table - {e.key}, small.items, main.items)
    }

    method PopSmall() returns (e: Entry)
      requires Lists() && Counted() && small.ents != []
      modifies `smallBytes, small, small.nodes`prev, small.nodes`next
      ensures Popped(e) && Counted() && e in old(small.nodes) && e.Shown() == old(small.ents[0])
      ensures small != main && small.ents == old(small.ents[1..]) && small.nodes == old(small.nodes) - {e}
    {
      hide Fifo.Linked, Fifo.Labelled, Bytes, Directs;
      small.Sizes();
      small.At(0);
      BytesHead(small.ents);
      DirectsPop(table, small.items, main.items);
      e := small.PopHead();
      smallBytes := smallBytes - e.size;
    }

    method PopMain() returns (e: Entry)
      requires Lists() && Counted() && main.ents != []
      modifies main, main.nodes`prev, main.nodes`next
      ensures Popped(e) && e in old(main.nodes) && e.Shown() == old(main.ents[0])
      ensures small != main && main.ents == old(main.ents[1..]) && main.nodes == old(main.nodes) - {e}
    {
      hide Fifo.Linked, Fifo.Labelled, Directs;
      main.Sizes();
      main.At(0);
      DirectsPop(table, small.items, main.items);
      e := main.PopHead();
    }

    /** A proven entry from small joins main. */
    method Requeue(e: Entry)
      requires ring.Valid() && Popped(e) && Counted() && ring.ring.Length <= Ceiling(policy.ghostMax)
      modifies `mainBytes, `mainCount, `mainHi, ring, main, main.nodes`prev, main.nodes`next, e`prev, e`next, e`place
      ensures ring.Valid() && Lists() && Counted() && View() == Promote(policy, old(View()), e.Shown())
      ensures (ring.ring == old(ring.ring) || fresh(ring.ring)) && main.nodes == old(main.nodes) + {e}
    {
      hide Fifo.Linked, Fifo.Labelled, Ring.Valid, Ring.Contents, Bytes, GrownTo, Directs;
      BytesSnoc(main.ents, e.Shown());
      PushMain(e);
    }

    /** An evicted entry leaves the table. */
    method Expel(e: Entry)
      requires Popped(e)
      modifies `table, e`place
      ensures Lists() && table == old(table) - {e.key}
    {
      hide Fifo.Linked, Fifo.Labelled, Directs;
      table := table - {e.key};
      e.place := Dead;
    }

    /** The head of main: a second chance, or evicted without being remembered. */
    method VisitMain() returns (c: seq<Ent>)
      requires Valid() && main.ents != [] && !FromSmall(View())
      modifies this, main, main.nodes
      ensures Valid() && (View(), c) == Visit(policy, old(View())) && main.nodes <= old(main.nodes)
    {
      hide FromSmall, Visit, Sound, Bytes, Lists, Popped, Fifo.Linked, Fifo.Labelled, Ring.Valid, Ring.Contents;
      SoundGives(policy, View(), table.Keys);
      VisitIs(policy, View());
      VisitSound(policy, View(), table.Keys);
      BytesHead(main.ents);
      var e := PopMain();
      if e.freq > 0 {
        BytesSnoc(main.ents, e.Shown().(freq := e.freq - 1));
        SecondChance(e);
        c := [];
      } else {
        mainBytes := mainBytes - e.size;
        mainCount := mainCount - 1;
        c := [e.Shown()];
        Expel(e);
      }
      assert table.Keys == old(table).Keys - Keys(c);
    }

    method SecondChance(e: Entry)
      requires Popped(e) && e.freq > 0
      modifies main, main.nodes`prev, main.nodes`next, e
      ensures Lists() && main.nodes == old(main.nodes) + {e}
      ensures main.ents == old(main.ents) + [old(e.Shown()).(freq := old(e.freq) - 1)]
    {
      hide Fifo.Linked, Fifo.Labelled, Directs;
      e.freq := e.freq - 1;
      main.PushTail(e);
    }

    /** Pick the queue and visit its head. */
    method VisitOnce() returns (c: seq<Ent>)
      requires Valid() && (small.ents != [] || main.ents != [])
      modifies this, ring, ring.ring, small, main, small.nodes, main.nodes
      ensures Valid() && (View(), c) == Visit(policy, old(View())) && (ring.ring == old(ring.ring) || fresh(ring.ring))
      ensures small.nodes + main.nodes <= old(small.nodes + main.nodes)
    {
      hide Sound, FromSmall, Visit, Lists, Fifo.Linked, Fifo.Labelled, Ring.Valid, Ring.Contents;
      PickIs(View());
      Sizes();
      assert Shaped(policy, View()) by { BudgetCovers(policy, View(), table.Keys); }
      var fromSmall := smallBytes > (smallBytes + mainBytes) / 10;
      if fromSmall && small.count == 0 { fromSmall := false; }
      if !fromSmall && main.count == 0 { fromSmall := true; }
      if fromSmall { c := VisitSmall(); } else { c := VisitMain(); }
    }

    lemma Sizes()
      requires Lists()
      ensures small.count == |small.ents| && main.count == |main.ents|
    {
      small.Sizes();
      main.Sizes();
    }

    /**
     * Evict until the candidates cover need or nothing is left. The visit budget
     * of six per entry plus eight is never what ends the pass.
     */
    method Victims(need: int, now: int) returns (out: seq<Ent>)
      requires Valid()
      modifies this, ring, ring.ring, small, main, small.nodes, main.nodes
      ensures Valid() && (ring.ring == old(ring.ring) || fresh(ring.ring))
      ensures small.nodes + main.nodes <= old(small.nodes + main.nodes)
      ensures need <= 0 ==> out == [] && View() == old(View())
      ensures need > 0 ==> (View(), out) == Scan(policy, Decay(policy, old(View()), now), need)
    {
      hide Sound, Visit, Decay, Scan, Potential, Bytes, Shaped, Lists, Counted, Fifo.Linked, Fifo.Labelled, Ring.Valid, Ring.Contents;
      out := [];
      if need <= 0 { return; }
      MaybeDecay(now);
      ghost var start := View();
      var got := 0;
      Sizes();
      var budget := 6 * (small.count + main.count) + 8;
      BudgetCovers(policy, start, table.Keys);
      assert [] + Scan(policy, start, need).1 == Scan(policy, start, need).1;
      while got < need && budget > 0 && (small.count > 0 || main.count > 0)
        invariant Valid() && Shaped(policy, View()) && (ring.ring == old(ring.ring) || fresh(ring.ring))
        invariant small.nodes + main.nodes <= old(small.nodes + main.nodes)
        invariant small.count == |small.ents| && main.count == |main.ents|
        invariant budget >= Potential(View()) + 8
        invariant Scan(policy, start, need) == (Scan(policy, View(), need - got).0, out + Scan(policy, View(), need - got).1)
      {
        budget := budget - 1;
        ghost var q, left, before := View(), need - got, out;
        VisitCosts(policy, q);
        ScanStep(policy, q, left);
        var c := VisitOnce();
        Sizes();
        out := out + c;
        got := got + if c == [] then 0 else c[0].size;
        Regroup(before, c, Scan(policy, View(), need - got).1);
      }
      ScanDone(policy, View(), need - got);
    }
  }

  lemma Regroup(a: seq<Ent>, b: seq<Ent>, c: seq<Ent>)
    ensures a + (b + c) == (a + b) + c
  {
  }

  lemma PickIs(q: Queues)
    ensures FromSmall(q) <==> if Bytes(q.small) > (Bytes(q.small) + Bytes(q.main)) / 10 then q.small != [] else q.main == []
  {
  }

  lemma BudgetCovers(p: Policy, q: Queues, table: set<Key>)
    requires Sound(p, q, table)
    ensures Shaped(p, q) && 6 * (|q.small| + |q.main|) >= Potential(q)
  {
    CostBound(q.small);
    CostBound(q.main);
  }
}
