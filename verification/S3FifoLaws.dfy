/**
 * What the S3-FIFO policy is for, said without its own definitions: a scan
 * leaves the main queue alone, a block that comes back in time skips probation,
 * use in probation is what promotes, and use in main buys laps.
 */
module S3FifoLaws {
  import opened FifoQueue
  import opened GhostRing
  import opened S3Fifo

  // ---- scan resistance ------------------------------------------------------------------------------

  datatype Block = Block(key: Key, size: nat, now: int)

  function Fresh(blocks: seq<Block>): seq<Ent> {
    seq(|blocks|, i requires 0 <= i < |blocks| => Ent(blocks[i].key, blocks[i].size, 0))
  }

  lemma AdmitShape(p: Policy, q: Queues, k: Key, size: nat, now: int)
    requires Shaped(p, q) && q.hi >= |q.main|
    ensures var r := Admitted(p, q, k, size, now);
      && Shaped(p, r) && r.hi >= |r.main| && forall f :: f in r.remembered ==> f in q.remembered
  {
    hide ShrunkTo, GrownTo;
  }

  function AdmitAll(p: Policy, q: Queues, blocks: seq<Block>): Queues
    requires Shaped(p, q) && q.hi >= |q.main|
    decreases |blocks|
  {
    if blocks == [] then q
    else
      var b := blocks[0];
      AdmitShape(p, q, b.key, b.size, b.now);
      AdmitAll(p, Admitted(p, q, b.key, b.size, b.now), blocks[1..])
  }

  /** One scanned block: probation, with main and the frequencies untouched. */
  lemma AdmitCold(p: Policy, q: Queues, k: Key, size: nat, now: int)
    requires Shaped(p, q) && q.hi >= |q.main| && p.fp(k) !in q.remembered
    ensures var r := Admitted(p, q, k, size, now); r.main == q.main && r.small == q.small + [Ent(k, size, 0)]
  {
    hide ShrunkTo, GrownTo;
  }

  /** However long a scan of blocks not lately evicted, main stays as it is; the scan queues up behind small, in order. */
  lemma {:induction false} ScanResistance(p: Policy, q: Queues, blocks: seq<Block>)
    requires Shaped(p, q) && q.hi >= |q.main|
    requires forall i :: 0 <= i < |blocks| ==> p.fp(blocks[i].key) !in q.remembered
    ensures var r := AdmitAll(p, q, blocks); r.main == q.main && r.small == q.small + Fresh(blocks)
    decreases |blocks|
  {
    hide Admitted;
    if blocks == [] {
    } else {
      var b := blocks[0];
      AdmitShape(p, q, b.key, b.size, b.now);
      AdmitCold(p, q, b.key, b.size, b.now);
      ScanResistance(p, Admitted(p, q, b.key, b.size, b.now), blocks[1..]);
      assert Fresh(blocks) == [Ent(b.key, b.size, 0)] + Fresh(blocks[1..]);
    }
  }

  // ---- what a visit decides ---------------------------------------------------------------------------

  /** The pass drains small while small holds more than a tenth of the bytes, or has nothing else to drain. */
  predicate DrainsSmall(q: Queues) {
    q.small != [] && (q.main == [] || 10 * Bytes(q.small) > Bytes(q.small) + Bytes(q.main))
  }

  /** Used twice in probation: on to main with its count. Else out, and remembered. */
  lemma ProbationEnds(p: Policy, q: Queues)
    requires Shaped(p, q) && DrainsSmall(q)
    ensures var (r, c), e := Visit(p, q), q.small[0];
      && r.small == q.small[1..]
      && (c == [] <==> e.freq >= 2)
      && (e.freq >= 2 ==> r.main == q.main + [e] && r.remembered == q.remembered)
      && (e.freq <= 1 ==> c == [e] && r.main == q.main && p.fp(e.key) in r.remembered)
  {
  }

  /** Used since its last lap: to the tail with one less. Else out, and not remembered. */
  lemma LapEnds(p: Policy, q: Queues)
    requires Shaped(p, q) && !DrainsSmall(q) && q.main != []
    ensures var (r, c), e := Visit(p, q), q.main[0];
      && r.small == q.small && r.remembered == q.remembered
      && (c == [] <==> e.freq > 0)
      && (e.freq > 0 ==> r.main == q.main[1..] + [e.(freq := e.freq - 1)])
      && (e.freq == 0 ==> c == [e] && r.main == q.main[1..])
  {
    assert q.small == [] ==> Bytes(q.small) == 0;
  }

  /** The head evicted from small, or [] with the queues after n visits, as long as there is something to visit. */
  function Visits(p: Policy, q: Queues, n: nat): (Queues, seq<Ent>)
    requires Shaped(p, q)
    decreases n
  {
    if n == 0 || (q.small == [] && q.main == []) then (q, [])
    else
      VisitCosts(p, q);
      var (r, c) := Visit(p, q);
      var rest := Visits(p, r, n - 1);
      (rest.0, c + rest.1)
  }

  function Tired(m: seq<Ent>): seq<Ent>
    requires forall i :: 0 <= i < |m| ==> m[i].freq > 0
  {
    seq(|m|, i requires 0 <= i < |m| => m[i].(freq := m[i].freq - 1))
  }

  /** Part of a lap: the heads visited so far follow the rest, each with one use less. */
  lemma {:induction false} LapSoFar(p: Policy, q: Queues, a: seq<Ent>, b: seq<Ent>)
    requires Shaped(p, q) && q.small == [] && q.main == a + b && forall i :: 0 <= i < |a| ==> a[i].freq > 0
    ensures var (r, c) := Visits(p, q, |a|); c == [] && r.main == b + Tired(a) && r.small == [] && r.remembered == q.remembered
    decreases |a|
  {
    hide Visit;
    if a == [] {
      assert a + b == b && b + [] == b;
    } else {
      LapEnds(p, q);
      VisitCosts(p, q);
      var (r, c) := Visit(p, q);
      var e := a[0].(freq := a[0].freq - 1);
      assert q.main[1..] == a[1..] + b;
      assert (a[1..] + b) + [e] == a[1..] + (b + [e]);
      LapSoFar(p, r, a[1..], b + [e]);
      assert (b + [e]) + Tired(a[1..]) == b + Tired(a);
    }
  }

  /** A whole lap over a main queue of blocks in use evicts none of them and keeps their order. */
  lemma Lap(p: Policy, q: Queues)
    requires Shaped(p, q) && q.small == [] && forall i :: 0 <= i < |q.main| ==> q.main[i].freq > 0
    ensures var (r, c) := Visits(p, q, |q.main|); c == [] && r.main == Tired(q.main) && r.small == []
  {
    assert q.main + [] == q.main && [] + Tired(q.main) == Tired(q.main);
    LapSoFar(p, q, q.main, []);
  }

  // ---- use ------------------------------------------------------------------------------------------------

  /** A touch counts one more use of that block, up to three, and changes nothing else. */
  lemma TouchCounts(q: seq<Ent>, k: Key, i: nat)
    requires i < |q| && q[i].key == k && forall j :: 0 <= j < |q| && q[j].key == k ==> j == i
    ensures var r := Bumped(q, k);
      && |r| == |q| && r[i] == q[i].(freq := if q[i].freq < 3 then q[i].freq + 1 else q[i].freq)
      && forall j :: 0 <= j < |q| && j != i ==> r[j] == q[j]
  {
    assert IndexOf(q, k) == i;
  }

  /** Two touches in probation are what it takes: the block at the head then goes to main, and with fewer it goes out. */
  lemma TwoTouchesPromote(p: Policy, q: Queues, touches: nat)
    requires Shaped(p, q) && DrainsSmall(q) && q.small[0].freq == 0
    requires forall j :: 0 < j < |q.small| ==> q.small[j].key != q.small[0].key
    requires forall j :: 0 <= j < |q.main| ==> q.main[j].key != q.small[0].key
    ensures var k, t := q.small[0].key, TouchedTimes(q, q.small[0].key, touches);
      && t.small != [] && Shaped(p, t)
      && var (r, c) := Visit(p, t);
         if touches >= 2 then c == [] && r.main == q.main + [q.small[0].(freq := if touches < 3 then touches else 3)]
         else c == [q.small[0].(freq := touches)] && r.main == q.main
  {
    TouchedHead(q, touches);
    var t := TouchedTimes(q, q.small[0].key, touches);
    hide TouchedTimes;
    BytesHead(q.small);
    BytesHead(t.small);
    ProbationEnds(p, t);
  }

  function TouchedTimes(q: Queues, k: Key, n: nat): Queues { if n == 0 then q else Touched(TouchedTimes(q, k, n - 1), k) }

  lemma TouchHead(q: Queues)
    requires q.small != [] && (forall j :: 0 < j < |q.small| ==> q.small[j].key != q.small[0].key)
    requires forall j :: 0 <= j < |q.main| ==> q.main[j].key != q.small[0].key
    ensures var e := q.small[0];
      Touched(q, e.key) == q.(small := [e.(freq := if e.freq < 3 then e.freq + 1 else e.freq)] + q.small[1..])
  {
    TouchCounts(q.small, q.small[0].key, 0);
    assert IndexOf(q.main, q.small[0].key) == |q.main|;
  }

  lemma {:induction false} TouchedHead(q: Queues, n: nat)
    requires q.small != [] && q.small[0].freq == 0
    requires forall j :: 0 < j < |q.small| ==> q.small[j].key != q.small[0].key
    requires forall j :: 0 <= j < |q.main| ==> q.main[j].key != q.small[0].key
    ensures TouchedTimes(q, q.small[0].key, n)
         == q.(small := [q.small[0].(freq := if n < 3 then n else 3)] + q.small[1..])
  {
    hide Touched;
    if n == 0 {
      assert [q.small[0]] + q.small[1..] == q.small;
    } else {
      TouchedHead(q, n - 1);
      TouchHead(TouchedTimes(q, q.small[0].key, n - 1));
    }
  }

  // ---- second life ------------------------------------------------------------------------------------------

  function PushAll(s: seq<nat>, capacity: nat, fps: seq<nat>): (r: seq<nat>)
    requires |s| <= capacity && 0 < capacity
    ensures |r| <= capacity
    decreases |fps|
  {
    if fps == [] then s else PushAll(Pushed(s, capacity, fps[0]), capacity, fps[1..])
  }

  /** The ring is a window on the history of distinct fingerprints: its last ones, as many as fit. */
  lemma {:induction false} RingIsWindow(s: seq<nat>, capacity: nat, fps: seq<nat>)
    requires |s| <= capacity && 0 < capacity && Distinct(s + fps)
    ensures var h := s + fps; PushAll(s, capacity, fps) == h[if |h| <= capacity then 0 else |h| - capacity..]
    decreases |fps|
  {
    if fps == [] {
      assert s + fps == s && s[0..] == s;
    } else {
      var h, r := s + fps, Pushed(s, capacity, fps[0]);
      var drop := if |s| == capacity then 1 else 0;
      PushedFollows(s, capacity, fps);
      TailDistinct(h, drop);
      hide Pushed, Distinct;
      RingIsWindow(r, capacity, fps[1..]);
      TailOfTail(h, drop, if |h| - drop <= capacity then 0 else |h| - drop - capacity);
    }
  }

  lemma PushedFollows(s: seq<nat>, capacity: nat, fps: seq<nat>)
    requires |s| <= capacity && 0 < capacity && fps != [] && Distinct(s + fps)
    ensures Pushed(s, capacity, fps[0]) + fps[1..] == (s + fps)[if |s| == capacity then 1 else 0..]
  {
    var h := s + fps;
    assert h[|s|] == fps[0] && forall i :: 0 <= i < |s| ==> h[i] == s[i];
    assert fps[0] !in s;
  }

  lemma TailDistinct(h: seq<nat>, d: nat)
    requires d <= |h| && Distinct(h)
    ensures Distinct(h[d..])
  {
    assert forall i :: 0 <= i < |h| - d ==> h[d..][i] == h[i + d];
  }

  lemma TailOfTail(h: seq<nat>, d: nat, e: nat)
    requires d + e <= |h|
    ensures h[d..][e..] == h[d + e..]
  {
  }

  /** So a new fingerprint is remembered through the next pushes exactly while fewer than the capacity have followed it. */
  lemma Lingers(s: seq<nat>, capacity: nat, fp: nat, later: seq<nat>)
    requires |s| <= capacity && 0 < capacity && Distinct(s + [fp] + later)
    ensures fp in PushAll(Pushed(s, capacity, fp), capacity, later) <==> |later| < capacity
  {
    var fps := [fp] + later;
    var h := s + fps;
    assert s + [fp] + later == h && h[|s|] == fp && fps[1..] == later;
    RingIsWindow(s, capacity, fps);
    assert PushAll(s, capacity, fps) == PushAll(Pushed(s, capacity, fp), capacity, later);
    hide PushAll, Pushed;
    InTail(h, |s|, if |h| <= capacity then 0 else |h| - capacity);
  }

  lemma InTail(h: seq<nat>, i: nat, from: nat)
    requires Distinct(h) && i < |h| && from <= |h|
    ensures h[i] in h[from..] <==> i >= from
  {
    var w := h[from..];
    if i >= from {
      assert w[i - from] == h[i];
    } else {
      assert forall j :: 0 <= j < |w| ==> w[j] == h[from + j];
    }
  }

  /**
   * Evicted from small, a block is remembered; admitted while it still is, it
   * skips probation and joins the tail of main; otherwise it starts over in small.
   */
  lemma SecondLife(p: Policy, q: Queues, later: Queues, size: nat, now: int)
    requires Shaped(p, q) && DrainsSmall(q) && q.small[0].freq <= 1
    requires Shaped(p, later) && later.hi >= |later.main|
    ensures var k := q.small[0].key;
      && Visit(p, q).1 == [q.small[0]] && p.fp(k) in Visit(p, q).0.remembered
      && var r, held := Admitted(p, later, k, size, now), p.fp(k) in Decay(p, later, now).remembered;
         && (held ==> r.main == later.main + [Ent(k, size, 0)] && r.small == later.small)
         && (!held ==> r.main == later.main && r.small == later.small + [Ent(k, size, 0)])
  {
    ProbationEnds(p, q);
    hide ShrunkTo, GrownTo;
  }

  /** With no decay due in between, evict and admit again at once: from probation to main. */
  lemma ComesStraightBack(p: Policy, q: Queues, size: nat)
    requires Shaped(p, q) && DrainsSmall(q) && q.small[0].freq <= 1 && q.hi >= |q.main|
    ensures var k, r := q.small[0].key, Visit(p, q).0;
      && Shaped(p, r) && r.hi >= |r.main|
      && Admitted(p, r, k, size, 0).main == q.main + [Ent(k, size, 0)] && Admitted(p, r, k, size, 0).small == q.small[1..]
  {
    ProbationEnds(p, q);
    VisitCosts(p, q);
    SecondLife(p, q, Visit(p, q).0, size, 0);
  }

  // ---- sizing ---------------------------------------------------------------------------------------------------

  /** Once an epoch the gap above main's count halves and the newest fingerprints that still fit stay; never without a clock. */
  lemma DecayRules(p: Policy, q: Queues, now: int)
    requires Shaped(p, q) && q.hi >= |q.main|
    ensures var r := Decay(p, q, now);
      && r.small == q.small && r.main == q.main && r.capacity <= q.capacity
      && (now == 0 ==> r == q)
      && (now != 0 && q.lastDecay == 0 ==> r == q.(lastDecay := now))
      && (now != 0 && q.lastDecay != 0 ==>
            if now - q.lastDecay < DECAY_EPOCH then r == q
            else r.lastDecay == now && r.hi - |q.main| == (q.hi - |q.main| + 1) / 2
                 && r.remembered == q.remembered[if |q.remembered| <= r.capacity then 0 else |q.remembered| - r.capacity..])
  {
    hide ShrunkTo;
  }

  function Doubled(c: nat, k: nat): nat
    decreases k
  {
    if k == 0 then c else Doubled(2 * c, k - 1)
  }

  /** The least doubling of c that reaches want. */
  lemma {:induction false} RungIsLeast(c: nat, want: nat) returns (k: nat)
    requires c > 0
    ensures Rung(c, want) == Doubled(c, k) >= want && (k > 0 ==> Doubled(c, k - 1) < want)
    decreases want - c
  {
    if c >= want {
      k := 0;
    } else {
      var j := RungIsLeast(2 * c, want);
      k := j + 1;
    }
  }

  lemma {:induction false} RungOfRung(c: nat, a: nat, b: nat)
    requires c > 0 && Rung(c, a) >= b
    ensures Rung(c, b) <= Rung(c, a)
    decreases a - c
  {
    if c < a && c < b { RungOfRung(2 * c, a, b); }
  }

  /** What the ring should hold for a watermark. */
  function Target(hi: nat, ghostMax: nat): nat {
    var c := Rung(GHOST_FLOOR, hi);
    if c > Ceiling(ghostMax) then Ceiling(ghostMax) else c
  }

  /** Growing and then shrinking at a watermark lands on its target, from the target of any other watermark. */
  lemma CapacityTracks(was: nat, hi: nat, ghostMax: nat)
    requires ghostMax > 0
    ensures var c := Target(was, ghostMax);
      c <= Ceiling(ghostMax) && ShrunkTo(GrownTo(c, hi, ghostMax), hi, ghostMax) == Target(hi, ghostMax)
  {
    var c := Target(was, ghostMax);
    if Rung(GHOST_FLOOR, was) >= hi { RungOfRung(GHOST_FLOOR, was, hi); }
  }
}
