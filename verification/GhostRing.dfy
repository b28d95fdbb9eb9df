/**
 * The ghost ring: fingerprints of blocks recently evicted from the small queue,
 * kept in a circular array with a membership set. It refines a bounded FIFO of
 * distinct fingerprints.
 */
module GhostRing {
  const GHOST_FLOOR := 1024

  predicate Distinct(s: seq<nat>) { forall i, j :: 0 <= i < j < |s| ==> s[i] != s[j] }

  /** A full FIFO forgets its oldest; a known fingerprint changes nothing. */
  function Pushed(s: seq<nat>, capacity: nat, fp: nat): (r: seq<nat>)
    requires |s| <= capacity && 0 < capacity
    ensures |r| <= capacity && fp in r
  {
    if fp in s then s else if |s| == capacity then s[1..] + [fp] else s + [fp]
  }

  /** The newest entries, at most n of them. */
  function Newest(s: seq<nat>, n: nat): (r: seq<nat>)
    ensures |r| <= n && |r| <= |s|
  {
    if |s| <= n then s else s[|s| - n..]
  }

  lemma PushedDistinct(s: seq<nat>, capacity: nat, fp: nat)
    requires |s| <= capacity && 0 < capacity && Distinct(s)
    ensures Distinct(Pushed(s, capacity, fp))
  {
  }

  /** Where the i-th live entry sits. */
  function Slot(head: nat, i: nat, len: nat): nat
    requires head < len && i <= len
  {
    if head + i < len then head + i else head + i - len
  }

  lemma SlotIsMod(head: nat, i: nat, len: nat)
    requires head < len && i <= len
    ensures (head + i) % len == Slot(head, i, len)
  {
  }

  class Ring {
    var ring: array<nat>
    var members: set<nat>
    var head: nat
    var n: nat

    /** Oldest first. */
    ghost function Contents(): seq<nat>
      requires n <= ring.Length && (head < ring.Length || n == 0)
      reads this, ring
    {
      seq(n, i requires 0 <= i < n && n <= ring.Length && (head < ring.Length || n == 0) reads this, ring => ring[Slot(head, i, ring.Length)])
    }

    ghost predicate Valid()
      reads this, ring
    {
      && n <= ring.Length && (head < ring.Length || (head == 0 && n == 0))
      && Distinct(Contents()) && (forall fp :: fp in members <==> fp in Contents())
    }

    constructor ()
      ensures Valid() && Contents() == [] && ring.Length == 0 && fresh(ring)
    {
      ring := new nat[0];
      members, head, n := {}, 0, 0;
    }

    predicate Contains(fp: nat)
      requires Valid()
      reads this, ring
      ensures Contains(fp) <==> fp in Contents()
    {
      fp in members
    }

    method Push(fp: nat)
      requires Valid()
      modifies this, ring
      ensures Valid() && (ring == old(ring) || fresh(ring))
      ensures ring.Length == if old(ring.Length) == 0 then GHOST_FLOOR else old(ring.Length)
      ensures Contents() == Pushed(old(Contents()), ring.Length, fp)
    {
      if ring.Length == 0 {
        ring := new nat[GHOST_FLOOR];
        members := {};
        assert Contents() == old(Contents()) == [];
      }
      if fp in members { return; }
      if n == ring.Length { Replace(fp); } else { Append(fp); }
    }

    /** The oldest entry gives way. */
    method Replace(fp: nat)
      requires Valid() && n == ring.Length > 0 && fp !in members
      modifies this, ring
      ensures Valid() && ring == old(ring) && Contents() == Pushed(old(Contents()), ring.Length, fp)
    {
      ghost var before := Contents();
      PushedDistinct(before, ring.Length, fp);
      assert before[0] == ring[head];
      members := members - {ring[head]} + {fp};
      ring[head] := fp;
      SlotIsMod(head, 1, ring.Length);
      head := (head + 1) % ring.Length;
      assert Contents() == Pushed(before, ring.Length, fp);
    }

    method Append(fp: nat)
      requires Valid() && n < ring.Length && fp !in members
      modifies this, ring
      ensures Valid() && ring == old(ring) && Contents() == Pushed(old(Contents()), ring.Length, fp)
    {
      ghost var before := Contents();
      PushedDistinct(before, ring.Length, fp);
      SlotIsMod(head, n, ring.Length);
      ring[(head + n) % ring.Length] := fp;
      n := n + 1;
      members := members + {fp};
      assert Contents() == Pushed(before, ring.Length, fp);
    }

    /** Copy the live entries from start on, oldest first, into a new array; also collect them in a set. */
    method CopyOut(start: nat, keep: nat, cap: nat) returns (copy: array<nat>, kept: set<nat>)
      requires Valid() && start + keep == n && keep <= cap
      ensures fresh(copy) && copy.Length == cap && copy[..keep] == Contents()[start..]
      ensures forall fp :: fp in kept <==> fp in Contents()[start..]
    {
      ghost var live := Contents();
      copy, kept := new nat[cap], {};
      for i := 0 to keep
        invariant copy[..i] == live[start..start + i]
        invariant forall fp :: fp in kept <==> fp in live[start..start + i]
      {
        SlotIsMod(head, start + i, ring.Length);
        var fp := ring[(head + start + i) % ring.Length];
        assert fp == live[start + i];
        copy[i] := fp;
        kept := kept + {fp};
        assert live[start..start + i + 1] == live[start..start + i] + [fp];
      }
      assert live[start..start + keep] == live[start..];
    }

    /** Live entries packed from the front of the array. */
    lemma Packed()
      requires n <= ring.Length && head == 0
      ensures Contents() == ring[..n]
    {
    }

    /** Rebuild at a larger capacity; the sequence is unchanged. */
    method Grow(newCap: nat)
      requires Valid()
      modifies this
      ensures Valid() && Contents() == old(Contents()) && (ring == old(ring) || fresh(ring))
      ensures ring.Length == if newCap <= old(ring.Length) then old(ring.Length) else newCap
    {
      if newCap <= ring.Length { return; }
      ghost var before := Contents();
      var bigger, _ := CopyOut(0, n, newCap);
      assert before[0..] == before;
      ring, head := bigger, 0;
      Packed();
    }

    /** Rebuild at a smaller capacity, never below the floor; the newest entries stay. */
    method Shrink(target: nat)
      requires Valid()
      modifies this
      ensures Valid() && (ring == old(ring) || fresh(ring))
      ensures var cap := if target < GHOST_FLOOR then GHOST_FLOOR else target;
        if old(ring.Length) == 0 || cap >= old(ring.Length) then ring == old(ring) && Contents() == old(Contents())
        else ring.Length == cap && Contents() == Newest(old(Contents()), cap)
    {
      var newCap := if target < GHOST_FLOOR then GHOST_FLOOR else target;
      if ring.Length == 0 || newCap >= ring.Length { return; }
      ghost var before := Contents();
      var keep := if n > newCap then newCap else n;
      var smaller, kept := CopyOut(n - keep, keep, newCap);
      assert before[|before| - keep..] == Newest(before, newCap);
      ring, members, head, n := smaller, kept, 0, keep;
      Packed();
    }
  }

  // ---- sizing -------------------------------------------------------------------------------------

  /** The first rung at or above want, doubling from c. */
  function Rung(c: nat, want: nat): (r: nat)
    requires c > 0
    ensures r >= want && r >= c && (r == c || r < 2 * want)
    decreases want - c
  {
    if c >= want then c else Rung(2 * c, want)
  }

  method Ladder(want: nat) returns (capacity: nat)
    ensures capacity == Rung(GHOST_FLOOR, want)
  {
    capacity := GHOST_FLOOR;
    while capacity < want
      invariant capacity > 0 && Rung(capacity, want) == Rung(GHOST_FLOOR, want)
    {
      capacity := capacity * 2;
    }
  }

  /** The capacity a grow leaves: toward the watermark on the ladder, never past the maximum; 0 means the floor only. */
  function GrownTo(capacity: nat, mainHi: nat, ghostMax: nat): (r: nat)
    requires capacity <= Ceiling(ghostMax)
    ensures capacity <= r <= Ceiling(ghostMax)
    ensures ghostMax > 0 ==> r >= mainHi || r >= ghostMax
  {
    var want := if mainHi > ghostMax then ghostMax else mainHi;
    if ghostMax == 0 || want <= capacity then capacity
    else
      var c := Rung(GHOST_FLOOR, want);
      var c' := if c > ghostMax then ghostMax else c;
      if c' <= capacity then capacity else c'
  }

  /** The capacity a decay leaves for the decayed watermark. */
  function ShrunkTo(capacity: nat, mainHi: nat, ghostMax: nat): (r: nat)
    requires capacity <= Ceiling(ghostMax)
    ensures r <= capacity && (r == capacity || r >= GHOST_FLOOR)
  {
    var c := Rung(GHOST_FLOOR, mainHi);
    var c' := if ghostMax > 0 && c > ghostMax then ghostMax else c;
    var c'' := if c' < GHOST_FLOOR then GHOST_FLOOR else c';
    if capacity == 0 || c'' >= capacity then capacity else c''
  }

  function Ceiling(ghostMax: nat): nat { if ghostMax < GHOST_FLOOR then GHOST_FLOOR else ghostMax }

  /** Grow toward the main queue's high watermark, never past the ceiling. */
  method MaybeGrow(g: Ring, mainHi: nat, ghostMax: nat)
    requires g.Valid() && g.ring.Length <= Ceiling(ghostMax)
    modifies g
    ensures g.Valid() && g.Contents() == old(g.Contents()) && (g.ring == old(g.ring) || fresh(g.ring))
    ensures g.ring.Length == GrownTo(old(g.ring.Length), mainHi, ghostMax)
  {
    if ghostMax == 0 { return; }
    var want := if mainHi > ghostMax then ghostMax else mainHi;
    if want <= g.ring.Length { return; }
    var capacity := Ladder(want);
    if capacity > ghostMax { capacity := ghostMax; }
    g.Grow(capacity);
  }

  /** Shrink toward the decayed watermark; the newest fingerprints stay. */
  method MaybeShrink(g: Ring, mainHi: nat, ghostMax: nat)
    requires g.Valid() && g.ring.Length <= Ceiling(ghostMax)
    modifies g
    ensures g.Valid() && (g.ring == old(g.ring) || fresh(g.ring))
    ensures g.ring.Length == ShrunkTo(old(g.ring.Length), mainHi, ghostMax)
    ensures g.Contents() == Newest(old(g.Contents()), g.ring.Length)
  {
    var want := Ladder(mainHi);
    if ghostMax > 0 && want > ghostMax { want := ghostMax; }
    g.Shrink(want);
  }

  /** One epoch turns a gap g above the current count into ceil(g / 2). */
  function Decayed(mainHi: nat, mainCount: nat): (r: nat)
    requires mainHi >= mainCount
    ensures mainCount <= r <= mainHi
    ensures r - mainCount == (mainHi - mainCount + 1) / 2
  {
    mainHi - (mainHi - mainCount) / 2
  }

  function Epochs(mainHi: nat, mainCount: nat, k: nat): nat
    requires mainHi >= mainCount
  {
    if k == 0 then mainHi else Epochs(Decayed(mainHi, mainCount), mainCount, k - 1)
  }

  function Pow2(k: nat): nat { if k == 0 then 1 else 2 * Pow2(k - 1) }

  /** With the count steady, the watermark comes within one of it after log2(gap) epochs, and there it stays. */
  lemma {:induction false} GapHalves(mainHi: nat, mainCount: nat, k: nat)
    requires mainCount <= mainHi <= mainCount + Pow2(k)
    ensures Epochs(mainHi, mainCount, k) == mainCount + if mainHi > mainCount then 1 else 0
    decreases k
  {
    if k > 0 { GapHalves(Decayed(mainHi, mainCount), mainCount, k - 1); }
  }
}
