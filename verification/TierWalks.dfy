/**
 * What a latched walk of a segment meets, visit by visit. Between two visits any
 * other goroutine may run: env gives the steps the others took before the n-th
 * one and what the clock then read, order the sequence in which the footer's
 * keys were visited.
 */
module TierWalks {
  import opened Sums
  import opened TierMachine
  import opened TierLedger
  import opened TierExact
  import opened TierDurability
  import opened TierOwners

  datatype Slot = Slot(others: seq<Step>, now: int)

  /** The entry is homed in the segment and protected. */
  predicate Guards(s: State, id: SegId, k: Key, now: int) { k in s.idx && s.idx[k].seg == id && s.idx[k].Protected(now) }

  /** Distinct keys, all from the given set. */
  ghost predicate Among(order: seq<Key>, keys: set<Key>) {
    (forall k :: k in order ==> k in keys) && (forall i, j :: 0 <= i < j < |order| ==> order[i] != order[j])
  }

  /** Every key of the set, each once. */
  ghost predicate Lists(order: seq<Key>, keys: set<Key>) { Among(order, keys) && forall k :: k in keys ==> k in order }

  lemma AmongNone(keys: set<Key>)
    ensures Among([], keys)
  {
  }

  lemma ListsSnoc(order: seq<Key>, keys: set<Key>, rest: set<Key>, k: Key)
    requires rest <= keys && Lists(order, keys - rest) && k in rest
    ensures Lists(order + [k], keys - (rest - {k})) && Among(order + [k], keys)
  {
    var next := order + [k];
    assert forall x :: x in next <==> x in order || x == k;
    assert keys - (rest - {k}) == (keys - rest) + {k};
  }

  predicate Retirable(s: State, id: SegId) { id in s.segs && s.segs[id].sealed && !s.segs[id].dying }

  // ---- the pre-gate ------------------------------------------------------------------------

  function Ran(s: State, env: nat -> Slot, n: nat): State {
    if n == 0 then s else Run(Ran(s, env, n - 1), env(n - 1).others)
  }

  predicate GateMeets(s: State, id: SegId, order: seq<Key>, now: int, env: nat -> Slot, i: nat) {
    i < |order| && Guards(Ran(s, env, i + 1), id, order[i], now)
  }

  ghost predicate GateStops(s: State, id: SegId, order: seq<Key>, now: int, env: nat -> Slot) {
    exists i: nat :: GateMeets(s, id, order, now, env, i)
  }

  lemma GateNone(s: State, id: SegId, now: int, env: nat -> Slot)
    ensures !GateStops(s, id, [], now, env)
  {
  }

  lemma GateSnoc(s: State, id: SegId, order: seq<Key>, k: Key, now: int, env: nat -> Slot)
    ensures GateStops(s, id, order + [k], now, env) <==>
      GateStops(s, id, order, now, env) || Guards(Ran(s, env, |order| + 1), id, k, now)
  {
    hide Guards, Ran;
    var next := order + [k];
    if i: nat :| GateMeets(s, id, order, now, env, i) {
      assert GateMeets(s, id, next, now, env, i);
    }
    if Guards(Ran(s, env, |order| + 1), id, k, now) {
      assert GateMeets(s, id, next, now, env, |order|);
    }
    if i: nat :| GateMeets(s, id, next, now, env, i) && i < |order| {
      assert GateMeets(s, id, order, now, env, i);
    }
  }

  // ---- the flip-out walk -------------------------------------------------------------------

  function Flipped(s: State, id: SegId, order: seq<Key>, env: nat -> Slot): State
    decreases |order|
  {
    if order == [] then s
    else
      var n := |order| - 1;
      FlipOut(Run(Flipped(s, id, order[..n], env), env(n).others), id, order[n], env(n).now)
  }

  /** What visit i finds at its key: an entry still homed here, not flipped, and protected. */
  predicate FlipMeets(s: State, id: SegId, order: seq<Key>, env: nat -> Slot, i: nat) {
    i < |order| && Strands(Run(Flipped(s, id, order[..i], env), env(i).others), id, order[i], env(i).now)
  }

  predicate Strands(s: State, id: SegId, k: Key, now: int) { Guards(s, id, k, now) && !s.idx[k].s3Only }

  ghost predicate FlipStops(s: State, id: SegId, order: seq<Key>, env: nat -> Slot) {
    exists i: nat :: FlipMeets(s, id, order, env, i)
  }

  lemma FlipNone(s: State, id: SegId, env: nat -> Slot)
    ensures Flipped(s, id, [], env) == s && !FlipStops(s, id, [], env)
  {
  }

  lemma FlipSnoc(s: State, id: SegId, order: seq<Key>, k: Key, env: nat -> Slot)
    ensures var seen := Run(Flipped(s, id, order, env), env(|order|).others);
      && Flipped(s, id, order + [k], env) == FlipOut(seen, id, k, env(|order|).now)
      && (FlipStops(s, id, order + [k], env) <==> FlipStops(s, id, order, env) || Strands(seen, id, k, env(|order|).now))
  {
    hide Strands, FlipOut, Run;
    var next := order + [k];
    assert next[..|order|] == order;
    assert Flipped(s, id, next, env) == FlipOut(Run(Flipped(s, id, order, env), env(|order|).others), id, k, env(|order|).now);
    hide Flipped;
    if Strands(Run(Flipped(s, id, order, env), env(|order|).others), id, k, env(|order|).now) {
      assert FlipMeets(s, id, next, env, |order|);
    }
    if i: nat :| FlipMeets(s, id, order, env, i) {
      assert next[..i] == order[..i];
      assert FlipMeets(s, id, next, env, i);
    }
    if i: nat :| FlipMeets(s, id, next, env, i) && i < |order| {
      assert next[..i] == order[..i];
      assert FlipMeets(s, id, order, env, i);
    }
  }

  /** Only a protected local entry dooms the retire: an entry of a spilled segment never lacks its copy. */
  lemma StrandStep(s: State, id: SegId, k: Key, now: int)
    requires Durable(s) && id in s.latch && s.latch[id].FlippingOut?
    ensures var t := FlipOut(s, id, k, now);
      && id in t.latch && t.latch[id].FlippingOut?
      && (t.latch[id].stranded > 0 <==> s.latch[id].stranded > 0 || Strands(s, id, k, now))
  {
    hide MoveOut;
    OwnerAt(s, id);
    SegmentAt(s, id);
  }

  // ---- the flip-home walk ----------------------------------------------------------------------

  function Homed(s: State, id: SegId, order: seq<Key>, env: nat -> Slot): State
    decreases |order|
  {
    if order == [] then s
    else
      var n := |order| - 1;
      FlipHome(Run(Homed(s, id, order[..n], env), env(n).others), id, order[n])
  }

  /** How many visits found an s3-resident entry of the segment. */
  function Homecomings(s: State, id: SegId, order: seq<Key>, env: nat -> Slot): nat
    decreases |order|
  {
    if order == [] then 0
    else
      var n := |order| - 1;
      var seen := Run(Homed(s, id, order[..n], env), env(n).others);
      Homecomings(s, id, order[..n], env) + if FlipsHome(seen, id, order[n]) then 1 else 0
  }

  lemma HomeNone(s: State, id: SegId, env: nat -> Slot)
    ensures Homed(s, id, [], env) == s && Homecomings(s, id, [], env) == 0
  {
  }

  lemma HomeSnoc(s: State, id: SegId, order: seq<Key>, k: Key, env: nat -> Slot)
    ensures var seen := Run(Homed(s, id, order, env), env(|order|).others);
      && Homed(s, id, order + [k], env) == FlipHome(seen, id, k)
      && Homecomings(s, id, order + [k], env) == Homecomings(s, id, order, env) + if FlipsHome(seen, id, k) then 1 else 0
  {
    hide FlipHome, FlipsHome, Run;
    assert (order + [k])[..|order|] == order;
  }

  // ---- the delete walk -----------------------------------------------------------------------

  /** One visit, and, when it removed the entry, the two atomics of its refund. */
  function ClearOne(s: State, id: SegId, k: Key, env: (nat, nat) -> Slot, n: nat): State {
    var seen := Run(s, env(n, s.nextGone).others);
    var now := env(n, s.nextGone).now;
    var t := RemoveVisit(seen, id, k, now);
    if Removes(seen, id, k, now) then Refunded(t, seen.nextGone, env(n + 1, seen.nextGone).others, env(n + 2, seen.nextGone).others)
    else t
  }

  /** The refund of removed ref g, with others running before each atomic. */
  function Refunded(s: State, g: nat, first: seq<Step>, second: seq<Step>): State {
    Return(Run(Unlink(Run(s, first), g), second), g)
  }

  function Cleared(s: State, id: SegId, order: seq<Key>, env: (nat, nat) -> Slot): State
    decreases |order|
  {
    if order == [] then s
    else
      var n := |order| - 1;
      ClearOne(Cleared(s, id, order[..n], env), id, order[n], env, 3 * n)
  }

  predicate ClearMeets(s: State, id: SegId, order: seq<Key>, env: (nat, nat) -> Slot, i: nat) {
    i < |order| && Blocks(Cleared(s, id, order[..i], env), id, order[i], env, 3 * i)
  }

  predicate Blocks(s: State, id: SegId, k: Key, env: (nat, nat) -> Slot, n: nat) {
    Guards(Run(s, env(n, s.nextGone).others), id, k, env(n, s.nextGone).now)
  }

  ghost predicate ClearStops(s: State, id: SegId, order: seq<Key>, env: (nat, nat) -> Slot) {
    exists i: nat :: ClearMeets(s, id, order, env, i)
  }

  lemma ClearNone(s: State, id: SegId, env: (nat, nat) -> Slot)
    ensures Cleared(s, id, [], env) == s && !ClearStops(s, id, [], env)
  {
  }

  lemma ClearSnoc(s: State, id: SegId, order: seq<Key>, k: Key, env: (nat, nat) -> Slot)
    ensures var t := Cleared(s, id, order, env);
      && Cleared(s, id, order + [k], env) == ClearOne(t, id, k, env, 3 * |order|)
      && (ClearStops(s, id, order + [k], env) <==> ClearStops(s, id, order, env) || Blocks(t, id, k, env, 3 * |order|))
  {
    hide Blocks, ClearOne;
    var next := order + [k];
    assert next[..|order|] == order;
    if Blocks(Cleared(s, id, order, env), id, k, env, 3 * |order|) {
      assert ClearMeets(s, id, next, env, |order|);
    }
    if i: nat :| ClearMeets(s, id, order, env, i) {
      assert next[..i] == order[..i];
      assert ClearMeets(s, id, next, env, i);
    }
    if i: nat :| ClearMeets(s, id, next, env, i) && i < |order| {
      assert next[..i] == order[..i];
      assert ClearMeets(s, id, order, env, i);
    }
  }

  // ---- the retire ----------------------------------------------------------------------------

  type Env = (nat, SegId, nat) -> Slot

  function FlipEnv(env: Env, id: SegId): nat -> Slot { (n: nat) => env(n, id, 0) }
  function ClearEnv(env: Env, id: SegId): (nat, nat) -> Slot { (n: nat, g: nat) => env(n, id, g) }
  function GateEnv(env: (nat, SegId) -> Slot, id: SegId): nat -> Slot { (n: nat) => env(n, id) }

  /** The walk that follows RetireBegin in s meets a protected entry. */
  ghost predicate WalkStops(s: State, id: SegId, order: seq<Key>, env: Env) {
    var t := RetireBegin(s, id);
    if id in s.segs && s.segs[id].spilled then FlipStops(t, id, order, FlipEnv(env, id)) else ClearStops(t, id, order, ClearEnv(env, id))
  }

  /** An object copy decides which walk follows. */
  lemma WalkKind(s: State, id: SegId, env: Env)
    requires id in s.latch && s.latch[id].Reclaiming?
    ensures var t := RetireBegin(s, id);
      && id in t.latch
      && (!t.latch[id].Reclaiming? <==> Retirable(s, id))
      && (t.latch[id].FlippingOut? ==> forall order :: WalkStops(s, id, order, env) <==> FlipStops(t, id, order, FlipEnv(env, id)))
      && (t.latch[id].Removing? ==> forall order :: WalkStops(s, id, order, env) <==> ClearStops(t, id, order, ClearEnv(env, id)))
  {
    hide FlipStops, ClearStops;
  }

  // ---- with nobody else running ----------------------------------------------------------------

  ghost predicate NobodyRuns(before: seq<Step>, gate: (nat, SegId) -> Slot, env: Env) {
    before == [] && (forall n, j :: gate(n, j).others == []) && (forall n, j, g :: env(n, j, g).others == [])
  }

  /** Entries of s with their home and their protection, or fewer. */
  ghost predicate NoNewGuards(s: State, t: State, id: SegId) {
    forall k, now :: Guards(t, id, k, now) ==> Guards(s, id, k, now)
  }

  lemma {:induction false} QuietRan(s: State, env: nat -> Slot, n: nat)
    requires forall i :: env(i).others == []
    ensures Ran(s, env, n) == s
  {
    if n == 0 {
    } else {
      QuietRan(s, env, n - 1);
    }
  }

  lemma FlipNoNew(s: State, id: SegId, k: Key, now: int)
    ensures NoNewGuards(s, FlipOut(s, id, k, now), id)
  {
  }

  lemma {:induction false} QuietFlipped(s: State, id: SegId, order: seq<Key>, env: nat -> Slot)
    requires forall i :: env(i).others == []
    ensures NoNewGuards(s, Flipped(s, id, order, env), id)
    decreases |order|
  {
    hide FlipOut, Guards;
    if order == [] {
    } else {
      var n := |order| - 1;
      QuietFlipped(s, id, order[..n], env);
      FlipNoNew(Flipped(s, id, order[..n], env), id, order[n], env(n).now);
    }
  }

  lemma ClearNoNew(s: State, id: SegId, k: Key, env: (nat, nat) -> Slot, n: nat)
    requires forall i, g :: env(i, g).others == []
    ensures NoNewGuards(s, ClearOne(s, id, k, env, n), id)
  {
    hide Refund, SegAdd;
    var now := env(n, s.nextGone).now;
    var t := RemoveVisit(s, id, k, now);
    assert NoNewGuards(s, t, id);
    assert Unlink(t, s.nextGone).idx == t.idx;
    assert Return(Unlink(t, s.nextGone), s.nextGone).idx == t.idx;
  }

  lemma {:induction false} QuietCleared(s: State, id: SegId, order: seq<Key>, env: (nat, nat) -> Slot)
    requires forall i, g :: env(i, g).others == []
    ensures NoNewGuards(s, Cleared(s, id, order, env), id)
    decreases |order|
  {
    hide ClearOne, Guards;
    if order == [] {
    } else {
      var n := |order| - 1;
      QuietCleared(s, id, order[..n], env);
      ClearNoNew(Cleared(s, id, order[..n], env), id, order[n], env, 3 * n);
    }
  }

  lemma QuietFlipVisit(s: State, id: SegId, order: seq<Key>, env: nat -> Slot, i: nat)
    requires forall n :: env(n).others == []
    requires i < |order| ==> !Guards(s, id, order[i], env(i).now)
    ensures !FlipMeets(s, id, order, env, i)
  {
    hide Flipped;
    if i < |order| {
      QuietFlipped(s, id, order[..i], env);
    }
  }

  lemma QuietClearVisit(s: State, id: SegId, order: seq<Key>, env: (nat, nat) -> Slot, i: nat)
    requires forall n, g :: env(n, g).others == []
    requires i < |order| ==> forall g :: !Guards(s, id, order[i], env(3 * i, g).now)
    ensures !ClearMeets(s, id, order, env, i)
  {
    hide Cleared;
    if i < |order| {
      QuietCleared(s, id, order[..i], env);
    }
  }

  /** With nobody else running, the walk meets only what was protected when it began. */
  lemma QuietWalk(s: State, id: SegId, order: seq<Key>, env: Env)
    requires forall n, j, g :: env(n, j, g).others == []
    requires forall k, n, g :: k in order ==> !Guards(s, id, k, env(n, id, g).now)
    ensures !WalkStops(s, id, order, env)
  {
    hide FlipMeets, ClearMeets;
    var t := RetireBegin(s, id);
    assert t.idx == s.idx;
    forall i: nat ensures !FlipMeets(t, id, order, FlipEnv(env, id), i) {
      assert i < |order| ==> order[i] in order && !Guards(s, id, order[i], env(i, id, 0).now);
      QuietFlipVisit(t, id, order, FlipEnv(env, id), i);
    }
    forall i: nat ensures !ClearMeets(t, id, order, ClearEnv(env, id), i) {
      assert i < |order| ==> order[i] in order && forall g :: !Guards(s, id, order[i], env(3 * i, id, g).now);
      QuietClearVisit(t, id, order, ClearEnv(env, id), i);
    }
  }

  // ---- single calls on an entry ------------------------------------------------------------------

  /** A lease or a pin protects exactly its own entry, exactly while it lasts. */
  lemma ProtectionShows(s: State, k: Key, until: int, pin: bool, j: Key, id: SegId, now: int)
    requires k in s.idx
    ensures Guards(Next(s, Entry(SetProtection(k, until, pin))), id, j, now) <==>
      if j == k then s.idx[k].seg == id && (until > now || pin) else Guards(s, id, j, now)
  {
  }

  /** The self-heal removes the ref that was read, and owes its charge; a ref that took its place stays. */
  lemma HealTakesTheReadRef(s: State, k: Key, i: RefId)
    requires k in s.idx
    ensures var n := Next(s, Entry(HealKey(k, i)));
      if s.idx[k].id == i then n.idx == s.idx - {k} && Owes(n, s.nextGone, Gone(s.idx[k], Removed)) else n == s
  {
  }
}
