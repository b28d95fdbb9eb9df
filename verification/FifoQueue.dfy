/**
 * The intrusive doubly linked FIFO of the eviction policy. Each call is proved
 * against the sequence of the linked entries (items) and against what those
 * entries hold (ents).
 */
module FifoQueue {
  import opened Sums

  /** A tracked block; freq counts touches up to 3. */
  datatype Ent = Ent(key: nat, size: nat, freq: nat)

  /** Where an entry is queued, if it is. */
  datatype Place = Unqueued | InSmall | InMain | Dead

  class Entry {
    const key: nat
    const size: nat
    var prev: Entry?
    var next: Entry?
    var place: Place
    var freq: nat

    constructor (key: nat, size: nat)
      ensures this.key == key && this.size == size && place == Unqueued && freq == 0
    {
      this.key, this.size, prev, next, place, freq := key, size, null, null, Unqueued, 0;
    }

    function Shown(): Ent
      reads `freq
    {
      Ent(key, size, freq)
    }
  }

  /** The entries of q are all different, and all in nodes. */
  ghost predicate Covers(nodes: set<Entry>, q: seq<Entry>) {
    && (forall i, j :: 0 <= i < j < |q| ==> q[i] != q[j])
    && (forall i :: 0 <= i < |q| ==> q[i] in nodes)
  }

  lemma CoversPush(nodes: set<Entry>, q: seq<Entry>, e: Entry)
    requires Covers(nodes, q) && e !in nodes
    ensures Covers(nodes + {e}, q + [e])
  {
  }

  lemma CoversDrop(nodes: set<Entry>, q: seq<Entry>, i: nat)
    requires Covers(nodes, q) && i < |q|
    ensures Covers(nodes - {q[i]}, Without(q, i))
  {
  }

  class Fifo {
    const place: Place
    var head: Entry?
    var tail: Entry?
    var count: nat
    ghost var items: seq<Entry>
    ghost var nodes: set<Entry>
    ghost var ents: seq<Ent>

    /** Entry i points at its neighbours and nothing else. */
    ghost predicate LinkedAt(i: nat)
      requires i < |items| && items[i] in nodes
      reads `items, `nodes, nodes`prev, nodes`next
    {
      && items[i].prev == (if i == 0 then null else items[i - 1])
      && items[i].next == (if i == |items| - 1 then null else items[i + 1])
    }

    ghost predicate Linked()
      reads `head, `tail, `count, `items, `nodes, nodes`prev, nodes`next
    {
      && count == |items| && Covers(nodes, items)
      && head == (if items == [] then null else items[0])
      && tail == (if items == [] then null else items[|items| - 1])
      && (forall i :: 0 <= i < |items| ==> LinkedAt(i))
    }

    /** The linked entries hold, in order, what ents says, and know which queue they are in. */
    ghost predicate Labelled()
      reads `items, `nodes, `ents, nodes`place, nodes`freq
    {
      |items| == |ents| && forall i :: 0 <= i < |items| ==> items[i] in nodes && items[i].Shown() == ents[i] && items[i].place == place
    }

    ghost predicate Valid()
      reads this, nodes
    {
      Linked() && Labelled()
    }

    lemma At(i: nat)
      requires Valid() && i < |items|
      ensures |items| == |ents| && items[i] in nodes && items[i].Shown() == ents[i] && items[i].place == place
    {
    }

    lemma Sizes()
      requires Valid()
      ensures count == |items| == |ents| && Covers(nodes, items)
    {
    }

    constructor (place: Place)
      ensures Valid() && items == [] && nodes == {} && ents == [] && this.place == place
    {
      this.place := place;
      head, tail, count, items, nodes, ents := null, null, 0, [], {}, [];
    }

    method PushTail(e: Entry)
      requires Valid() && e !in nodes
      modifies this, nodes`prev, nodes`next, e`prev, e`next, e`place
      ensures Valid() && items == old(items) + [e] && nodes == old(nodes) + {e} && ents == old(ents) + [e.Shown()]
    {
      hide Covers, LinkedAt;
      e.place := place;
      Append(e);
      ents := ents + [e.Shown()];
      assert items[|items| - 1] in nodes;
    }

    method Append(e: Entry)
      requires Linked() && e !in nodes
      modifies `head, `tail, `count, `items, `nodes, nodes`prev, nodes`next, e`prev, e`next
      ensures Linked() && items == old(items) + [e] && nodes == old(nodes) + {e}
    {
      CoversPush(nodes, items, e);
      e.prev, e.next := tail, null;
      if tail != null { tail.next := e; } else { head := e; }
      tail := e;
      count := count + 1;
      items, nodes := items + [e], nodes + {e};
      forall i | 0 <= i < |items| ensures LinkedAt(i) {
        if i < |items| - 1 { assert old(LinkedAt(i)); }
      }
    }

    method PopHead() returns (e: Entry)
      requires Valid() && items != []
      modifies this, nodes`prev, nodes`next
      ensures Valid() && e == old(items[0]) && items == old(items[1..]) && ents == old(ents[1..])
      ensures e in old(nodes) && nodes == old(nodes) - {e}
    {
      hide Labelled, LinkedAt, Without;
      At(0);
      WithoutHead(items);
      WithoutHead(ents);
      e := head;
      Unlink(e, 0);
    }

    /** Take out the i-th entry, wherever it is. */
    method Unlink(e: Entry, ghost i: nat)
      requires Valid() && i < |items| && items[i] == e
      modifies this, nodes`prev, nodes`next
      ensures Valid() && items == Without(old(items), i) && nodes == old(nodes) - {e}
      ensures ents == Without(old(ents), i)
    {
      hide LinkedAt;
      Detach(e, i);
      ents := Without(ents, i);
    }

    method Detach(e: Entry, ghost i: nat)
      requires Linked() && i < |items| && items[i] == e
      modifies `head, `tail, `count, `items, `nodes, nodes`prev, nodes`next
      ensures Linked() && items == Without(old(items), i) && nodes == old(nodes) - {e}
    {
      ghost var was := items;
      CoversDrop(nodes, items, i);
      assert LinkedAt(i) && (i > 0 ==> LinkedAt(i - 1)) && (i + 1 < |items| ==> LinkedAt(i + 1));
      assert (e.prev == null <==> i == 0) && (e.next == null <==> i == |items| - 1);
      if e.prev != null { e.prev.next := e.next; } else { head := e.next; }
      if e.next != null { e.next.prev := e.prev; } else { tail := e.prev; }
      e.prev, e.next := null, null;
      count := count - 1;
      items, nodes := Without(was, i), nodes - {e};
      forall j | 0 <= j < |items| ensures LinkedAt(j) {
        if j < i - 1 {
          assert old(LinkedAt(j));
        } else if j == i - 1 {
          assert i >= 2 ==> items[j - 1] == was[i - 2];
        } else if j == i {
          assert i + 2 < |was| ==> items[j + 1] == was[i + 2];
        } else {
          assert old(LinkedAt(j + 1));
        }
      }
    }

    /** Change the touch count of the i-th entry. */
    method SetFreq(e: Entry, n: nat, ghost i: nat)
      requires Valid() && i < |items| && items[i] == e
      modifies `ents, e`freq
      ensures Valid() && ents == old(ents)[i := e.Shown()] && e.freq == n
    {
      e.freq := n;
      ents := ents[i := e.Shown()];
    }
  }
}
