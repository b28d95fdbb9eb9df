/** Sums over finite maps and occurrences in sequences: the arithmetic behind every ledger and queue of this project. */
module Sums {

  datatype Option<+T> = None | Some(value: T)

  /** The total of f over the values of m. */
  ghost function Sum<K(!new), V(!new)>(m: map<K, V>, f: V -> int): int
    decreases |m|
  {
    if m == map[] then 0
    else var k :| k in m; f(m[k]) + Sum(m - {k}, f)
  }

  /** Any entry may be taken out of the sum first. */
  lemma {:induction false} SumPick<K(!new), V(!new)>(m: map<K, V>, k: K, f: V -> int)
    requires k in m
    ensures Sum(m, f) == f(m[k]) + Sum(m - {k}, f)
    decreases |m|
  {
    var j :| j in m && Sum(m, f) == f(m[j]) + Sum(m - {j}, f);
    if j != k {
      SumPick(m - {j}, k, f);
      SumPick(m - {k}, j, f);
      assert (m - {j}) - {k} == (m - {k}) - {j};
    }
  }

  lemma SumInsert<K(!new), V(!new)>(m: map<K, V>, k: K, v: V, f: V -> int)
    requires k !in m
    ensures Sum(m[k := v], f) == Sum(m, f) + f(v)
  {
    SumPick(m[k := v], k, f);
    assert m[k := v] - {k} == m;
  }

  lemma SumUpdate<K(!new), V(!new)>(m: map<K, V>, k: K, v: V, f: V -> int)
    requires k in m
    ensures Sum(m[k := v], f) == Sum(m, f) - f(m[k]) + f(v)
  {
    SumPick(m, k, f);
    SumPick(m[k := v], k, f);
    assert m[k := v] - {k} == m - {k};
  }

  /** Every entry is at most the sum of non-negative entries. */
  lemma {:induction false} SumBound<K(!new), V(!new)>(m: map<K, V>, f: V -> int)
    requires forall k :: k in m ==> f(m[k]) >= 0
    ensures Sum(m, f) >= 0
    ensures forall k :: k in m ==> f(m[k]) <= Sum(m, f)
    decreases |m|
  {
    if m != map[] {
      forall k | k in m
        ensures 0 <= f(m[k]) <= Sum(m, f)
      {
        SumPick(m, k, f);
        SumBound(m - {k}, f);
      }
      var k :| k in m;
    }
  }

  /** Two measures that agree on every entry have the same sum. */
  lemma {:induction false} SumCongruent<K(!new), V(!new)>(m: map<K, V>, f: V -> int, g: V -> int)
    requires forall k :: k in m ==> f(m[k]) == g(m[k])
    ensures Sum(m, f) == Sum(m, g)
    decreases |m|
  {
    if m != map[] {
      var k :| k in m;
      SumPick(m, k, f);
      SumPick(m, k, g);
      SumCongruent(m - {k}, f, g);
    }
  }

  /** The sum of a pointwise sum. */
  lemma {:induction false} SumSplit<K(!new), V(!new)>(m: map<K, V>, f: V -> int, g: V -> int, h: V -> int)
    requires forall k :: k in m ==> f(m[k]) == g(m[k]) + h(m[k])
    ensures Sum(m, f) == Sum(m, g) + Sum(m, h)
    decreases |m|
  {
    if m != map[] {
      var k :| k in m;
      SumPick(m, k, f);
      SumPick(m, k, g);
      SumPick(m, k, h);
      SumSplit(m - {k}, f, g, h);
    }
  }

  /** A positive sum has a positive entry. */
  lemma {:induction false} SumWitness<K(!new), V(!new)>(m: map<K, V>, f: V -> int)
    requires Sum(m, f) > 0
    ensures exists k :: k in m && f(m[k]) > 0
    decreases |m|
  {
    var k :| k in m && Sum(m, f) == f(m[k]) + Sum(m - {k}, f);
    if f(m[k]) <= 0 {
      SumWitness(m - {k}, f);
      var j :| j in m - {k} && f((m - {k})[j]) > 0;
      assert j in m && f(m[j]) > 0;
    }
  }

  // ---- occurrences ----------------------------------------------------------------------------------

  function Occurs(q: seq<nat>, x: nat): nat { if q == [] then 0 else (if q[0] == x then 1 else 0) + Occurs(q[1..], x) }
  function InHand(o: Option<nat>, x: nat): nat { if o == Some(x) then 1 else 0 }

  lemma {:induction false} OccursConcat(a: seq<nat>, b: seq<nat>, x: nat)
    ensures Occurs(a + b, x) == Occurs(a, x) + Occurs(b, x)
    decreases |a|
  {
    if a == [] {
      assert a + b == b;
    } else {
      assert (a + b)[1..] == a[1..] + b;
      OccursConcat(a[1..], b, x);
    }
  }

  lemma OccursSnoc(q: seq<nat>, y: nat, x: nat)
    ensures Occurs(q + [y], x) == Occurs(q, x) + if y == x then 1 else 0
  {
    OccursConcat(q, [y], x);
    assert Occurs([y], x) == (if y == x then 1 else 0) + Occurs([y][1..], x);
  }

  lemma OccursNever(x: nat)
    ensures Occurs([], x) == 0
  {
  }

  lemma OccursHead(q: seq<nat>, x: nat)
    requires q != []
    ensures Occurs(q, x) == (if q[0] == x then 1 else 0) + Occurs(q[1..], x)
  {
  }

  /** q without its i-th element. */
  function Without<T>(q: seq<T>, i: nat): seq<T>
    requires i < |q|
  {
    q[..i] + q[i + 1..]
  }

  lemma WithoutHead<T>(q: seq<T>)
    requires q != []
    ensures Without(q, 0) == q[1..]
  {
  }

  lemma NonEmpty(s: set<int>)
    requires s != {}
    ensures exists x :: x in s
  {
    if forall x :: x !in s { assert false; }
  }
}
