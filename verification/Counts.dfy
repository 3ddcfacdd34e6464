/** How often a value occurs in a table or a list. */
module Counts {

  function One<T(==)>(a: T, b: T): nat { if a == b then 1 else 0 }

  /** The number of keys of `m` holding `v`. */
  ghost function CountIn<K>(m: map<K, nat>, v: nat): nat
    decreases |m|
  {
    if m == map[] then 0
    else
      var k :| k in m;
      One(m[k], v) + CountIn(m - {k}, v)
  }

  /** Any entry can be counted first. */
  lemma {:induction false} CountRemove<K>(m: map<K, nat>, k: K, v: nat)
    requires k in m
    ensures CountIn(m, v) == One(m[k], v) + CountIn(m - {k}, v)
    decreases |m|
  {
    var k0 :| k0 in m && CountIn(m, v) == One(m[k0], v) + CountIn(m - {k0}, v);
    if k0 != k {
      var m0, m1 := m - {k0}, m - {k};
      CountRemove(m0, k, v);
      CountRemove(m1, k0, v);
      assert m0 - {k} == m1 - {k0};
    }
  }

  /** Inserting counts the new value and discounts the one it displaces. */
  lemma CountInsert<K>(m: map<K, nat>, k: K, new_: nat, v: nat)
    ensures CountIn(m[k := new_], v) == CountIn(m, v) + One(new_, v) - if k in m then One(m[k], v) else 0
  {
    CountRemove(m[k := new_], k, v);
    assert m[k := new_] - {k} == m - {k};
    if k in m {
      CountRemove(m, k, v);
    } else {
      assert m - {k} == m;
    }
  }

  /** A value counted once sits under one key. */
  lemma CountUnique<K>(m: map<K, nat>, a: K, b: K, v: nat)
    requires CountIn(m, v) <= 1
    requires a in m && b in m && m[a] == v && m[b] == v
    ensures a == b
  {
    CountRemove(m, a, v);
    if a != b {
      CountRemove(m - {a}, b, v);
    }
  }

  /** The number of positions of `s` holding `v`. */
  function Occurrences<T(==)>(s: seq<T>, v: T): nat {
    if s == [] then 0 else Occurrences(s[..|s| - 1], v) + One(s[|s| - 1], v)
  }

  lemma OccurrencesSnoc<T>(s: seq<T>, x: T, v: T)
    ensures Occurrences(s + [x], v) == Occurrences(s, v) + One(x, v)
  {
    assert (s + [x])[..|s|] == s;
  }

  lemma {:induction false} OccurrencesConcat<T>(a: seq<T>, b: seq<T>, v: T)
    ensures Occurrences(a + b, v) == Occurrences(a, v) + Occurrences(b, v)
  {
    if b == [] {
      assert a + b == a;
    } else {
      assert (a + b)[..|a + b| - 1] == a + b[..|b| - 1];
      OccurrencesConcat(a, b[..|b| - 1], v);
    }
  }

  lemma {:induction false} OccurrencesMember<T>(s: seq<T>, v: T)
    ensures Occurrences(s, v) > 0 <==> v in s
  {
    if s != [] {
      var n := |s| - 1;
      assert s == s[..n] + [s[n]];
      OccurrencesMember(s[..n], v);
    }
  }
}
