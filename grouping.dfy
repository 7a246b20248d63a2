/**
 * What `groupby(key)["amount"].sum()` and `sort_values` compute, on a
 * sequence of (key, amount) pairs: one entry per distinct key holding the
 * sum of that key's amounts, and a stable sort by a numeric rank.
 */
module Grouping {

  /** The sum of the amounts. */
  function Sum<K>(pairs: seq<(K, real)>): real
  {
    if pairs == [] then 0.0 else Sum(pairs[..|pairs| - 1]) + pairs[|pairs| - 1].1
  }

  /** The sum of the amounts whose key is `k`. */
  function SumFor<K(==,!new)>(pairs: seq<(K, real)>, k: K): real
  {
    if pairs == [] then 0.0
    else
      var last := pairs[|pairs| - 1];
      SumFor(pairs[..|pairs| - 1], k) + (if last.0 == k then last.1 else 0.0)
  }

  predicate HasKey<K(==,!new)>(pairs: seq<(K, real)>, k: K)
  {
    exists i :: 0 <= i < |pairs| && pairs[i].0 == k
  }

  predicate Distinct<T(==)>(s: seq<T>)
  {
    forall i, j :: 0 <= i < j < |s| ==> s[i] != s[j]
  }

  /** The distinct keys, in the order they first appear. */
  function Keys<K(==,!new)>(pairs: seq<(K, real)>): (ks: seq<K>)
    ensures forall k :: k in ks <==> HasKey(pairs, k)
    ensures Distinct(ks)
  {
    if pairs == [] then []
    else
      var init := pairs[..|pairs| - 1];
      var k := pairs[|pairs| - 1].0;
      var ks := Keys(init);
      assert forall j :: HasKey(pairs, j) <==> HasKey(init, j) || j == k by {
        forall j | HasKey(pairs, j) ensures HasKey(init, j) || j == k {
          var i :| 0 <= i < |pairs| && pairs[i].0 == j;
          if i < |init| {
            assert init[i].0 == j;
          }
        }
        forall j | HasKey(init, j) ensures HasKey(pairs, j) {
          var i :| 0 <= i < |init| && init[i].0 == j;
          assert pairs[i].0 == j;
        }
      }
      if k in ks then ks else ks + [k]
  }

  /** One (key, sum for that key) entry per key of `ks`, in that order. */
  function GroupedOver<K(==,!new)>(ks: seq<K>, pairs: seq<(K, real)>): (g: seq<(K, real)>)
    ensures |g| == |ks|
    ensures forall i :: 0 <= i < |g| ==> g[i].0 == ks[i]
    ensures forall i :: 0 <= i < |g| ==> g[i].1 == SumFor(pairs, ks[i])
  {
    if ks == [] then []
    else
      var last := ks[|ks| - 1];
      GroupedOver(ks[..|ks| - 1], pairs) + [(last, SumFor(pairs, last))]
  }

  /** `groupby(key)["amount"].sum().reset_index()`. */
  function Grouped<K(==,!new)>(pairs: seq<(K, real)>): seq<(K, real)>
  {
    GroupedOver(Keys(pairs), pairs)
  }

  // ---- One entry per distinct key, whose amount is the key's sum ----

  lemma GroupedEntries<K(!new)>(pairs: seq<(K, real)>)
    ensures forall e: (K, real) :: e in Grouped(pairs) <==> HasKey(pairs, e.0) && e.1 == SumFor(pairs, e.0)
  {
    var g := Grouped(pairs);
    var ks := Keys(pairs);
    forall e: (K, real) | HasKey(pairs, e.0) && e.1 == SumFor(pairs, e.0) ensures e in g {
      var i :| 0 <= i < |ks| && ks[i] == e.0;
      assert g[i] == e;
    }
  }

  /** No key appears in two entries. */
  lemma GroupedDistinctKeys<K(!new)>(pairs: seq<(K, real)>)
    ensures forall i, j :: 0 <= i < j < |Grouped(pairs)| ==> Grouped(pairs)[i].0 != Grouped(pairs)[j].0
  {
  }

  // ---- The entries account for every amount exactly once ----

  lemma SumAppend<K>(pairs: seq<(K, real)>, p: (K, real))
    ensures Sum(pairs + [p]) == Sum(pairs) + p.1
  {
    assert (pairs + [p])[..|pairs|] == pairs;
  }

  lemma SumForAppend<K(!new)>(pairs: seq<(K, real)>, p: (K, real), k: K)
    ensures SumFor(pairs + [p], k) == SumFor(pairs, k) + (if p.0 == k then p.1 else 0.0)
  {
    assert (pairs + [p])[..|pairs|] == pairs;
  }

  lemma {:induction false} SumForAbsent<K(!new)>(pairs: seq<(K, real)>, k: K)
    requires !HasKey(pairs, k)
    ensures SumFor(pairs, k) == 0.0
    decreases |pairs|
  {
    if pairs != [] {
      var init := pairs[..|pairs| - 1];
      assert forall i :: 0 <= i < |init| ==> init[i] == pairs[i];
      SumForAbsent(init, k);
    }
  }

  /** Adding one pair raises the sum of the (distinct) key `p.0`, and only that one. */
  lemma {:induction false} GroupedOverAppend<K(!new)>(ks: seq<K>, pairs: seq<(K, real)>, p: (K, real))
    requires Distinct(ks)
    ensures Sum(GroupedOver(ks, pairs + [p])) == Sum(GroupedOver(ks, pairs)) + (if p.0 in ks then p.1 else 0.0)
    decreases |ks|
  {
    if ks != [] {
      var init := ks[..|ks| - 1];
      var last := ks[|ks| - 1];
      assert Distinct(init);
      GroupedOverAppend(init, pairs, p);
      SumAppend(GroupedOver(init, pairs + [p]), (last, SumFor(pairs + [p], last)));
      SumAppend(GroupedOver(init, pairs), (last, SumFor(pairs, last)));
      SumForAppend(pairs, p, last);
      assert p.0 in ks <==> p.0 in init || p.0 == last;
      assert p.0 == last ==> p.0 !in init;
    }
  }

  lemma KeysSnoc<K(!new)>(init: seq<(K, real)>, p: (K, real))
    ensures Keys(init + [p]) == if p.0 in Keys(init) then Keys(init) else Keys(init) + [p.0]
  {
    assert (init + [p])[..|init|] == init;
  }

  lemma GroupedOverSnoc<K(!new)>(ks: seq<K>, k: K, pairs: seq<(K, real)>)
    ensures GroupedOver(ks + [k], pairs) == GroupedOver(ks, pairs) + [(k, SumFor(pairs, k))]
  {
    assert (ks + [k])[..|ks|] == ks;
  }

  /** A pair whose key was seen before adds its amount to that key's entry. */
  lemma GroupedSnocOld<K(!new)>(init: seq<(K, real)>, p: (K, real))
    requires p.0 in Keys(init)
    ensures Sum(Grouped(init + [p])) == Sum(Grouped(init)) + p.1
  {
    KeysSnoc(init, p);
    GroupedOverAppend(Keys(init), init, p);
  }

  /** A pair with a new key adds an entry holding just its amount. */
  lemma GroupedSnocNew<K(!new)>(init: seq<(K, real)>, p: (K, real))
    requires p.0 !in Keys(init)
    ensures Sum(Grouped(init + [p])) == Sum(Grouped(init)) + p.1
  {
    var ks := Keys(init);
    var pairs := init + [p];
    KeysSnoc(init, p);
    GroupedOverAppend(ks, init, p);
    SumForAbsent(init, p.0);
    SumForAppend(init, p, p.0);
    GroupedOverSnoc(ks, p.0, pairs);
    SumAppend(GroupedOver(ks, pairs), (p.0, SumFor(pairs, p.0)));
  }

  /** Grouping loses and duplicates nothing: the entries sum to the total of all amounts. */
  lemma {:induction false} GroupedTotal<K(!new)>(pairs: seq<(K, real)>)
    ensures Sum(Grouped(pairs)) == Sum(pairs)
    decreases |pairs|
  {
    if pairs != [] {
      var init := pairs[..|pairs| - 1];
      var p := pairs[|pairs| - 1];
      assert pairs == init + [p];
      GroupedTotal(init);
      SumAppend(init, p);
      if p.0 in Keys(init) {
        GroupedSnocOld(init, p);
      } else {
        GroupedSnocNew(init, p);
      }
    }
  }

  // ---- Stable sort by a numeric rank ----

  predicate SortedBy<T>(s: seq<T>, rank: T -> real)
  {
    forall i, j :: 0 <= i < j < |s| ==> rank(s[i]) <= rank(s[j])
  }

  /** `x` placed before the first element of `s` that does not rank below it. */
  function Insert<T>(x: T, s: seq<T>, rank: T -> real): (r: seq<T>)
    ensures multiset(r) == multiset(s) + multiset{x}
  {
    if s == [] then [x]
    else if rank(x) <= rank(s[0]) then [x] + s
    else
      var r := [s[0]] + Insert(x, s[1..], rank);
      assert s == [s[0]] + s[1..];
      r
  }

  predicate AllAtLeast<T>(s: seq<T>, b: real, rank: T -> real)
  {
    forall i :: 0 <= i < |s| ==> b <= rank(s[i])
  }

  lemma InsertAtLeast<T>(x: T, s: seq<T>, b: real, rank: T -> real)
    requires AllAtLeast(s, b, rank) && b <= rank(x)
    ensures AllAtLeast(Insert(x, s, rank), b, rank)
  {
    var r := Insert(x, s, rank);
    forall i | 0 <= i < |r| ensures b <= rank(r[i]) {
      assert r[i] in multiset(r);
      if r[i] != x {
        assert r[i] in multiset(s);
        var j :| 0 <= j < |s| && s[j] == r[i];
      }
    }
  }

  lemma {:induction false} InsertSorted<T>(x: T, s: seq<T>, rank: T -> real)
    requires SortedBy(s, rank)
    ensures SortedBy(Insert(x, s, rank), rank)
    decreases |s|
  {
    if s != [] && rank(x) > rank(s[0]) {
      var t := Insert(x, s[1..], rank);
      assert SortedBy(s[1..], rank);
      InsertSorted(x, s[1..], rank);
      InsertAtLeast(x, s[1..], rank(s[0]), rank);
      var r := [s[0]] + t;
      assert r == Insert(x, s, rank);
      forall i, j | 0 <= i < j < |r| ensures rank(r[i]) <= rank(r[j]) {
        if i > 0 {
          assert r[i] == t[i - 1] && r[j] == t[j - 1];
        } else {
          assert r[j] == t[j - 1];
        }
      }
    }
  }

  /** Insertion sort by ascending rank; elements of equal rank keep their order. */
  function SortBy<T>(s: seq<T>, rank: T -> real): (r: seq<T>)
    ensures multiset(r) == multiset(s)
    ensures SortedBy(r, rank)
  {
    if s == [] then []
    else
      assert s == [s[0]] + s[1..];
      InsertSorted(s[0], SortBy(s[1..], rank), rank);
      Insert(s[0], SortBy(s[1..], rank), rank)
  }

  lemma {:induction false} SumCons<K>(p: (K, real), pairs: seq<(K, real)>)
    ensures Sum([p] + pairs) == p.1 + Sum(pairs)
    decreases |pairs|
  {
    if pairs != [] {
      var init := pairs[..|pairs| - 1];
      assert ([p] + pairs)[..|pairs|] == [p] + init;
      SumCons(p, init);
    }
  }

  lemma {:induction false} SumInsert<K>(x: (K, real), s: seq<(K, real)>, rank: ((K, real)) -> real)
    ensures Sum(Insert(x, s, rank)) == x.1 + Sum(s)
    decreases |s|
  {
    if s != [] {
      assert s == [s[0]] + s[1..];
      SumCons(s[0], s[1..]);
      if rank(x) <= rank(s[0]) {
        SumCons(x, s);
      } else {
        SumInsert(x, s[1..], rank);
        SumCons(s[0], Insert(x, s[1..], rank));
      }
    } else {
      SumCons(x, []);
    }
  }

  /** Sorting does not change the sum of the amounts. */
  lemma {:induction false} SumSortBy<K>(s: seq<(K, real)>, rank: ((K, real)) -> real)
    ensures Sum(SortBy(s, rank)) == Sum(s)
    decreases |s|
  {
    if s != [] {
      assert s == [s[0]] + s[1..];
      SumSortBy(s[1..], rank);
      SumInsert(s[0], SortBy(s[1..], rank), rank);
      SumCons(s[0], s[1..]);
    }
  }

  lemma PermutationMembers<T>(a: seq<T>, b: seq<T>)
    requires multiset(a) == multiset(b)
    ensures forall e :: e in a <==> e in b
  {
    forall e ensures e in a <==> e in b {
      assert e in a <==> e in multiset(a);
      assert e in b <==> e in multiset(b);
    }
  }

  lemma PermutationLength<T>(a: seq<T>, b: seq<T>)
    requires multiset(a) == multiset(b)
    ensures |a| == |b|
  {
    assert |multiset(a)| == |a| && |multiset(b)| == |b|;
  }

  lemma {:induction false} DistinctOnce<T>(s: seq<T>, x: T)
    requires Distinct(s)
    ensures multiset(s)[x] <= 1
    decreases |s|
  {
    if s != [] {
      assert s == [s[0]] + s[1..];
      assert Distinct(s[1..]);
      DistinctOnce(s[1..], x);
      if x == s[0] {
        assert x !in s[1..];
      }
    }
  }

  lemma Twice<T>(s: seq<T>, i: nat, j: nat)
    requires i < j < |s|
    ensures s[i] == s[j] ==> multiset(s)[s[i]] >= 2
  {
    assert s == s[..j] + [s[j]] + s[j + 1..];
    assert s[i] in s[..j];
  }

  /** Reordering keeps a sequence free of repeats. */
  lemma PermutationDistinct<T>(a: seq<T>, b: seq<T>)
    requires multiset(a) == multiset(b) && Distinct(a)
    ensures Distinct(b)
  {
    forall i, j | 0 <= i < j < |b| ensures b[i] != b[j] {
      Twice(b, i, j);
      DistinctOnce(a, b[i]);
    }
  }
}
