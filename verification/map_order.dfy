/**
 Go leaves the iteration order of a map unspecified, and the provisioner
 ranges over maps both to build argument lists and to launch workers. The
 model makes that order an explicit input: a sequence listing every key of
 the map exactly once. This module holds that notion and the counting facts
 about duplicate-free sequences the other modules rely on.
 */
module MapOrder {

  /** No element occurs twice. */
  predicate Distinct<T(==)>(s: seq<T>) {
    forall i, j | 0 <= i < j < |s| :: s[i] != s[j]
  }

  /** `order` lists every key of `m` exactly once, and nothing else. */
  predicate Enumerates<K(==), V>(order: seq<K>, m: map<K, V>) {
    && Distinct(order)
    && (forall k | k in order :: k in m)
    && (forall k | k in m :: k in order)
  }

  /** A duplicate-free sequence has as many elements as its set of elements. */
  lemma {:induction false} DistinctCardinality<T>(s: seq<T>)
    requires Distinct(s)
    ensures |set x | x in s| == |s|
  {
    if s != [] {
      assert Distinct(s[1..]) by {
        forall i, j | 0 <= i < j < |s[1..]|
          ensures s[1..][i] != s[1..][j]
        {
          assert s[1..][i] == s[i + 1] && s[1..][j] == s[j + 1];
        }
      }
      DistinctCardinality(s[1..]);
      assert s[0] !in s[1..] by {
        forall i | 0 <= i < |s[1..]|
          ensures s[1..][i] != s[0]
        {
          assert s[1..][i] == s[i + 1];
        }
      }
      assert (set x | x in s) == (set x | x in s[1..]) + {s[0]} by {
        assert s == [s[0]] + s[1..];
      }
    }
  }

  /** An enumeration of a map is exactly as long as the map. */
  lemma EnumerationLength<K, V>(order: seq<K>, m: map<K, V>)
    requires Enumerates(order, m)
    ensures |order| == |m|
  {
    DistinctCardinality(order);
    assert (set x | x in order) == m.Keys;
  }

  /** In a duplicate-free sequence every value occurs at most once. */
  lemma {:induction false} DistinctCountAtMostOne<T>(s: seq<T>, x: T)
    requires Distinct(s)
    ensures multiset(s)[x] <= 1
  {
    if s != [] {
      var t := s[1..];
      assert Distinct(t) by {
        forall i, j | 0 <= i < j < |t|
          ensures t[i] != t[j]
        {
          assert t[i] == s[i + 1] && t[j] == s[j + 1];
        }
      }
      DistinctCountAtMostOne(t, x);
      assert s == [s[0]] + t;
      assert multiset(s) == multiset{s[0]} + multiset(t);
      if x == s[0] {
        assert x !in t by {
          forall i | 0 <= i < |t|
            ensures t[i] != x
          {
            assert t[i] == s[i + 1];
          }
        }
        assert multiset(t)[x] == 0;
      }
    }
  }

  /** A value found at two positions occurs at least twice. */
  lemma RepeatCountsTwice<T>(s: seq<T>, i: nat, j: nat)
    requires i < j < |s| && s[i] == s[j]
    ensures multiset(s)[s[i]] >= 2
  {
    var front := s[..j];
    assert s == front + [s[j]] + s[j + 1..];
    assert multiset(s) == multiset(front) + multiset{s[j]} + multiset(s[j + 1..]);
    assert front[i] == s[i];
    assert s[i] in multiset(front);
  }
}
