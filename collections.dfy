/** A document collection in natural (insertion) order, and the store operations
    the handlers use on it: lookup by key, `deleteMany` by key, sorting by a
    timestamp, and `skip`/`limit` paging.

    Keys are given as named functions (`Records.ReportKey` and the like), so that a
    contract and a body that mention the same key mean the same function. */
module Collections {
  import opened Common

  /** No element of `s` has key `k`: `k` is free for a new document. */
  predicate Fresh<T(==), K(==)>(s: seq<T>, key: T -> K, k: K) {
    forall x :: x in s ==> key(x) != k
  }

  /** No two elements share a key: the collection's unique `_id` index. */
  ghost predicate UniqueBy<T, K>(s: seq<T>, key: T -> K) {
    forall i, j :: 0 <= i < j < |s| ==> key(s[i]) != key(s[j])
  }

  /** The position of the first element whose key is `k` (`findById`). */
  function IndexOf<T(==), K(==)>(s: seq<T>, key: T -> K, k: K): (r: Option<nat>)
    ensures r.Some? ==> r.value < |s| && key(s[r.value]) == k
    ensures r.Some? ==> forall j :: 0 <= j < r.value ==> key(s[j]) != k
    ensures r.None? <==> Fresh(s, key, k)
  {
    if s == [] then None
    else if key(s[0]) == k then Some(0)
    else
      var rest := IndexOf(s[1..], key, k);
      assert forall x :: x in s ==> x == s[0] || x in s[1..];
      if rest.None? then None else Some(rest.value + 1)
  }

  /** Under a unique key, the element found is the only one with that key. */
  lemma {:induction false} IndexOfUnique<T, K>(s: seq<T>, key: T -> K, k: K, j: nat)
    requires UniqueBy(s, key)
    requires j < |s| && key(s[j]) == k
    ensures IndexOf(s, key, k) == Some(j)
  {
    assert s[j] in s;
  }

  /** The elements whose key is `k`, in order (`find({field: k})`). */
  function Where<T(==), K(==)>(s: seq<T>, key: T -> K, k: K): (r: seq<T>)
    ensures |r| <= |s|
    ensures forall x :: x in r ==> x in s && key(x) == k
    ensures forall x :: x in s && key(x) == k ==> x in r
  {
    if s == [] then []
    else
      assert forall x :: x in s ==> x == s[0] || x in s[1..];
      (if key(s[0]) == k then [s[0]] else []) + Where(s[1..], key, k)
  }

  /** The elements whose key is not `k`, in order: what `deleteMany({field: k})`
      leaves behind. */
  function Without<T(==), K(==)>(s: seq<T>, key: T -> K, k: K): (r: seq<T>)
    ensures |r| <= |s|
    ensures forall x :: x in r ==> x in s && key(x) != k
    ensures forall x :: x in s && key(x) != k ==> x in r
  {
    if s == [] then []
    else
      assert forall x :: x in s ==> x == s[0] || x in s[1..];
      (if key(s[0]) != k then [s[0]] else []) + Without(s[1..], key, k)
  }

  /** `deleteMany` splits the collection: what it removes and what it keeps
      together make up the collection. */
  lemma {:induction false} WhereWithoutPartition<T, K>(s: seq<T>, key: T -> K, k: K)
    ensures multiset(Where(s, key, k)) + multiset(Without(s, key, k)) == multiset(s)
  {
    if s != [] {
      WhereWithoutPartition(s[1..], key, k);
      assert s == [s[0]] + s[1..];
    }
  }

  /** Removing by a key that no element has changes nothing. */
  lemma {:induction false} WithoutFresh<T, K>(s: seq<T>, key: T -> K, k: K)
    requires Fresh(s, key, k)
    ensures Without(s, key, k) == s
  {
    if s != [] {
      assert s[0] in s;
      assert Fresh(s[1..], key, k) by {
        forall x | x in s[1..] ensures key(x) != k { assert x in s; }
      }
      WithoutFresh(s[1..], key, k);
      assert s == [s[0]] + s[1..];
    }
  }

  /** Under a unique key, removing by a key that is present removes exactly one
      element (`findByIdAndDelete`). */
  lemma {:induction false} WithoutPresentRemovesOne<T, K>(s: seq<T>, key: T -> K, k: K)
    requires UniqueBy(s, key)
    requires !Fresh(s, key, k)
    ensures |Without(s, key, k)| == |s| - 1
  {
    assert s != [];
    assert UniqueBy(s[1..], key) by {
      forall i, j | 0 <= i < j < |s[1..]| ensures key(s[1..][i]) != key(s[1..][j]) {
        assert s[1..][i] == s[i + 1] && s[1..][j] == s[j + 1];
      }
    }
    if key(s[0]) == k {
      assert Fresh(s[1..], key, k) by {
        forall x | x in s[1..] ensures key(x) != k {
          var j :| 0 <= j < |s[1..]| && s[1..][j] == x;
          assert s[j + 1] == x;
        }
      }
      WithoutFresh(s[1..], key, k);
    } else {
      assert !Fresh(s[1..], key, k) by {
        var x :| x in s && key(x) == k;
        var j :| 0 <= j < |s| && s[j] == x;
        assert j > 0 && s[1..][j - 1] == x;
      }
      WithoutPresentRemovesOne(s[1..], key, k);
    }
  }

  /** Under unique ids, a document that `deleteMany` matched can no longer be
      found by its id: no remaining document shares it. */
  lemma WithoutDropsMatchedIds<T, K, L>(s: seq<T>, key: T -> K, k: K, id: T -> L, x: T)
    requires UniqueBy(s, id)
    requires x in s && key(x) == k
    ensures Fresh(Without(s, key, k), id, id(x))
  {
    var b :| 0 <= b < |s| && s[b] == x;
    forall y | y in Without(s, key, k) ensures id(y) != id(x) {
      var a :| 0 <= a < |s| && s[a] == y;
      assert a != b;
    }
  }

  /** Removing documents never makes two of the rest share an id. */
  lemma {:induction false} WithoutKeepsUnique<T, K, L>(s: seq<T>, key: T -> K, k: K, id: T -> L)
    requires UniqueBy(s, id)
    ensures UniqueBy(Without(s, key, k), id)
  {
    if s != [] {
      assert UniqueBy(s[1..], id) by {
        forall i, j | 0 <= i < j < |s[1..]| ensures id(s[1..][i]) != id(s[1..][j]) {
          assert s[1..][i] == s[i + 1] && s[1..][j] == s[j + 1];
        }
      }
      WithoutKeepsUnique(s[1..], key, k, id);
      var rest := Without(s[1..], key, k);
      if key(s[0]) != k {
        forall x | x in rest ensures id(x) != id(s[0]) {
          var j :| 0 <= j < |s[1..]| && s[1..][j] == x;
          assert s[j + 1] == x;
        }
        var r := [s[0]] + rest;
        forall i, j | 0 <= i < j < |r| ensures id(r[i]) != id(r[j]) {
          if i == 0 {
            assert r[j] == rest[j - 1] && rest[j - 1] in rest;
          } else {
            assert r[i] == rest[i - 1] && r[j] == rest[j - 1];
          }
        }
      }
    }
  }

  /** Appending a document under a fresh key keeps the keys unique (`save` of
      a new document). */
  lemma AppendFreshKeepsUnique<T, K>(s: seq<T>, key: T -> K, x: T)
    requires UniqueBy(s, key)
    requires forall y :: y in s ==> key(y) != key(x)
    ensures UniqueBy(s + [x], key)
  {
    forall i, j | 0 <= i < j < |s + [x]| ensures key((s + [x])[i]) != key((s + [x])[j]) {
      if j == |s| {
        assert (s + [x])[i] == s[i] && s[i] in s;
      } else {
        assert (s + [x])[i] == s[i] && (s + [x])[j] == s[j];
      }
    }
  }

  /** Replacing a document by one with the same key keeps the keys unique (an
      update in place). */
  lemma UpdateKeepsUnique<T, K>(s: seq<T>, key: T -> K, i: nat, x: T)
    requires UniqueBy(s, key)
    requires i < |s| && key(x) == key(s[i])
    ensures UniqueBy(s[i := x], key)
  {
    var t := s[i := x];
    forall a, b | 0 <= a < b < |t| ensures key(t[a]) != key(t[b]) {
      assert key(t[a]) == key(s[a]) && key(t[b]) == key(s[b]);
    }
  }

  /** `s` is ordered by `key`, largest first (`sort({createdAt: -1})`). */
  ghost predicate SortedDesc<T>(s: seq<T>, key: T -> int) {
    forall i, j :: 0 <= i < j < |s| ==> key(s[i]) >= key(s[j])
  }

  /** Inserts `x` into an already sorted sequence, before the first element whose
      key is not larger. */
  function InsertDesc<T(==)>(x: T, s: seq<T>, key: T -> int): (r: seq<T>)
    requires SortedDesc(s, key)
    ensures SortedDesc(r, key)
    ensures multiset(r) == multiset(s) + multiset{x}
    ensures forall y :: y in r ==> y == x || y in s
  {
    if s == [] || key(x) >= key(s[0]) then
      [x] + s
    else
      var rest := InsertDesc(x, s[1..], key);
      assert s == [s[0]] + s[1..];
      assert forall y :: y in rest ==> key(s[0]) >= key(y) by {
        forall y | y in rest ensures key(s[0]) >= key(y) {
          if y != x {
            var j :| 0 <= j < |s[1..]| && s[1..][j] == y;
            assert s[j + 1] == y;
          }
        }
      }
      [s[0]] + rest
  }

  /** The collection ordered by `key`, largest first: a permutation of it. */
  function SortDesc<T(==)>(s: seq<T>, key: T -> int): (r: seq<T>)
    ensures SortedDesc(r, key)
    ensures multiset(r) == multiset(s)
    ensures |r| == |s|
  {
    if s == [] then []
    else
      assert s == [s[0]] + s[1..];
      InsertDesc(s[0], SortDesc(s[1..], key), key)
  }

  /** Sorting keeps exactly the same documents. */
  lemma SortDescSameElements<T>(s: seq<T>, key: T -> int, x: T)
    ensures x in SortDesc(s, key) <==> x in s
  {
    assert x in SortDesc(s, key) <==> x in multiset(SortDesc(s, key));
    assert x in s <==> x in multiset(s);
  }

  /** The `skip`/`limit` window of a result; a `limit` of 0 means no limit, as in
      the database. */
  function Page<T>(s: seq<T>, limit: nat, skip: nat): (r: seq<T>)
    ensures |r| <= |s|
    ensures limit > 0 ==> |r| <= limit
    ensures forall i :: 0 <= i < |r| ==> skip + i < |s| && r[i] == s[skip + i]
    ensures skip + |r| >= |s| || |r| == limit
    ensures limit == 0 ==> skip + |r| >= |s|
  {
    var rest := if skip < |s| then s[skip..] else [];
    if limit == 0 || limit >= |rest| then rest else rest[..limit]
  }
}
