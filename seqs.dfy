/** Sequence helpers shared by the chart transforms: first-occurrence key lists
    (the order in which a JavaScript object or Set enumerates its keys), selection
    by key, keyed sums, and the minimum of a non-empty list. */
module Seqs {

  datatype Option<T> = None | Some(value: T)

  /** No value occurs twice. */
  predicate NoDup<K(==)>(s: seq<K>) {
    forall i, j :: 0 <= i < j < |s| ==> s[i] != s[j]
  }

  /** NoDup is a property of the multiset alone: no element is counted twice. */
  lemma {:induction false} NoDupMultiset<K>(s: seq<K>)
    ensures NoDup(s) <==> forall x :: multiset(s)[x] <= 1
  {
    if s != [] {
      var s', y := s[..|s| - 1], s[|s| - 1];
      assert s == s' + [y];
      NoDupMultiset(s');
      assert forall x :: multiset(s)[x] == multiset(s')[x] + (if x == y then 1 else 0);
      if NoDup(s) {
        assert NoDup(s') by {
          forall i, j | 0 <= i < j < |s'| ensures s'[i] != s'[j] {
            assert s'[i] == s[i] && s'[j] == s[j];
          }
        }
        forall i | 0 <= i < |s'| ensures s'[i] != y {
          assert s'[i] == s[i];
        }
      }
      if forall x :: multiset(s)[x] <= 1 {
        assert multiset(s')[y] == 0;
        forall i, j | 0 <= i < j < |s| ensures s[i] != s[j] {
          if j < |s| - 1 {
            assert s[i] == s'[i] && s[j] == s'[j];
          } else {
            assert s[i] == s'[i] && s'[i] in multiset(s');
          }
        }
      }
    }
  }

  /** A prefix of a list without repetitions has none either, and holds no value the
      list does not. */
  lemma NoDupPrefix<K>(s: seq<K>, n: int)
    requires 0 <= n <= |s|
    ensures NoDup(s) ==> NoDup(s[..n])
    ensures forall x :: x in s[..n] ==> x in s
  {
    assert forall i :: 0 <= i < n ==> s[..n][i] == s[i];
  }

  /** In a list without repetitions no element occurs before its own position. */
  lemma NoDupFirst<K>(s: seq<K>, i: int)
    requires NoDup(s) && 0 <= i < |s|
    ensures s[i] !in s[..i]
  {
    assert forall j :: 0 <= j < i ==> s[..i][j] == s[j];
  }

  /** Putting a new value in front of a list without repetitions. */
  lemma NoDupCons<K>(x: K, r: seq<K>)
    ensures NoDup(r) && x !in r ==> NoDup([x] + r)
    ensures NoDup([x] + r) ==> NoDup(r) && x !in r
  {
    var xr := [x] + r;
    assert forall i :: 0 <= i < |r| ==> xr[i + 1] == r[i];
    if NoDup(r) && x !in r {
      forall i, j | 0 <= i < j < |xr| ensures xr[i] != xr[j] {
        if i > 0 {
          assert xr[i] == r[i - 1] && xr[j] == r[j - 1];
        } else {
          assert xr[j] == r[j - 1];
        }
      }
    }
    if NoDup(xr) {
      forall i | 0 <= i < |r| ensures r[i] != x {
        assert xr[i + 1] == r[i] && xr[0] == x;
      }
    }
  }

  /** A rearrangement of a list without repetitions has none either. */
  lemma NoDupPermutation<K>(a: seq<K>, b: seq<K>)
    requires NoDup(a) && multiset(a) == multiset(b)
    ensures NoDup(b)
  {
    NoDupMultiset(a);
    NoDupMultiset(b);
  }

  /** `d[keys[i]] = values[i]` for each `i` in turn, into an empty dictionary. */
  function Assign<K(==,!new), V>(keys: seq<K>, values: seq<V>): map<K, V>
    requires |keys| == |values|
  {
    if keys == [] then map[]
    else Assign(keys[..|keys| - 1], values[..|keys| - 1])[keys[|keys| - 1] := values[|keys| - 1]]
  }

  /** The dictionary has exactly the keys, and without repeated keys each key gets
      its own value. */
  lemma {:induction false} AssignFacts<K(!new), V>(keys: seq<K>, values: seq<V>)
    requires |keys| == |values|
    ensures forall k :: k in Assign(keys, values) <==> k in keys
    ensures NoDup(keys) ==> forall i :: 0 <= i < |keys| ==> Assign(keys, values)[keys[i]] == values[i]
  {
    if keys != [] {
      var n := |keys| - 1;
      AssignFacts(keys[..n], values[..n]);
      NoDupLast(keys);
      assert forall i :: 0 <= i < n ==> keys[..n][i] == keys[i] && values[..n][i] == values[i];
      assert forall k :: k in keys <==> k in keys[..n] || k == keys[n];
    }
  }

  /** One more assignment, as a loop over the keys performs it. */
  lemma AssignStep<K(!new), V>(keys: seq<K>, values: seq<V>, k: int)
    requires |keys| == |values| && 0 <= k < |keys|
    ensures Assign(keys[..k + 1], values[..k + 1]) == Assign(keys[..k], values[..k])[keys[k] := values[k]]
  {
    assert keys[..k + 1][..k] == keys[..k] && values[..k + 1][..k] == values[..k];
  }

  /** Appending a new element keeps a list free of duplicates. */
  lemma NoDupSnoc<K>(r: seq<K>, x: K)
    requires NoDup(r) && x !in r
    ensures NoDup(r + [x])
  {
    var rx := r + [x];
    forall a, c | 0 <= a < c < |rx| ensures rx[a] != rx[c] {
      assert rx[a] == r[a];
      if c < |r| {
        assert rx[c] == r[c];
      }
    }
  }

  lemma NoDupLast<K>(s: seq<K>)
    requires |s| > 0
    ensures NoDup(s) ==> NoDup(s[..|s| - 1]) && s[|s| - 1] !in s[..|s| - 1]
  {
    NoDupPrefix(s, |s| - 1);
    if NoDup(s) {
      NoDupFirst(s, |s| - 1);
    }
  }

  /** `s.map(f)`. */
  function MapSeq<T, U>(s: seq<T>, f: T -> U): (r: seq<U>)
    ensures |r| == |s| && forall i :: 0 <= i < |s| ==> r[i] == f(s[i])
  {
    seq(|s|, i requires 0 <= i < |s| => f(s[i]))
  }

  lemma MapAppend<T, U>(s: seq<T>, t: seq<T>, f: T -> U)
    ensures MapSeq(s + t, f) == MapSeq(s, f) + MapSeq(t, f)
  {
    assert forall i :: 0 <= i < |s| ==> (s + t)[i] == s[i];
    assert forall i :: |s| <= i < |s + t| ==> (s + t)[i] == t[i - |s|];
  }

  lemma MapPrefix<T, U>(s: seq<T>, n: int, f: T -> U)
    requires 0 <= n <= |s|
    ensures MapSeq(s[..n], f) == MapSeq(s, f)[..n]
  {
  }

  /** Taking one element out of the middle of a list takes its image out of the
      mapped list. */
  lemma MapMiddle<T, U>(b1: seq<T>, x: T, b2: seq<T>, f: T -> U)
    ensures multiset(MapSeq(b1 + [x] + b2, f)) == multiset(MapSeq(b1 + b2, f)) + multiset{f(x)}
  {
    MapAppend(b1 + [x], b2, f);
    MapAppend(b1, [x], f);
    MapAppend(b1, b2, f);
    assert MapSeq([x], f) == [f(x)];
  }

  /** Mapping a rearrangement gives a rearrangement of the mapped list. */
  lemma {:induction false} MapPermutation<T, U>(a: seq<T>, b: seq<T>, f: T -> U)
    requires multiset(a) == multiset(b)
    ensures multiset(MapSeq(a, f)) == multiset(MapSeq(b, f))
  {
    if a != [] {
      var x := a[|a| - 1];
      var a' := a[..|a| - 1];
      assert a == a' + [] + [x] + [];
      assert x in multiset(b);
      var j :| 0 <= j < |b| && b[j] == x;
      var b1, b2 := b[..j], b[j + 1..];
      assert b == b1 + [x] + b2;
      assert a' == a' + [];
      RemoveOne(a', x, [], a);
      RemoveOne(b1, x, b2, b);
      MapPermutation(a', b1 + b2, f);
      MapMiddle(a', x, [], f);
      MapMiddle(b1, x, b2, f);
    }
  }

  lemma RemoveOne<T>(b1: seq<T>, x: T, b2: seq<T>, b: seq<T>)
    requires b == b1 + [x] + b2
    ensures multiset(b1 + b2) == multiset(b) - multiset{x}
  {
  }

  /** Rows built one per distinct key and then rearranged still carry each key
      exactly once. */
  lemma RearrangedKeys<R, K>(keys: seq<K>, unsorted: seq<R>, rows: seq<R>, name: R -> K)
    requires NoDup(keys) && MapSeq(unsorted, name) == keys
    requires multiset(rows) == multiset(unsorted)
    ensures NoDup(MapSeq(rows, name))
    ensures forall k :: k in MapSeq(rows, name) <==> k in keys
  {
    MapPermutation(unsorted, rows, name);
    NoDupPermutation(keys, MapSeq(rows, name));
    forall k ensures k in MapSeq(rows, name) <==> k in keys {
      assert k in MapSeq(rows, name) <==> k in multiset(MapSeq(rows, name));
      assert k in keys <==> k in multiset(keys);
    }
  }

  /** The keys of `s`, each once, in order of first occurrence. This is the order in
      which an object filled by `acc[key] = ...` (or a Set filled by `add`) lists its
      keys, for keys that are not array indices. */
  function DistinctBy<T, K(==,!new)>(s: seq<T>, key: T -> K): (r: seq<K>)
    ensures NoDup(r)
    ensures forall k :: k in r <==> exists i :: 0 <= i < |s| && key(s[i]) == k
  {
    if s == [] then []
    else
      var d := DistinctBy(s[..|s| - 1], key);
      if key(s[|s| - 1]) in d then d else d + [key(s[|s| - 1])]
  }

  /** One more element extends the first-occurrence keys by its key, if new. */
  lemma DistinctByStep<T, K(!new)>(s: seq<T>, i: int, key: T -> K)
    requires 0 <= i < |s|
    ensures DistinctBy(s[..i + 1], key)
         == if key(s[i]) in DistinctBy(s[..i], key) then DistinctBy(s[..i], key)
            else DistinctBy(s[..i], key) + [key(s[i])]
  {
    assert s[..i + 1][..i] == s[..i];
  }

  /** Keys come in order of first occurrence: the key at position `a` occurs in `s`
      before the first occurrence of any later key. */
  lemma {:induction false} DistinctByFirstSeen<T, K(!new)>(s: seq<T>, key: T -> K, a: int, b: int)
    requires 0 <= a < b < |DistinctBy(s, key)|
    ensures exists i :: 0 <= i < |s| && key(s[i]) == DistinctBy(s, key)[a]
              && forall j :: 0 <= j <= i ==> key(s[j]) != DistinctBy(s, key)[b]
  {
    var r := DistinctBy(s, key);
    var p := s[..|s| - 1];
    var d := DistinctBy(p, key);
    assert forall j :: 0 <= j < |p| ==> p[j] == s[j];
    if b < |d| {
      assert r[..|d|] == d;
      DistinctByFirstSeen(p, key, a, b);
      var i :| 0 <= i < |p| && key(p[i]) == d[a] && forall j :: 0 <= j <= i ==> key(p[j]) != d[b];
      assert key(s[i]) == r[a];
    } else {
      assert r == d + [key(s[|s| - 1])];
      assert d[a] in d;
      var i :| 0 <= i < |p| && key(p[i]) == d[a];
      forall j | 0 <= j <= i ensures key(s[j]) != r[b] {
        assert key(p[j]) in d;
      }
      assert key(s[i]) == r[a];
    }
  }

  /** Identity key, for collecting the distinct values of a plain sequence. */
  function Id<K>(k: K): K { k }

  /** The subsequence of `s` whose key is `k`, in the same order (a `filter`). */
  function Select<T, K(==)>(s: seq<T>, key: T -> K, k: K): (r: seq<T>)
    ensures |r| <= |s|
  {
    if s == [] then []
    else (if key(s[0]) == k then [s[0]] else []) + Select(s[1..], key, k)
  }

  /** Select keeps exactly the elements with key `k`. */
  lemma {:induction false} SelectMembers<T, K>(s: seq<T>, key: T -> K, k: K)
    ensures forall x :: x in Select(s, key, k) <==> x in s && key(x) == k
  {
    if s != [] {
      SelectMembers(s[1..], key, k);
      assert s == [s[0]] + s[1..];
    }
  }

  /** Select keeps every element with key `k` as often as it occurs in `s`. */
  lemma {:induction false} SelectMultiset<T, K>(s: seq<T>, key: T -> K, k: K, x: T)
    ensures multiset(Select(s, key, k))[x] == if key(x) == k then multiset(s)[x] else 0
  {
    if s != [] {
      SelectMultiset(s[1..], key, k, x);
      assert s == [s[0]] + s[1..];
    }
  }

  lemma {:induction false} SelectAppend<T, K>(a: seq<T>, b: seq<T>, key: T -> K, k: K)
    ensures Select(a + b, key, k) == Select(a, key, k) + Select(b, key, k)
  {
    if a == [] {
      assert a + b == b;
    } else {
      var h := if key(a[0]) == k then [a[0]] else [];
      assert (a + b)[0] == a[0] && (a + b)[1..] == a[1..] + b;
      SelectAppend(a[1..], b, key, k);
      calc {
        Select(a + b, key, k);
        h + Select(a[1..] + b, key, k);
        h + (Select(a[1..], key, k) + Select(b, key, k));
        (h + Select(a[1..], key, k)) + Select(b, key, k);
      }
    }
  }

  /** The sum of `value` over the elements of `s` whose key is `k`: what
      `acc[key(x)] += value(x)` leaves in `acc[k]` after a pass over `s`. */
  function SumWhere<T, K(==)>(s: seq<T>, key: T -> K, value: T -> int, k: K): int
  {
    if s == [] then 0
    else
      SumWhere(s[..|s| - 1], key, value, k)
        + (if key(s[|s| - 1]) == k then value(s[|s| - 1]) else 0)
  }

  /** A key that no element has sums to 0. */
  lemma {:induction false} SumWhereAbsent<T, K>(s: seq<T>, key: T -> K, value: T -> int, k: K)
    requires forall i :: 0 <= i < |s| ==> key(s[i]) != k
    ensures SumWhere(s, key, value, k) == 0
  {
    if s != [] {
      SumWhereAbsent(s[..|s| - 1], key, value, k);
    }
  }

  /** SumWhere does not depend on the order of the elements. */
  lemma {:induction false} SumWherePermutation<T, K>(a: seq<T>, b: seq<T>, key: T -> K, value: T -> int, k: K)
    requires multiset(a) == multiset(b)
    ensures SumWhere(a, key, value, k) == SumWhere(b, key, value, k)
  {
    if a != [] {
      var x := a[|a| - 1];
      assert a == a[..|a| - 1] + [x];
      assert x in multiset(b);
      var j :| 0 <= j < |b| && b[j] == x;
      var b' := b[..j] + b[j + 1..];
      assert b == b[..j] + [x] + b[j + 1..];
      assert multiset(b) == multiset(b[..j]) + multiset{x} + multiset(b[j + 1..]);
      assert multiset(a) == multiset(a[..|a| - 1]) + multiset{x};
      assert multiset(b') == multiset(b[..j]) + multiset(b[j + 1..]);
      assert multiset(a[..|a| - 1]) == multiset(a) - multiset{x};
      assert multiset(b') == multiset(b) - multiset{x};
      SumWherePermutation(a[..|a| - 1], b', key, value, k);
      SumWhereMiddle(b[..j], x, b[j + 1..], key, value, k);
    }
  }

  /** Summing over the selection for `k` is summing over everything for `k`. */
  lemma {:induction false} SumWhereSelect<T, K>(s: seq<T>, key: T -> K, value: T -> int, k: K)
    ensures SumWhere(Select(s, key, k), key, value, k) == SumWhere(s, key, value, k)
  {
    if s != [] {
      var h := if key(s[0]) == k then [s[0]] else [];
      SumWhereSelect(s[1..], key, value, k);
      assert s == [s[0]] + s[1..];
      SumWhereAppend([s[0]], s[1..], key, value, k);
      SumWhereAppend(h, Select(s[1..], key, k), key, value, k);
      assert [s[0]][..0] == [];
    }
  }

  lemma {:induction false} SumWhereAppend<T, K>(a: seq<T>, b: seq<T>, key: T -> K, value: T -> int, k: K)
    ensures SumWhere(a + b, key, value, k) == SumWhere(a, key, value, k) + SumWhere(b, key, value, k)
  {
    if b == [] {
      assert a + b == a;
    } else {
      assert (a + b)[..|a + b| - 1] == a + b[..|b| - 1];
      SumWhereAppend(a, b[..|b| - 1], key, value, k);
    }
  }

  lemma SumWhereMiddle<T, K>(a: seq<T>, x: T, b: seq<T>, key: T -> K, value: T -> int, k: K)
    ensures SumWhere(a + [x] + b, key, value, k)
         == SumWhere(a + b, key, value, k) + (if key(x) == k then value(x) else 0)
  {
    SumWhereAppend(a + [x], b, key, value, k);
    SumWhereAppend(a, b, key, value, k);
    assert (a + [x])[..|a + [x]| - 1] == a;
  }

  /** The smallest element of a non-empty list (`Math.min(...s)`). */
  function Min(s: seq<int>): (m: int)
    requires |s| > 0
    ensures forall i :: 0 <= i < |s| ==> m <= s[i]
    ensures exists i :: 0 <= i < |s| && s[i] == m
  {
    if |s| == 1 then s[0]
    else
      var m' := Min(s[1..]);
      assert forall i :: 1 <= i < |s| ==> s[i] == s[1..][i - 1];
      if s[0] <= m' then s[0] else m'
  }

  /** `a` is obtained from `b` by deleting elements, keeping the order. */
  predicate IsSubseq<T(==)>(a: seq<T>, b: seq<T>)
    decreases |b|
  {
    if a == [] then true
    else if b == [] then false
    else if a[0] == b[0] then IsSubseq(a[1..], b[1..])
    else IsSubseq(a, b[1..])
  }
}
