/** `Array.prototype.sort` with a numeric comparator, as the chart components use it:
    a stable sort. `StableSort(s, key)` orders by `key` ascending; a comparator
    `(a, b) => b.x - a.x` (descending on `x`) is `StableSort(s, e => -e.x)`. */
module Sorting {
  import opened Seqs

  predicate SortedBy<T>(s: seq<T>, key: T -> int) {
    forall i, j :: 0 <= i < j < |s| ==> key(s[i]) <= key(s[j])
  }

  /** `r` keeps the relative order of `s` among elements of equal key: for every
      key value, the elements with that key appear in `r` exactly as in `s`. */
  ghost predicate Stable<T(!new)>(r: seq<T>, s: seq<T>, key: T -> int) {
    forall k :: Select(r, key, k) == Select(s, key, k)
  }

  /** Inserts `x` after every element whose key is at most key(x). */
  function Insert<T>(x: T, t: seq<T>, key: T -> int): seq<T> {
    if t == [] || key(x) < key(t[0]) then [x] + t
    else [t[0]] + Insert(x, t[1..], key)
  }

  lemma {:induction false} InsertMultiset<T>(x: T, t: seq<T>, key: T -> int)
    ensures multiset(Insert(x, t, key)) == multiset(t) + multiset{x}
  {
    if !(t == [] || key(x) < key(t[0])) {
      InsertMultiset(x, t[1..], key);
      assert t == [t[0]] + t[1..];
    }
  }

  lemma {:induction false} InsertSorted<T>(x: T, t: seq<T>, key: T -> int)
    requires SortedBy(t, key)
    ensures SortedBy(Insert(x, t, key), key)
  {
    if t == [] || key(x) < key(t[0]) {
      ConsSorted(x, t, key);
    } else {
      InsertSorted(x, t[1..], key);
      InsertLowerBound(x, t, key);
      ConsSorted(t[0], Insert(x, t[1..], key), key);
    }
  }

  /** Every element of an insertion into the rest of a sorted list has a key at
      least the key of its first element, when `x` goes after that element. */
  lemma InsertLowerBound<T>(x: T, t: seq<T>, key: T -> int)
    requires SortedBy(t, key) && t != [] && key(t[0]) <= key(x)
    ensures forall y :: y in Insert(x, t[1..], key) ==> key(t[0]) <= key(y)
  {
    InsertMultiset(x, t[1..], key);
    forall y | y in Insert(x, t[1..], key) ensures key(t[0]) <= key(y) {
      assert y in multiset(t[1..]) + multiset{x};
      if y in t[1..] {
        var m :| 0 <= m < |t[1..]| && t[1..][m] == y;
        assert t[1..][m] == t[m + 1];
      }
    }
  }

  /** A sorted list headed by an element of key at most every key in it. */
  lemma ConsSorted<T>(h: T, r: seq<T>, key: T -> int)
    requires SortedBy(r, key)
    requires forall y :: y in r ==> key(h) <= key(y)
    ensures SortedBy([h] + r, key)
  {
    var hr := [h] + r;
    forall i, j | 0 <= i < j < |hr| ensures key(hr[i]) <= key(hr[j]) {
      assert hr[j] == r[j - 1];
      if i > 0 {
        assert hr[i] == r[i - 1];
      } else {
        assert r[j - 1] in r;
      }
    }
  }

  lemma {:induction false} InsertSelect<T>(x: T, t: seq<T>, key: T -> int, k: int)
    requires SortedBy(t, key)
    ensures Select(Insert(x, t, key), key, k) == Select(t, key, k) + (if key(x) == k then [x] else [])
  {
    var hx := if key(x) == k then [x] else [];
    if t == [] || key(x) < key(t[0]) {
      var r := [x] + t;
      assert r[0] == x && r[1..] == t;
      if key(x) == k {
        NoneSelected(t, key, k);
      }
    } else {
      InsertSelect(x, t[1..], key, k);
      var r := [t[0]] + Insert(x, t[1..], key);
      assert r[0] == t[0] && r[1..] == Insert(x, t[1..], key);
      var h := if key(t[0]) == k then [t[0]] else [];
      calc {
        Select(r, key, k);
        h + Select(Insert(x, t[1..], key), key, k);
        h + (Select(t[1..], key, k) + hx);
        (h + Select(t[1..], key, k)) + hx;
      }
    }
  }

  lemma {:induction false} NoneSelected<T>(t: seq<T>, key: T -> int, k: int)
    requires SortedBy(t, key)
    requires t != [] ==> k < key(t[0])
    ensures Select(t, key, k) == []
  {
    if t != [] {
      assert |t| > 1 ==> key(t[0]) <= key(t[1]);
      NoneSelected(t[1..], key, k);
    }
  }

  /** The sort: a permutation of `s`, in ascending key order, stable on ties. */
  function StableSort<T(!new)>(s: seq<T>, key: T -> int): (r: seq<T>)
    ensures |r| == |s|
    ensures multiset(r) == multiset(s)
    ensures SortedBy(r, key)
    ensures Stable(r, s, key)
  {
    if s == [] then []
    else
      var x, s' := s[|s| - 1], s[..|s| - 1];
      var r' := StableSort(s', key);
      SortStep(x, s', r', key);
      assert s == s' + [x];
      Insert(x, r', key)
  }

  /** Inserting the next input element into the sorted prefix keeps the sort's
      three promises. */
  lemma SortStep<T(!new)>(x: T, s': seq<T>, r': seq<T>, key: T -> int)
    requires multiset(r') == multiset(s') && SortedBy(r', key) && Stable(r', s', key)
    ensures multiset(Insert(x, r', key)) == multiset(s' + [x])
    ensures |Insert(x, r', key)| == |s'| + 1
    ensures SortedBy(Insert(x, r', key), key)
    ensures Stable(Insert(x, r', key), s' + [x], key)
  {
    InsertSorted(x, r', key);
    InsertMultiset(x, r', key);
    assert |multiset(Insert(x, r', key))| == |multiset(r')| + 1;
    InsertStable(x, s', r', key);
  }

  lemma InsertStable<T(!new)>(x: T, s': seq<T>, r': seq<T>, key: T -> int)
    requires SortedBy(r', key) && Stable(r', s', key)
    ensures Stable(Insert(x, r', key), s' + [x], key)
  {
    forall k ensures Select(Insert(x, r', key), key, k) == Select(s' + [x], key, k) {
      InsertSelect(x, r', key, k);
      SelectAppend(s', [x], key, k);
      assert [x][1..] == [];
    }
  }

  /** A sorted, stable arrangement is unique: two sequences sorted by the same key
      that agree on the order within each key are equal. */
  lemma {:induction false} SortedStableUnique<T(!new)>(a: seq<T>, b: seq<T>, key: T -> int)
    requires SortedBy(a, key) && SortedBy(b, key)
    requires Stable(a, b, key)
    ensures a == b
    decreases |a|
  {
    if a == [] {
      StableEmpty(a, b, key);
    } else if b == [] {
      StableEmpty(b, a, key);
    } else {
      SameHead(a, b, key);
      StableTail(a, b, key);
      assert SortedBy(a[1..], key) && SortedBy(b[1..], key);
      SortedStableUnique(a[1..], b[1..], key);
      assert a == [a[0]] + a[1..] && b == [b[0]] + b[1..];
    }
  }

  /** Only an empty sequence agrees with the empty one on every key. */
  lemma StableEmpty<T(!new)>(a: seq<T>, b: seq<T>, key: T -> int)
    requires a == [] && Stable(a, b, key)
    ensures b == []
  {
    if b != [] {
      SelectMembers(b, key, key(b[0]));
    }
  }

  lemma SelectHead<T>(a: seq<T>, key: T -> int, k: int)
    requires a != []
    ensures Select(a, key, k) == (if key(a[0]) == k then [a[0]] else []) + Select(a[1..], key, k)
  {
  }

  /** Two sorted, stable arrangements start with the same element: the first
      element of the smallest key. */
  lemma SameHead<T(!new)>(a: seq<T>, b: seq<T>, key: T -> int)
    requires a != [] && b != []
    requires SortedBy(a, key) && SortedBy(b, key) && Stable(a, b, key)
    ensures a[0] == b[0]
  {
    var ka, kb := key(a[0]), key(b[0]);
    SelectMembers(a, key, kb);
    SelectMembers(b, key, ka);
    assert a[0] in Select(a, key, ka) by {
      SelectMembers(a, key, ka);
    }
    var ja :| 0 <= ja < |b| && b[ja] == a[0];
    assert b[0] in Select(b, key, kb) by {
      SelectMembers(b, key, kb);
    }
    var jb :| 0 <= jb < |a| && a[jb] == b[0];
    assert kb <= ka && ka <= kb;
    SelectHead(a, key, ka);
    SelectHead(b, key, ka);
    assert Select(a, key, ka)[0] == a[0] && Select(b, key, ka)[0] == b[0];
  }

  /** After a common first element the rests agree on every key. */
  lemma StableTail<T(!new)>(a: seq<T>, b: seq<T>, key: T -> int)
    requires a != [] && b != [] && a[0] == b[0] && Stable(a, b, key)
    ensures Stable(a[1..], b[1..], key)
  {
    forall k ensures Select(a[1..], key, k) == Select(b[1..], key, k) {
      var h := if key(a[0]) == k then [a[0]] else [];
      SelectHead(a, key, k);
      SelectHead(b, key, k);
      assert (h + Select(a[1..], key, k))[|h|..] == Select(a[1..], key, k);
      assert (h + Select(b[1..], key, k))[|h|..] == Select(b[1..], key, k);
    }
  }

  /** StableSort is the only sorted, stable rearrangement of its input. */
  lemma StableSortUnique<T(!new)>(s: seq<T>, r: seq<T>, key: T -> int)
    requires SortedBy(r, key) && Stable(r, s, key)
    ensures r == StableSort(s, key)
  {
    SortedStableUnique(r, StableSort(s, key), key);
  }
}
