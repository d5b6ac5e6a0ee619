/**
 * `Array.prototype.sort` with a comparator that orders by a numeric key,
 * largest first. The runtime's sort is stable, so elements with equal keys
 * keep their relative order; it is specified here as insertion sort.
 */
module Sorting {
  import opened Lists

  /** A sort key compared lexicographically: `major` first, `minor` to break ties. */
  datatype Key = Key(major: int, minor: int)

  /** `a` may come before `b` in a largest-first order. */
  predicate AtLeast(a: Key, b: Key)
  {
    a.major > b.major || (a.major == b.major && a.minor >= b.minor)
  }

  predicate SortedDesc<T>(s: seq<T>, key: T -> Key)
  {
    forall i, j :: 0 <= i < j < |s| ==> AtLeast(key(s[i]), key(s[j]))
  }

  /** The elements whose key is `k`. */
  function HasKey<T>(key: T -> Key, k: Key): T -> bool
  {
    x => key(x) == k
  }

  /** Places `x` behind every element whose key is at least its own. */
  function Insert<T>(x: T, s: seq<T>, key: T -> Key): seq<T>
  {
    if s == [] then [x]
    else if AtLeast(key(s[0]), key(x)) then [s[0]] + Insert(x, s[1..], key)
    else [x] + s
  }

  /** Stable sort, largest key first: inserts the elements one by one in input order. */
  function SortDesc<T>(s: seq<T>, key: T -> Key): seq<T>
  {
    if s == [] then []
    else Insert(s[|s| - 1], SortDesc(s[..|s| - 1], key), key)
  }

  lemma {:induction false} InsertPermutes<T>(x: T, s: seq<T>, key: T -> Key)
    ensures multiset(Insert(x, s, key)) == multiset(s) + multiset{x}
  {
    if s != [] && AtLeast(key(s[0]), key(x)) {
      InsertPermutes(x, s[1..], key);
      assert s == [s[0]] + s[1..];
    }
  }

  lemma {:induction false} InsertSorted<T>(x: T, s: seq<T>, key: T -> Key)
    requires SortedDesc(s, key)
    ensures SortedDesc(Insert(x, s, key), key)
  {
    if s != [] {
      if AtLeast(key(s[0]), key(x)) {
        var t := Insert(x, s[1..], key);
        InsertSorted(x, s[1..], key);
        InsertBelowHead(x, s, key);
        ConsSorted(s[0], t, key);
      } else {
        forall j | 0 <= j < |s| ensures AtLeast(key(x), key(s[j])) {
          if j > 0 {
            assert AtLeast(key(s[0]), key(s[j]));
          }
        }
        ConsSorted(x, s, key);
      }
    }
  }

  /** Inserting below the head of a sorted list keeps every element under the head. */
  lemma InsertBelowHead<T>(x: T, s: seq<T>, key: T -> Key)
    requires s != [] && SortedDesc(s, key) && AtLeast(key(s[0]), key(x))
    ensures forall j :: 0 <= j < |Insert(x, s[1..], key)| ==> AtLeast(key(s[0]), key(Insert(x, s[1..], key)[j]))
  {
    var t := Insert(x, s[1..], key);
    InsertPermutes(x, s[1..], key);
    forall j | 0 <= j < |t| ensures AtLeast(key(s[0]), key(t[j])) {
      assert t[j] in multiset(t);
      if t[j] != x {
        assert t[j] in multiset(s[1..]);
        var m :| 0 <= m < |s[1..]| && s[1..][m] == t[j];
        assert s[1 + m] == t[j];
      }
    }
  }

  /** A head at least as large as every element of a sorted tail gives a sorted list. */
  lemma ConsSorted<T>(h: T, t: seq<T>, key: T -> Key)
    requires SortedDesc(t, key)
    requires forall j :: 0 <= j < |t| ==> AtLeast(key(h), key(t[j]))
    ensures SortedDesc([h] + t, key)
  {
    var r := [h] + t;
    forall i, j | 0 <= i < j < |r| ensures AtLeast(key(r[i]), key(r[j])) {
      assert r[j] == t[j - 1];
      if i > 0 {
        assert r[i] == t[i - 1];
      }
    }
  }

  /** The sort returns a permutation of its input, ordered largest key first. */
  lemma {:induction false} SortDescSpec<T>(s: seq<T>, key: T -> Key)
    ensures SortedDesc(SortDesc(s, key), key)
    ensures multiset(SortDesc(s, key)) == multiset(s)
    ensures |SortDesc(s, key)| == |s|
  {
    if s != [] {
      var init := s[..|s| - 1];
      SortDescSpec(init, key);
      InsertSorted(s[|s| - 1], SortDesc(init, key), key);
      InsertPermutes(s[|s| - 1], SortDesc(init, key), key);
      assert s == init + [s[|s| - 1]];
      assert |multiset(SortDesc(s, key))| == |multiset(s)|;
    }
  }

  /** Inserting into a sorted list appends `x` to the run of elements sharing any one key. */
  lemma {:induction false} InsertStable<T>(x: T, s: seq<T>, key: T -> Key, k: Key)
    requires SortedDesc(s, key)
    ensures Filter(Insert(x, s, key), HasKey(key, k))
         == Filter(s, HasKey(key, k)) + Filter([x], HasKey(key, k))
  {
    var keep := HasKey(key, k);
    if s == [] {
    } else if AtLeast(key(s[0]), key(x)) {
      InsertStable(x, s[1..], key, k);
      FilterAppend([s[0]], Insert(x, s[1..], key), keep);
      FilterAppend([s[0]], s[1..], keep);
      assert s == [s[0]] + s[1..];
    } else {
      FilterAppend([x], s, keep);
      if key(x) == k {
        forall i | 0 <= i < |s| ensures !keep(s[i]) {
          assert AtLeast(key(s[0]), key(s[i]));
        }
        FilterDropsAll(s, keep);
      }
    }
  }

  /** Stability: among elements with equal keys the sort keeps the input order. */
  lemma {:induction false} SortDescStable<T>(s: seq<T>, key: T -> Key, k: Key)
    ensures Filter(SortDesc(s, key), HasKey(key, k)) == Filter(s, HasKey(key, k))
  {
    if s != [] {
      var init := s[..|s| - 1];
      SortDescStable(init, key, k);
      SortDescSpec(init, key);
      InsertStable(s[|s| - 1], SortDesc(init, key), key, k);
      assert s == init + [s[|s| - 1]];
      FilterAppend(init, [s[|s| - 1]], HasKey(key, k));
    }
  }
}
