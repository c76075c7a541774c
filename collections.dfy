/** Generic operations that the query layer is built from: filtering a result
    set, ordering it by an integer key, looking up the first match, and the
    key-uniqueness predicate every table satisfies. */
module Collections {

  datatype Option<T> = None | Some(value: T)

  /** Outcome of a single-object lookup: the object, or a 404. */
  datatype Lookup<T> = Found(value: T) | NotFound

  /** Keeps the elements satisfying `keep`, in their original order. */
  function Filter<T(!new)>(s: seq<T>, keep: T -> bool): (r: seq<T>)
    ensures forall x :: x in r <==> x in s && keep(x)
    ensures |r| <= |s|
  {
    if s == [] then []
    else if keep(s[0]) then [s[0]] + Filter(s[1..], keep)
    else Filter(s[1..], keep)
  }

  /** Filtering neither adds rows nor alters them: each kept row occurs as
      often as in the input, each dropped row not at all. */
  lemma {:induction false} FilterCounts<T(!new)>(s: seq<T>, keep: T -> bool, x: T)
    ensures multiset(Filter(s, keep))[x] == if keep(x) then multiset(s)[x] else 0
  {
    if s != [] {
      FilterCounts(s[1..], keep, x);
      assert s == [s[0]] + s[1..];
    }
  }

  /** Ascending by `key`: a descending order is a key negated. */
  predicate SortedBy<T>(s: seq<T>, key: T -> int) {
    forall i, j :: 0 <= i < j < |s| ==> key(s[i]) <= key(s[j])
  }

  /** Inserts `x` before the first element whose key is not smaller. */
  function Insert<T(!new)>(x: T, s: seq<T>, key: T -> int): (r: seq<T>)
    requires SortedBy(s, key)
    ensures SortedBy(r, key)
    ensures multiset(r) == multiset(s) + multiset{x}
    ensures forall y :: y in r <==> y == x || y in s
  {
    if s == [] then [x]
    else if key(x) <= key(s[0]) then [x] + s
    else
      var rest := Insert(x, s[1..], key);
      assert s == [s[0]] + s[1..];
      forall y | y in rest ensures key(s[0]) <= key(y) {
        if y != x { SortedHead(s, key, y); }
      }
      [s[0]] + rest
  }

  /** Orders `s` ascending by `key` (an insertion sort, stable). */
  function SortBy<T(!new)>(s: seq<T>, key: T -> int): (r: seq<T>)
    ensures SortedBy(r, key)
    ensures multiset(r) == multiset(s)
    ensures |r| == |s| && forall x :: x in r <==> x in s
  {
    if s == [] then []
    else
      assert s == [s[0]] + s[1..];
      Insert(s[0], SortBy(s[1..], key), key)
  }

  /** The head of a sorted sequence has the least key. */
  lemma SortedHead<T>(s: seq<T>, key: T -> int, y: T)
    requires SortedBy(s, key) && |s| > 0 && y in s[1..]
    ensures key(s[0]) <= key(y)
  {
    var k :| 0 <= k < |s[1..]| && s[1..][k] == y;
    assert s[k + 1] == y;
  }

  /** Filtering a sorted result set keeps it sorted: `filter` after
      `order_by` leaves the order in place. */
  lemma {:induction false} FilterKeepsSorted<T(!new)>(s: seq<T>, keep: T -> bool, key: T -> int)
    requires SortedBy(s, key)
    ensures SortedBy(Filter(s, keep), key)
  {
    if s != [] {
      assert SortedBy(s[1..], key);
      FilterKeepsSorted(s[1..], keep, key);
      if keep(s[0]) {
        var rest := Filter(s[1..], keep);
        forall y | y in rest ensures key(s[0]) <= key(y) {
          SortedHead(s, key, y);
        }
      }
    }
  }

  /** Returns the first element satisfying `matches`, or NotFound. */
  function Find<T>(s: seq<T>, matches: T -> bool): (r: Lookup<T>)
    ensures r.Found? ==> r.value in s && matches(r.value)
    ensures r.NotFound? <==> forall x :: x in s ==> !matches(x)
  {
    if s == [] then NotFound
    else if matches(s[0]) then Found(s[0])
    else Find(s[1..], matches)
  }

  /** No two elements share a key (the column is unique, or the primary key). */
  predicate DistinctKeys<T, K(==)>(s: seq<T>, key: T -> K) {
    forall i, j :: 0 <= i < j < |s| ==> key(s[i]) != key(s[j])
  }

  /** Under a unique key, two members with the same key are the same row. */
  lemma KeyDeterminesRow<T, K>(s: seq<T>, key: T -> K, x: T, y: T)
    requires DistinctKeys(s, key) && x in s && y in s && key(x) == key(y)
    ensures x == y
  {
    var i :| 0 <= i < |s| && s[i] == x;
    var j :| 0 <= j < |s| && s[j] == y;
    if i < j {
      assert key(s[i]) != key(s[j]);
    } else if j < i {
      assert key(s[j]) != key(s[i]);
    }
  }

  /** Deleting rows keeps a key unique. */
  lemma {:induction false} FilterKeepsDistinct<T(!new), K>(s: seq<T>, keep: T -> bool, key: T -> K)
    requires DistinctKeys(s, key)
    ensures DistinctKeys(Filter(s, keep), key)
  {
    if s != [] {
      assert DistinctKeys(s[1..], key);
      FilterKeepsDistinct(s[1..], keep, key);
      if keep(s[0]) {
        var rest := Filter(s[1..], keep);
        forall y | y in rest ensures key(s[0]) != key(y) {
          var k :| 0 <= k < |s[1..]| && s[1..][k] == y;
          assert s[k + 1] == y;
        }
      }
    }
  }

  /** A sequence without repeated keys has as many elements as its set. */
  lemma {:induction false} DistinctCardinality<T, K>(s: seq<T>, key: T -> K)
    requires DistinctKeys(s, key)
    ensures |set x | x in s| == |s|
  {
    if s != [] {
      assert DistinctKeys(s[1..], key);
      DistinctCardinality(s[1..], key);
      assert s[0] !in s[1..];
      assert (set x | x in s) == (set x | x in s[1..]) + {s[0]} by {
        assert s == [s[0]] + s[1..];
      }
    }
  }
}
