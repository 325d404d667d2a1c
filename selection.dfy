/** Picking a member by workload. The server sorts the members by their count
    and takes the first one that has room (`sort` then `find`); the client
    keeps the members that have room, sorts them and takes the first
    (`filter`, `sort`, `[0]`). `Array.prototype.sort` is stable, so the sort is
    modelled as insertion sort on an integer key, and both selections are
    proved to pick the FIRST member, in the original order, among those with
    the smallest key. */
module Selection {
  import opened Common

  /** Every key is at least `b`. */
  predicate AtLeast<T>(s: seq<T>, key: T -> int, b: int) {
    forall i :: 0 <= i < |s| ==> b <= key(s[i])
  }

  /** Non-decreasing keys, stated head first. */
  predicate SortedBy<T>(s: seq<T>, key: T -> int) {
    s == [] || (AtLeast(s[1..], key, key(s[0])) && SortedBy(s[1..], key))
  }

  /** `x` placed before the first element whose key is not smaller than its own. */
  function Insert<T>(x: T, t: seq<T>, key: T -> int): (r: seq<T>)
    ensures |r| == |t| + 1
    ensures multiset(r) == multiset(t) + multiset{x}
  {
    if t == [] || key(x) <= key(t[0]) then [x] + t
    else
      assert t == [t[0]] + t[1..];
      [t[0]] + Insert(x, t[1..], key)
  }

  lemma {:induction false} InsertAtLeast<T>(x: T, t: seq<T>, key: T -> int, b: int)
    requires b <= key(x) && AtLeast(t, key, b)
    ensures AtLeast(Insert(x, t, key), key, b)
  {
    if t != [] && key(x) > key(t[0]) {
      InsertAtLeast(x, t[1..], key, b);
      assert Insert(x, t, key) == [t[0]] + Insert(x, t[1..], key);
    }
  }

  lemma {:induction false} InsertSorted<T>(x: T, t: seq<T>, key: T -> int)
    requires SortedBy(t, key)
    ensures SortedBy(Insert(x, t, key), key)
  {
    if t == [] || key(x) <= key(t[0]) {
      var r := [x] + t;
      assert r[1..] == t;
      assert AtLeast(t, key, key(x)) by {
        if t != [] {
          assert AtLeast(t[1..], key, key(t[0]));
          forall i | 0 <= i < |t| ensures key(x) <= key(t[i]) {
            if i > 0 {
              assert t[i] == t[1..][i - 1];
            }
          }
        }
      }
    } else {
      InsertSorted(x, t[1..], key);
      InsertAtLeast(x, t[1..], key, key(t[0]));
      var r := [t[0]] + Insert(x, t[1..], key);
      assert r[1..] == Insert(x, t[1..], key);
    }
  }

  /** A stable sort by ascending key: earlier elements stay ahead of later ones with the same key. */
  function SortByKey<T>(s: seq<T>, key: T -> int): (r: seq<T>)
    ensures multiset(r) == multiset(s)
    ensures SortedBy(r, key)
  {
    if s == [] then []
    else
      var rest := SortByKey(s[1..], key);
      InsertSorted(s[0], rest, key);
      assert s == [s[0]] + s[1..];
      Insert(s[0], rest, key)
  }

  /** The position of the first element, among those satisfying `p`, whose key
      is the smallest; None when nothing satisfies `p`. */
  function FirstMinIndex<T>(s: seq<T>, p: T -> bool, key: T -> int): (r: Option<nat>)
    ensures r.None? <==> forall j :: 0 <= j < |s| ==> !p(s[j])
    ensures r.Some? ==> r.value < |s| && p(s[r.value])
    ensures r.Some? ==> forall j :: 0 <= j < |s| && p(s[j]) ==> key(s[r.value]) <= key(s[j])
    ensures r.Some? ==> forall j :: 0 <= j < r.value && p(s[j]) ==> key(s[r.value]) < key(s[j])
  {
    if s == [] then None
    else
      var rest := FirstMinIndex(s[1..], p, key);
      if p(s[0]) && (rest.None? || key(s[0]) <= key(s[1..][rest.value])) then Some(0)
      else if rest.Some? then Some(rest.value + 1)
      else None
  }

  /** The element at `FirstMinIndex`. */
  function FirstMin<T>(s: seq<T>, p: T -> bool, key: T -> int): Option<T> {
    match FirstMinIndex(s, p, key)
    case None => None
    case Some(i) => Some(s[i])
  }

  function Head<T>(s: seq<T>): Option<T> {
    if s == [] then None else Some(s[0])
  }

  /** `find` on `Insert(x, t)`: `x` wins exactly when it qualifies and the
      first qualifying element of the sorted `t` has no smaller key. */
  lemma {:induction false} FindInsert<T>(x: T, t: seq<T>, p: T -> bool, key: T -> int)
    requires SortedBy(t, key)
    ensures Find(Insert(x, t, key), p) ==
              var y := Find(t, p);
              if p(x) && (y.None? || key(x) <= key(y.value)) then Some(x) else y
  {
    if t == [] {
    } else if key(x) <= key(t[0]) {
      assert Insert(x, t, key) == [x] + t;
      assert ([x] + t)[1..] == t;
      var y := Find(t, p);
      if y.Some? {
        var k :| 0 <= k < |t| && t[k] == y.value;
        if k > 0 {
          assert t[k] == t[1..][k - 1];
        }
      }
    } else {
      var rest := Insert(x, t[1..], key);
      assert Insert(x, t, key) == [t[0]] + rest;
      assert ([t[0]] + rest)[1..] == rest;
      FindInsert(x, t[1..], p, key);
    }
  }

  /** Sorting stably and then taking the first qualifying element picks the
      first element of minimal key among the qualifying ones. */
  lemma {:induction false} FindSorted<T>(s: seq<T>, p: T -> bool, key: T -> int)
    ensures Find(SortByKey(s, key), p) == FirstMin(s, p, key)
  {
    if s != [] {
      FindSorted(s[1..], p, key);
      FindInsert(s[0], SortByKey(s[1..], key), p, key);
    }
  }

  /** `FirstMin` one element at a time. */
  lemma FirstMinUnfold<T>(s: seq<T>, p: T -> bool, key: T -> int)
    requires s != []
    ensures FirstMin(s, p, key) ==
              var r := FirstMin(s[1..], p, key);
              if p(s[0]) && (r.None? || key(s[0]) <= key(r.value)) then Some(s[0]) else r
  {
  }

  /** Filtering first changes nothing: the first minimal element among all
      elements of `Filter(s, p)` is the first minimal qualifying one of `s`. */
  lemma {:induction false} FirstMinFilter<T>(s: seq<T>, p: T -> bool, key: T -> int)
    ensures FirstMin(Filter(s, p), _ => true, key) == FirstMin(s, p, key)
  {
    if s != [] {
      FirstMinFilter(s[1..], p, key);
      FirstMinUnfold(s, p, key);
      var f := Filter(s, p);
      if p(s[0]) {
        assert f == [s[0]] + Filter(s[1..], p);
        assert f[1..] == Filter(s[1..], p);
        FirstMinUnfold(f, _ => true, key);
      } else {
        assert f == Filter(s[1..], p);
      }
    }
  }

  /** `filter(p).sort(byKey)[0]` is the first qualifying element of minimal key. */
  lemma FilterSortHead<T>(s: seq<T>, p: T -> bool, key: T -> int)
    ensures Head(SortByKey(Filter(s, p), key)) == FirstMin(s, p, key)
  {
    var f := Filter(s, p);
    FindSorted(f, _ => true, key);
    FirstMinFilter(s, p, key);
    var sorted := SortByKey(f, key);
    if sorted != [] {
      assert Find(sorted, _ => true) == Some(sorted[0]);
    }
  }
}
