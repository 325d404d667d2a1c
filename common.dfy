/** Values shared by the server and the client models: optional values,
    the task enumerations and the decimal rendering used in messages. */
module Common {

  datatype Option<+T> = None | Some(value: T)

  datatype Priority = Low | Medium | High

  /** "Pending", "In Progress" and "Done". */
  datatype Status = Pending | InProgress | Done

  /** Pending and In Progress tasks are active; Done tasks are terminal. */
  predicate IsActive(s: Status) {
    s != Done
  }

  // ----- JavaScript's array searches and filters -----

  /** `s.findIndex(p)`, with -1 written as `|s|`: the position of the first
      element that satisfies `p`. */
  function FirstIndex<T>(s: seq<T>, p: T -> bool): (r: nat)
    ensures r <= |s|
    ensures r < |s| ==> p(s[r])
    ensures forall j :: 0 <= j < r ==> !p(s[j])
  {
    if s == [] then 0
    else if p(s[0]) then 0
    else 1 + FirstIndex(s[1..], p)
  }

  /** `s.find(p)`: the first element that satisfies `p`, None when none does. */
  function Find<T>(s: seq<T>, p: T -> bool): (r: Option<T>)
    ensures r.None? <==> forall i :: 0 <= i < |s| ==> !p(s[i])
    ensures r.Some? ==> exists i :: 0 <= i < |s| && s[i] == r.value && p(s[i])
                                     && forall j :: 0 <= j < i ==> !p(s[j])
  {
    if s == [] then None
    else if p(s[0]) then Some(s[0])
    else
      var r := Find(s[1..], p);
      assert forall i :: 1 <= i < |s| ==> s[1..][i - 1] == s[i];
      r
  }

  /** `s.filter(p)`: every element that satisfies `p`, and nothing else;
      `FilterCounts` gives the multiplicities and `FilterAppend` the order. */
  function Filter<T>(s: seq<T>, p: T -> bool): (r: seq<T>)
    ensures |r| <= |s|
    ensures forall i :: 0 <= i < |r| ==> r[i] in s && p(r[i])
    ensures forall i :: 0 <= i < |s| && p(s[i]) ==> s[i] in r
  {
    if s == [] then [] else if p(s[0]) then [s[0]] + Filter(s[1..], p) else Filter(s[1..], p)
  }

  /** Each element that satisfies `p` is kept as often as it occurs; the others are dropped. */
  lemma {:induction false} FilterCounts<T(!new)>(s: seq<T>, p: T -> bool)
    ensures forall x :: multiset(Filter(s, p))[x] == if p(x) then multiset(s)[x] else 0
  {
    if s != [] {
      FilterCounts(s[1..], p);
      assert s == [s[0]] + s[1..];
      assert multiset(s) == multiset{s[0]} + multiset(s[1..]);
      if p(s[0]) {
        assert multiset(Filter(s, p)) == multiset{s[0]} + multiset(Filter(s[1..], p));
      }
    }
  }

  /** Filtering keeps the order: it distributes over concatenation. */
  lemma {:induction false} FilterAppend<T>(a: seq<T>, b: seq<T>, p: T -> bool)
    ensures Filter(a + b, p) == Filter(a, p) + Filter(b, p)
  {
    if a == [] {
      assert a + b == b;
    } else {
      assert (a + b)[0] == a[0] && (a + b)[1..] == a[1..] + b;
      FilterAppend(a[1..], b, p);
    }
  }

  /** Filtering one more element at the end. */
  lemma FilterSnoc<T>(s: seq<T>, x: T, p: T -> bool)
    ensures Filter(s + [x], p) == Filter(s, p) + (if p(x) then [x] else [])
  {
    FilterAppend(s, [x], p);
    assert [x][1..] == [];
  }

  /** `filter` with a test every element passes changes nothing. */
  lemma {:induction false} FilterAll<T>(s: seq<T>, p: T -> bool)
    requires forall i :: 0 <= i < |s| ==> p(s[i])
    ensures Filter(s, p) == s
  {
    if s != [] {
      FilterAll(s[1..], p);
      assert s == [s[0]] + s[1..];
    }
  }

  function Min(a: int, b: int): int {
    if a <= b then a else b
  }

  function Max(a: int, b: int): int {
    if a >= b then a else b
  }

  predicate IsDigit(c: char) {
    '0' <= c <= '9'
  }

  /** The decimal value of a string of digits. */
  function DigitsValue(s: string): nat
    requires forall i :: 0 <= i < |s| ==> IsDigit(s[i])
  {
    if s == [] then 0
    else
      assert IsDigit(s[|s| - 1]);
      10 * DigitsValue(s[..|s| - 1]) + (s[|s| - 1] as int - '0' as int)
  }

  /** JavaScript's rendering of a non-negative integer inside a template literal. */
  function NatToString(n: nat): (s: string)
    ensures |s| >= 1
    ensures forall i :: 0 <= i < |s| ==> IsDigit(s[i])
    ensures DigitsValue(s) == n
    ensures n >= 10 ==> s[0] != '0'
    decreases n
  {
    if n < 10 then [('0' as int + n) as char]
    else
      var prefix := NatToString(n / 10);
      var s := prefix + [('0' as int + n % 10) as char];
      assert s[..|s| - 1] == prefix;
      s
  }

  /** The over-capacity warning both the server and the task form show:
      "<name> has <n> tasks but capacity is <cap>. Assign anyway?". */
  function CapacityWarning(name: string, n: nat, capacity: nat): string
  {
    name + " has " + NatToString(n) + " tasks but capacity is " + NatToString(capacity) + ". Assign anyway?"
  }

  /** `counts[key] || 0`. */
  function CountOf(counts: map<string, nat>, key: string): nat {
    if key in counts then counts[key] else 0
  }
}
