/** Sorting by a key order, and the order of strings. */
module Sorting {

  ghost predicate TotalPreorder<T(!new)>(le: (T, T) -> bool) {
    && (forall a, b :: le(a, b) || le(b, a))
    && (forall a, b, c :: le(a, b) && le(b, c) ==> le(a, c))
  }

  ghost predicate SortedBy<T>(s: seq<T>, le: (T, T) -> bool) {
    forall i, j :: 0 <= i < j < |s| ==> le(s[i], s[j])
  }

  /** Different elements have different keys. */
  ghost predicate NoTies<T(!new)>(s: seq<T>, le: (T, T) -> bool) {
    forall x, y :: x in s && y in s && le(x, y) && le(y, x) ==> x == y
  }

  /** Inserts after everything that is not greater, so equal keys keep their order. */
  function Insert<T>(x: T, s: seq<T>, le: (T, T) -> bool): (r: seq<T>)
    ensures multiset(r) == multiset(s) + multiset{x} && |r| == |s| + 1
  {
    if s == [] then [x]
    else if le(s[|s| - 1], x) then s + [x]
    else
      assert s == s[..|s| - 1] + [s[|s| - 1]];
      Insert(x, s[..|s| - 1], le) + [s[|s| - 1]]
  }

  /** A stable sort. */
  function Sort<T>(s: seq<T>, le: (T, T) -> bool): (r: seq<T>)
    ensures multiset(r) == multiset(s) && |r| == |s|
  {
    if s == [] then []
    else
      assert s == s[..|s| - 1] + [s[|s| - 1]];
      Insert(s[|s| - 1], Sort(s[..|s| - 1], le), le)
  }

  lemma {:induction false} InsertSorted<T(!new)>(x: T, s: seq<T>, le: (T, T) -> bool)
    requires TotalPreorder(le) && SortedBy(s, le)
    ensures SortedBy(Insert(x, s, le), le)
  {
    if s != [] && !le(s[|s| - 1], x) {
      var init, last := s[..|s| - 1], s[|s| - 1];
      InsertSorted(x, init, le);
      var r := Insert(x, init, le);
      forall i | 0 <= i < |r| ensures le(r[i], last) {
        InsertMembers(x, init, le, i);
      }
    }
  }

  lemma InsertMembers<T>(x: T, s: seq<T>, le: (T, T) -> bool, i: nat)
    requires i < |Insert(x, s, le)|
    ensures Insert(x, s, le)[i] == x || Insert(x, s, le)[i] in s
  {
    assert Insert(x, s, le)[i] in multiset(Insert(x, s, le));
  }

  lemma {:induction false} SortSorted<T(!new)>(s: seq<T>, le: (T, T) -> bool)
    requires TotalPreorder(le)
    ensures SortedBy(Sort(s, le), le)
  {
    if s != [] {
      SortSorted(s[..|s| - 1], le);
      InsertSorted(s[|s| - 1], Sort(s[..|s| - 1], le), le);
    }
  }

  /** Where no two different elements tie, there is one sorted arrangement. */
  lemma {:induction false} SortedUnique<T(!new)>(a: seq<T>, b: seq<T>, le: (T, T) -> bool)
    requires SortedBy(a, le) && SortedBy(b, le) && multiset(a) == multiset(b)
    requires NoTies(a, le)
    ensures a == b
  {
    hide SortedBy, NoTies;
    assert |multiset(a)| == |a| && |multiset(b)| == |b|;
    if a != [] {
      var x := a[|a| - 1];
      LastIsGreatest(a, b, le);
      InitOf(a, le);
      InitOf(b, le);
      assert multiset(a[..|a| - 1]) == multiset(a) - multiset{x} == multiset(b[..|b| - 1]);
      SortedUnique(a[..|a| - 1], b[..|b| - 1], le);
    }
  }

  lemma InitOf<T(!new)>(s: seq<T>, le: (T, T) -> bool)
    requires s != [] && SortedBy(s, le)
    ensures var init := s[..|s| - 1];
      && s == init + [s[|s| - 1]] && SortedBy(init, le) && multiset(init) == multiset(s) - multiset{s[|s| - 1]}
      && (NoTies(s, le) ==> NoTies(init, le))
  {
    var init := s[..|s| - 1];
    assert s == init + [s[|s| - 1]];
  }

  lemma LastIsGreatest<T(!new)>(a: seq<T>, b: seq<T>, le: (T, T) -> bool)
    requires a != [] && b != [] && SortedBy(a, le) && SortedBy(b, le) && multiset(a) == multiset(b)
    requires NoTies(a, le)
    ensures a[|a| - 1] == b[|b| - 1]
  {
    var x, y := a[|a| - 1], b[|b| - 1];
    assert x in multiset(b) && y in multiset(a);
    var i :| 0 <= i < |b| && b[i] == x;
    var j :| 0 <= j < |a| && a[j] == y;
  }

  lemma SortIsUnique<T(!new)>(a: seq<T>, b: seq<T>, le: (T, T) -> bool)
    requires TotalPreorder(le) && multiset(a) == multiset(b)
    requires NoTies(a, le)
    ensures Sort(a, le) == Sort(b, le)
  {
    SortSorted(a, le);
    SortSorted(b, le);
    SortMembers(a, le);
    SortedUnique(Sort(a, le), Sort(b, le), le);
  }

  lemma SortMembers<T>(s: seq<T>, le: (T, T) -> bool)
    ensures forall x :: x in Sort(s, le) <==> x in s
  {
    assert forall x :: x in Sort(s, le) <==> x in multiset(Sort(s, le));
    assert forall x :: x in s <==> x in multiset(s);
  }

  /** `g` of every element, in order. */
  function Map<T, U>(s: seq<T>, g: T -> U): (r: seq<U>)
    ensures |r| == |s| && forall i :: 0 <= i < |s| ==> r[i] == g(s[i])
  {
    if s == [] then [] else Map(s[..|s| - 1], g) + [g(s[|s| - 1])]
  }

  lemma MapCons<T, U>(s: seq<T>, g: T -> U)
    requires s != []
    ensures Map(s, g) == [g(s[0])] + Map(s[1..], g) && Map(s, g)[1..] == Map(s[1..], g)
  {
    hide Map;
    assert Map(s, g) == [g(s[0])] + Map(s[1..], g);
  }

  lemma {:induction false} InsertKeepsMap<T, U>(x: T, s: seq<T>, le: (T, T) -> bool, g: T -> U)
    ensures multiset(Map(Insert(x, s, le), g)) == multiset(Map(s, g)) + multiset{g(x)}
  {
    if s == [] {
      assert Map([x], g) == [g(x)];
    } else if le(s[|s| - 1], x) {
      assert Map(s + [x], g) == Map(s, g) + [g(x)];
    } else {
      var init, last := s[..|s| - 1], s[|s| - 1];
      InsertKeepsMap(x, init, le, g);
      assert Map(Insert(x, init, le) + [last], g) == Map(Insert(x, init, le), g) + [g(last)];
      assert Map(s, g) == Map(init, g) + [g(last)];
    }
  }

  /** Sorting moves elements about and does nothing else to what they carry. */
  lemma {:induction false} SortKeepsMap<T, U>(s: seq<T>, le: (T, T) -> bool, g: T -> U)
    ensures multiset(Map(Sort(s, le), g)) == multiset(Map(s, g))
  {
    if s != [] {
      var init, last := s[..|s| - 1], s[|s| - 1];
      SortKeepsMap(init, le, g);
      InsertKeepsMap(last, Sort(init, le), le, g);
      assert Map(s, g) == Map(init, g) + [g(last)];
    }
  }

  /** A change that leaves the key alone commutes with sorting. */
  lemma {:induction false} SortMap<T>(s: seq<T>, le: (T, T) -> bool, g: T -> T)
    requires forall x, y :: le(g(x), g(y)) == le(x, y)
    ensures Sort(Map(s, g), le) == Map(Sort(s, le), g)
  {
    if s != [] {
      var init, last := s[..|s| - 1], s[|s| - 1];
      SortMap(init, le, g);
      InsertMap(last, Sort(init, le), le, g);
      assert Map(s, g)[..|s| - 1] == Map(init, g);
    }
  }

  lemma {:induction false} InsertMap<T>(x: T, s: seq<T>, le: (T, T) -> bool, g: T -> T)
    requires forall x, y :: le(g(x), g(y)) == le(x, y)
    ensures Insert(g(x), Map(s, g), le) == Map(Insert(x, s, le), g)
  {
    if s == [] {
      assert Map([x], g) == [g(x)];
    } else if le(s[|s| - 1], x) {
      assert Map(s + [x], g) == Map(s, g) + [g(x)];
    } else {
      var init, last := s[..|s| - 1], s[|s| - 1];
      InsertMap(x, init, le, g);
      assert Map(s, g)[..|s| - 1] == Map(init, g);
      assert Map(Insert(x, init, le) + [last], g) == Map(Insert(x, init, le), g) + [g(last)];
    }
  }

  /** Rearranging changes no membership. */
  lemma SameElements<T>(a: seq<T>, b: seq<T>)
    requires multiset(a) == multiset(b)
    ensures forall x :: x in a <==> x in b
  {
    assert forall x :: x in a <==> x in multiset(a);
    assert forall x :: x in b <==> x in multiset(b);
  }

  /** No two elements have the same key. */
  ghost predicate DistinctBy<T, K>(s: seq<T>, key: T -> K) {
    forall i, j :: 0 <= i < j < |s| ==> key(s[i]) != key(s[j])
  }

  /** Distinctness does not depend on the arrangement. */
  lemma DistinctInAnyOrder<T, K>(a: seq<T>, b: seq<T>, key: T -> K)
    requires DistinctBy(a, key) && multiset(a) == multiset(b)
    ensures DistinctBy(b, key)
  {
    forall i, j | 0 <= i < j < |b| ensures key(b[i]) != key(b[j]) {
      assert b[i] in multiset(a) && b[j] in multiset(a);
      AtMostOnce(a, key, b[i]);
      if b[i] == b[j] { CountedTwice(b, i, j); }
    }
  }

  lemma CountedTwice<T>(b: seq<T>, i: nat, j: nat)
    requires i < j < |b| && b[i] == b[j]
    ensures multiset(b)[b[i]] >= 2
  {
    assert b == b[..i] + [b[i]] + b[i + 1..j] + [b[j]] + b[j + 1..];
  }

  lemma {:induction false} AtMostOnce<T, K>(a: seq<T>, key: T -> K, x: T)
    requires DistinctBy(a, key)
    ensures multiset(a)[x] <= 1
  {
    if a != [] {
      assert DistinctBy(a[1..], key);
      AtMostOnce(a[1..], key, x);
      assert a == [a[0]] + a[1..];
      assert a[0] !in a[1..];
      assert x == a[0] ==> x !in multiset(a[1..]);
    }
  }

  /** The front of a sorted sequence comes before everything else in it. */
  lemma FrontIsFirst<T>(s: seq<T>, n: nat, le: (T, T) -> bool)
    requires SortedBy(s, le) && n <= |s|
    ensures SortedBy(s[..n], le) && multiset(s[..n]) <= multiset(s)
    ensures forall c, x :: c in s[..n] && x in s && x !in s[..n] ==> le(c, x)
  {
    assert s == s[..n] + s[n..];
    assert forall k :: 0 <= k < n ==> s[k] in s[..n];
    forall c, x | c in s[..n] && x in s && x !in s[..n] ensures le(c, x) {
      var i :| 0 <= i < n && s[i] == c;
      var j :| 0 <= j < |s| && s[j] == x;
    }
  }

  // -------------------------------------------------------------- strings

  /** Code point order, as strings compare. */
  predicate StringLe(a: string, b: string) {
    if a == [] then true
    else if b == [] then false
    else if a[0] != b[0] then a[0] < b[0]
    else StringLe(a[1..], b[1..])
  }

  lemma {:induction false} StringTotal(a: string, b: string)
    ensures StringLe(a, b) || StringLe(b, a)
    ensures StringLe(a, b) && StringLe(b, a) ==> a == b
  {
    if a != [] && b != [] && a[0] == b[0] {
      StringTotal(a[1..], b[1..]);
      assert a == [a[0]] + a[1..] && b == [b[0]] + b[1..];
    }
  }

  lemma {:induction false} StringTransitive(a: string, b: string, c: string)
    requires StringLe(a, b) && StringLe(b, c)
    ensures StringLe(a, c)
  {
    if a != [] && b != [] && c != [] && a[0] == b[0] && b[0] == c[0] {
      StringTransitive(a[1..], b[1..], c[1..]);
    }
  }
}
