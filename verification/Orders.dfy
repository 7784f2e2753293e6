/** Python's `sorted` and `sum` over a list: what they give does not depend on the list's order. */
module Orders {

  // ---------------------------------------------------------------------------
  // Sorting by a total order
  // ---------------------------------------------------------------------------

  ghost predicate TotalOrder<T(!new)>(le: (T, T) -> bool) {
    && (forall x, y :: le(x, y) || le(y, x))
    && forall x, y, z :: le(x, y) && le(y, z) ==> le(x, z)
  }

  ghost predicate Sorted<T>(s: seq<T>, le: (T, T) -> bool) {
    forall i, j :: 0 <= i < j < |s| ==> le(s[i], s[j])
  }

  /** Stable: a new element goes behind the ones it ties with. */
  function Insert<T>(s: seq<T>, x: T, le: (T, T) -> bool): seq<T> {
    if s == [] then [x]
    else if le(s[|s| - 1], x) then s + [x]
    else Insert(s[..|s| - 1], x, le) + [s[|s| - 1]]
  }

  function Sort<T>(s: seq<T>, le: (T, T) -> bool): seq<T> {
    if s == [] then [] else Insert(Sort(s[..|s| - 1], le), s[|s| - 1], le)
  }

  lemma {:induction false} InsertKeeps<T>(s: seq<T>, x: T, le: (T, T) -> bool)
    ensures multiset(Insert(s, x, le)) == multiset(s) + multiset{x}
  {
    if s != [] && !le(s[|s| - 1], x) {
      InsertKeeps(s[..|s| - 1], x, le);
      WithoutLast(s);
    }
  }

  lemma InsertMembers<T>(s: seq<T>, x: T, le: (T, T) -> bool, y: T)
    requires y in Insert(s, x, le)
    ensures y == x || y in s
  {
    InsertKeeps(s, x, le);
    hide Insert;
    assert y in multiset(Insert(s, x, le));
  }

  lemma SortedMore<T>(s: seq<T>, last: T, le: (T, T) -> bool)
    requires Sorted(s, le) && forall i :: 0 <= i < |s| ==> le(s[i], last)
    ensures Sorted(s + [last], le)
  {}

  lemma {:induction false} InsertFacts<T(!new)>(s: seq<T>, x: T, le: (T, T) -> bool)
    requires TotalOrder(le) && Sorted(s, le)
    ensures multiset(Insert(s, x, le)) == multiset(s) + multiset{x}
    ensures Sorted(Insert(s, x, le), le)
  {
    InsertKeeps(s, x, le);
    if s != [] {
      var init, last := s[..|s| - 1], s[|s| - 1];
      if !le(last, x) {
        InsertFacts(init, x, le);
        var r := Insert(init, x, le);
        assert Insert(s, x, le) == r + [last];
        hide Insert;
        forall i | 0 <= i < |r| ensures le(r[i], last) { InsertMembers(init, x, le, r[i]); }
        SortedMore(r, last, le);
      } else {
        hide Insert;
        forall i | 0 <= i < |s| ensures le(s[i], x) {
          assert i == |s| - 1 || le(s[i], last);
        }
        SortedMore(s, x, le);
      }
    }
  }

  lemma {:induction false} SortFacts<T(!new)>(s: seq<T>, le: (T, T) -> bool)
    requires TotalOrder(le)
    ensures multiset(Sort(s, le)) == multiset(s) && |Sort(s, le)| == |s|
    ensures Sorted(Sort(s, le), le)
  {
    if s != [] {
      var init := s[..|s| - 1];
      assert s == init + [s[|s| - 1]];
      SortFacts(init, le);
      InsertFacts(Sort(init, le), s[|s| - 1], le);
    }
    assert |multiset(Sort(s, le))| == |multiset(s)|;
  }

  /** The elements that tie with `x`, in their order. */
  function Tied<T>(s: seq<T>, x: T, le: (T, T) -> bool): seq<T> {
    if s == [] then []
    else Tied(s[..|s| - 1], x, le) + (if le(s[|s| - 1], x) && le(x, s[|s| - 1]) then [s[|s| - 1]] else [])
  }

  lemma TiedMore<T>(s: seq<T>, y: T, x: T, le: (T, T) -> bool)
    ensures Tied(s + [y], x, le) == Tied(s, x, le) + (if le(y, x) && le(x, y) then [y] else [])
  {
    assert (s + [y])[..|s|] == s;
  }

  lemma {:induction false} InsertStable<T(!new)>(s: seq<T>, y: T, x: T, le: (T, T) -> bool)
    requires TotalOrder(le)
    ensures Tied(Insert(s, y, le), x, le) == Tied(s, x, le) + (if le(y, x) && le(x, y) then [y] else [])
  {
    if s == [] || le(s[|s| - 1], y) {
      TiedMore(s, y, x, le);
    } else {
      var init, last := s[..|s| - 1], s[|s| - 1];
      InsertStable(init, y, x, le);
      TiedMore(Insert(init, y, le), last, x, le);
    }
  }

  /** Sorting is stable: elements that tie keep their order. */
  lemma {:induction false} SortStable<T(!new)>(s: seq<T>, x: T, le: (T, T) -> bool)
    requires TotalOrder(le)
    ensures Tied(Sort(s, le), x, le) == Tied(s, x, le)
  {
    if s != [] {
      SortStable(s[..|s| - 1], x, le);
      InsertStable(Sort(s[..|s| - 1], le), s[|s| - 1], x, le);
    }
  }

  lemma WithoutFirst<T>(s: seq<T>)
    requires s != []
    ensures multiset(s) == multiset(s[1..]) + multiset{s[0]}
  {
    assert s == [s[0]] + s[1..];
  }

  lemma WithoutLast<T>(s: seq<T>)
    requires s != []
    ensures multiset(s) == multiset(s[..|s| - 1]) + multiset{s[|s| - 1]}
  {
    assert s == s[..|s| - 1] + [s[|s| - 1]];
  }

  lemma LastOrBefore<T>(s: seq<T>, x: T)
    requires s != []
    ensures x in s <==> x in s[..|s| - 1] || x == s[|s| - 1]
  {
    assert s == s[..|s| - 1] + [s[|s| - 1]];
  }

  lemma Without<T>(s: seq<T>, i: nat)
    requires i < |s|
    ensures multiset(s) == multiset(s[..i] + s[i + 1..]) + multiset{s[i]}
  {
    assert s == s[..i] + [s[i]] + s[i + 1..];
  }

  lemma SameLength<T>(a: seq<T>, b: seq<T>)
    requires multiset(a) == multiset(b)
    ensures |a| == |b|
  {
    assert |multiset(a)| == |a| && |multiset(b)| == |b|;
  }

  lemma SameElements<T>(a: seq<T>, b: seq<T>, x: T)
    requires multiset(a) == multiset(b)
    ensures x in a <==> x in b
  {
    assert x in a <==> x in multiset(a);
    assert x in b <==> x in multiset(b);
  }

  /** In two sorted arrangements of the same elements the first ones tie. */
  lemma FirstsTie<T(!new)>(a: seq<T>, b: seq<T>, le: (T, T) -> bool)
    requires Sorted(a, le) && Sorted(b, le) && multiset(a) == multiset(b) && a != [] && b != []
    ensures a[0] in b && b[0] in a
    ensures a[0] == b[0] || (le(a[0], b[0]) && le(b[0], a[0]))
  {
    SameElements(a, b, a[0]);
    SameElements(a, b, b[0]);
    var i :| 0 <= i < |b| && b[i] == a[0];
    var j :| 0 <= j < |a| && a[j] == b[0];
    assert i == 0 || le(b[0], b[i]);
    assert j == 0 || le(a[0], a[j]);
  }

  /** No two different elements tie. */
  ghost predicate NoTies<T(!new)>(s: seq<T>, le: (T, T) -> bool) {
    forall x, y :: x in s && y in s && le(x, y) && le(y, x) ==> x == y
  }

  lemma NoTiesPasses<T(!new)>(a: seq<T>, b: seq<T>, le: (T, T) -> bool)
    requires NoTies(a, le) && forall x :: x in b ==> x in a
    ensures NoTies(b, le)
  {}

  lemma RestSorted<T>(s: seq<T>, le: (T, T) -> bool)
    requires s != [] && Sorted(s, le)
    ensures Sorted(s[1..], le)
  {}

  lemma SameFirstSameRest<T>(a: seq<T>, b: seq<T>)
    requires a != [] && b != [] && a[0] == b[0] && multiset(a) == multiset(b)
    ensures multiset(a[1..]) == multiset(b[1..])
  {
    WithoutFirst(a);
    WithoutFirst(b);
    SameRest(multiset(a[1..]), multiset(b[1..]), a[0]);
  }

  /** Where no two different elements tie, there is one sorted arrangement. */
  lemma {:induction false} SortedUnique<T(!new)>(a: seq<T>, b: seq<T>, le: (T, T) -> bool)
    requires Sorted(a, le) && Sorted(b, le) && multiset(a) == multiset(b)
    requires NoTies(a, le)
    ensures a == b
  {
    SameLength(a, b);
    if a != [] {
      FirstsTie(a, b, le);
      assert a[0] == b[0];
      SameFirstSameRest(a, b);
      RestSorted(a, le);
      RestSorted(b, le);
      NoTiesPasses(a, a[1..], le);
      hide *;
      SortedUnique(a[1..], b[1..], le);
      assert a == [a[0]] + a[1..] && b == [b[0]] + b[1..];
    }
  }

  lemma SortIgnoresOrder<T(!new)>(a: seq<T>, b: seq<T>, le: (T, T) -> bool)
    requires TotalOrder(le) && multiset(a) == multiset(b)
    requires NoTies(a, le)
    ensures Sort(a, le) == Sort(b, le)
  {
    SortFacts(a, le);
    SortFacts(b, le);
    var s := Sort(a, le);
    forall x | x in s ensures x in a {
      SameElements(s, a, x);
    }
    NoTiesPasses(a, s, le);
    SortedUnique(s, Sort(b, le), le);
  }

  // ---------------------------------------------------------------------------
  // Lists with the same members
  // ---------------------------------------------------------------------------

  ghost predicate SameMembers<T(!new)>(a: seq<T>, b: seq<T>) {
    forall x :: x in a <==> x in b
  }

  ghost predicate NoRepeats<T>(s: seq<T>) {
    forall i, j :: 0 <= i < j < |s| ==> s[i] != s[j]
  }

  lemma SameEmptiness<T(!new)>(a: seq<T>, b: seq<T>)
    requires SameMembers(a, b)
    ensures a == [] <==> b == []
  {
    if a != [] { var x := a[0]; assert x in a; assert x in b; }
    if b != [] { var x := b[0]; assert x in b; assert x in a; }
  }

  lemma {:induction false} AsSet<T>(s: seq<T>)
    requires NoRepeats(s)
    ensures multiset(s) == multiset(set x | x in s)
  {
    if s != [] {
      var init, last := s[..|s| - 1], s[|s| - 1];
      AsSet(init);
      WithoutLast(s);
      assert last !in init;
      assert (set x | x in s) == (set x | x in init) + {last};
    }
  }

  /** Two lists without repeats and with the same members are rearrangements of each other. */
  lemma Rearranged<T(!new)>(a: seq<T>, b: seq<T>)
    requires NoRepeats(a) && NoRepeats(b) && SameMembers(a, b)
    ensures multiset(a) == multiset(b)
  {
    AsSet(a);
    AsSet(b);
    assert (set x | x in a) == (set x | x in b);
  }

  // ---------------------------------------------------------------------------
  // Sums
  // ---------------------------------------------------------------------------

  function Sum(s: seq<real>): real {
    if s == [] then 0.0 else Sum(s[..|s| - 1]) + s[|s| - 1]
  }

  lemma {:induction false} SumAppend(a: seq<real>, b: seq<real>)
    ensures Sum(a + b) == Sum(a) + Sum(b)
  {
    if b == [] {
      assert a + b == a;
    } else {
      assert (a + b)[..|a + b| - 1] == a + b[..|b| - 1];
      SumAppend(a, b[..|b| - 1]);
    }
  }

  lemma SumOne(x: real)
    ensures Sum([x]) == x
  {
    assert [x][..0] == [];
  }

  lemma SumRemove(s: seq<real>, i: nat)
    requires i < |s|
    ensures Sum(s) == Sum(s[..i] + s[i + 1..]) + s[i]
  {
    hide Sum;
    var before, x, after := s[..i], s[i], s[i + 1..];
    assert s == before + ([x] + after);
    SumAppend(before, [x] + after);
    SumAppend([x], after);
    SumAppend(before, after);
    SumOne(x);
  }

  lemma {:induction false} SumIgnoresOrder(a: seq<real>, b: seq<real>)
    requires multiset(a) == multiset(b)
    ensures Sum(a) == Sum(b)
    decreases |a|
  {
    SameLength(a, b);
    if a != [] {
      var last := a[|a| - 1];
      SameElements(a, b, last);
      var i :| 0 <= i < |b| && b[i] == last;
      SumRemove(b, i);
      WithoutLast(a);
      Without(b, i);
      SameRest(multiset(a[..|a| - 1]), multiset(b[..i] + b[i + 1..]), last);
      SumIgnoresOrder(a[..|a| - 1], b[..i] + b[i + 1..]);
    }
  }

  lemma SameRest<T>(a: multiset<T>, b: multiset<T>, x: T)
    requires a + multiset{x} == b + multiset{x}
    ensures a == b
  {
    assert a == (a + multiset{x}) - multiset{x};
    assert b == (b + multiset{x}) - multiset{x};
  }

  // ---------------------------------------------------------------------------
  // Lists made from lists
  // ---------------------------------------------------------------------------

  function Map<A, B>(s: seq<A>, f: A -> B): (r: seq<B>)
    ensures |r| == |s| && forall i :: 0 <= i < |s| ==> r[i] == f(s[i])
  {
    seq(|s|, i requires 0 <= i < |s| => f(s[i]))
  }

  lemma MapRemove<A, B>(s: seq<A>, f: A -> B, i: nat)
    requires i < |s|
    ensures multiset(Map(s, f)) == multiset(Map(s[..i] + s[i + 1..], f)) + multiset{f(s[i])}
  {
    var m := Map(s, f);
    Without(m, i);
    assert Map(s[..i] + s[i + 1..], f) == m[..i] + m[i + 1..];
  }

  lemma {:induction false} MapKeepsArrangement<A, B>(a: seq<A>, b: seq<A>, f: A -> B)
    requires multiset(a) == multiset(b)
    ensures multiset(Map(a, f)) == multiset(Map(b, f))
    decreases |a|
  {
    SameLength(a, b);
    if a != [] {
      var i := |a| - 1;
      SameElements(a, b, a[i]);
      var j :| 0 <= j < |b| && b[j] == a[i];
      MapRemove(a, f, i);
      MapRemove(b, f, j);
      Without(a, i);
      Without(b, j);
      SameRest(multiset(a[..i] + a[i + 1..]), multiset(b[..j] + b[j + 1..]), a[i]);
      MapKeepsArrangement(a[..i] + a[i + 1..], b[..j] + b[j + 1..], f);
    }
  }

  /** The lists `f` makes of the elements, one after another. */
  function Pool<A, B>(s: seq<A>, f: A -> seq<B>): seq<B> {
    if s == [] then [] else Pool(s[..|s| - 1], f) + f(s[|s| - 1])
  }

  lemma {:induction false} PoolAppend<A, B>(a: seq<A>, b: seq<A>, f: A -> seq<B>)
    ensures Pool(a + b, f) == Pool(a, f) + Pool(b, f)
    decreases |b|
  {
    if b == [] {
      assert a + b == a;
    } else {
      assert (a + b)[..|a + b| - 1] == a + b[..|b| - 1];
      PoolAppend(a, b[..|b| - 1], f);
    }
  }

  lemma PoolOne<A, B>(x: A, f: A -> seq<B>)
    ensures Pool([x], f) == f(x)
  {
    assert [x][..0] == [];
  }

  lemma PoolRemove<A, B>(s: seq<A>, f: A -> seq<B>, i: nat)
    requires i < |s|
    ensures multiset(Pool(s, f)) == multiset(Pool(s[..i] + s[i + 1..], f)) + multiset(f(s[i]))
  {
    hide Pool;
    var before, x, after := s[..i], s[i], s[i + 1..];
    assert s == before + ([x] + after);
    PoolAppend(before, [x] + after, f);
    PoolAppend([x], after, f);
    PoolAppend(before, after, f);
    PoolOne(x, f);
    MiddleOut(Pool(before, f), f(x), Pool(after, f));
  }

  lemma MiddleOut<T>(x: seq<T>, y: seq<T>, z: seq<T>)
    ensures multiset(x + (y + z)) == multiset(x + z) + multiset(y)
  {}

  lemma {:induction false} PoolKeepsArrangement<A, B>(a: seq<A>, b: seq<A>, f: A -> seq<B>)
    requires multiset(a) == multiset(b)
    ensures multiset(Pool(a, f)) == multiset(Pool(b, f))
    decreases |a|
  {
    SameLength(a, b);
    if a != [] {
      var i := |a| - 1;
      SameElements(a, b, a[i]);
      var j :| 0 <= j < |b| && b[j] == a[i];
      PoolRemove(a, f, i);
      PoolRemove(b, f, j);
      Without(a, i);
      Without(b, j);
      SameRest(multiset(a[..i] + a[i + 1..]), multiset(b[..j] + b[j + 1..]), a[i]);
      PoolKeepsArrangement(a[..i] + a[i + 1..], b[..j] + b[j + 1..], f);
    }
  }
}
