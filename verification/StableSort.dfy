/**
 A stable sort, as JavaScript's Array.prototype.sort is specified to be.  The
 order is a total preorder: two different elements may tie.
 */
module StableSort {
  import Q = Sequences

  ghost predicate TotalPreorder<T(!new)>(leq: (T, T) -> bool) {
    && (forall a, b :: leq(a, b) || leq(b, a))
    && (forall a, b, c :: leq(a, b) && leq(b, c) ==> leq(a, c))
  }

  predicate Tied<T>(leq: (T, T) -> bool, a: T, b: T) {
    leq(a, b) && leq(b, a)
  }

  ghost predicate Sorted<T>(leq: (T, T) -> bool, s: seq<T>) {
    forall i, j :: 0 <= i < j < |s| ==> leq(s[i], s[j])
  }

  /** The elements of s that tie with c, in their order in s. */
  ghost function Ties<T>(leq: (T, T) -> bool, s: seq<T>, c: T): (r: seq<T>) {
    if s == [] then []
    else if Tied(leq, s[0], c) then [s[0]] + Ties(leq, s[1..], c)
    else Ties(leq, s[1..], c)
  }

  /** No two different elements of s tie. */
  ghost predicate TiesAreEqual<T>(leq: (T, T) -> bool, s: seq<T>) {
    forall x, y :: x in s && y in s && Tied(leq, x, y) ==> x == y
  }

  /** Where two different elements tie. */
  lemma {:induction false} FindTie<T(!new)>(leq: (T, T) -> bool, s: seq<T>) returns (i: nat, j: nat)
    requires !TiesAreEqual(leq, s)
    ensures i < j < |s| && Tied(leq, s[i], s[j]) && s[i] != s[j]
  {
    var x, y :| x in s && y in s && Tied(leq, x, y) && x != y;
    var k :| 0 <= k < |s| && s[k] == x;
    var m :| 0 <= m < |s| && s[m] == y;
    i, j := if k < m then k else m, if k < m then m else k;
  }

  function Insert<T>(leq: (T, T) -> bool, x: T, s: seq<T>): (r: seq<T>) {
    if s == [] || leq(x, s[0]) then [x] + s
    else [s[0]] + Insert(leq, x, s[1..])
  }

  function Sort<T>(leq: (T, T) -> bool, s: seq<T>): (r: seq<T>) {
    if s == [] then [] else Insert(leq, s[0], Sort(leq, s[1..]))
  }

  lemma {:induction false} InsertKeepsElements<T>(leq: (T, T) -> bool, x: T, s: seq<T>)
    ensures multiset(Insert(leq, x, s)) == multiset{x} + multiset(s)
    decreases s
  {
    if s == [] || leq(x, s[0]) {
    } else {
      InsertKeepsElements(leq, x, s[1..]);
      assert s == [s[0]] + s[1..];
    }
  }

  lemma {:induction false} SortKeepsElements<T>(leq: (T, T) -> bool, s: seq<T>)
    ensures multiset(Sort(leq, s)) == multiset(s)
    decreases s
  {
    if s == [] {
    } else {
      SortKeepsElements(leq, s[1..]);
      InsertKeepsElements(leq, s[0], Sort(leq, s[1..]));
      assert s == [s[0]] + s[1..];
    }
  }

  lemma {:induction false} InsertSorts<T(!new)>(leq: (T, T) -> bool, x: T, s: seq<T>)
    requires TotalPreorder(leq) && Sorted(leq, s)
    ensures Sorted(leq, Insert(leq, x, s))
    decreases s
  {
    if s == [] || leq(x, s[0]) {
    } else {
      InsertSorts(leq, x, s[1..]);
      InsertKeepsElements(leq, x, s[1..]);
      var t := Insert(leq, x, s[1..]);
      forall y | y in t ensures leq(s[0], y) {
        assert y in multiset(t);
        if y != x { assert y in multiset(s[1..]); }
      }
    }
  }

  lemma {:induction false} SortSorts<T(!new)>(leq: (T, T) -> bool, s: seq<T>)
    requires TotalPreorder(leq)
    ensures Sorted(leq, Sort(leq, s))
    decreases s
  {
    if s == [] {
    } else {
      SortSorts(leq, s[1..]);
      InsertSorts(leq, s[0], Sort(leq, s[1..]));
    }
  }

  lemma {:induction false} InsertKeepsTies<T(!new)>(leq: (T, T) -> bool, x: T, s: seq<T>, c: T)
    requires TotalPreorder(leq)
    ensures Ties(leq, Insert(leq, x, s), c) == Ties(leq, [x] + s, c)
    decreases s
  {
    assert ([x] + s)[1..] == s;
    if s == [] || leq(x, s[0]) {
    } else {
      var t := Insert(leq, x, s[1..]);
      InsertKeepsTies(leq, x, s[1..], c);
      assert ([x] + s[1..])[1..] == s[1..];
      assert ([s[0]] + t)[1..] == t;
    }
  }

  /** Stability: elements that tie keep the order they came in. */
  lemma {:induction false} SortKeepsTies<T(!new)>(leq: (T, T) -> bool, s: seq<T>, c: T)
    requires TotalPreorder(leq)
    ensures Ties(leq, Sort(leq, s), c) == Ties(leq, s, c)
    decreases s
  {
    if s == [] {
    } else {
      SortKeepsTies(leq, s[1..], c);
      var t := Sort(leq, s[1..]);
      InsertKeepsTies(leq, s[0], t, c);
      assert ([s[0]] + t)[1..] == t;
    }
  }

  lemma {:induction false} TiesConcat<T>(leq: (T, T) -> bool, a: seq<T>, b: seq<T>, c: T)
    ensures Ties(leq, a + b, c) == Ties(leq, a, c) + Ties(leq, b, c)
    decreases a
  {
    if a == [] {
      assert a + b == b;
    } else {
      assert (a + b)[1..] == a[1..] + b;
      TiesConcat(leq, a[1..], b, c);
    }
  }

  lemma {:induction false} SmallestComesFirst<T(!new)>(leq: (T, T) -> bool, r: seq<T>, s: seq<T>)
    requires r != [] && s != [] && multiset(r) == multiset(s) && Sorted(leq, r) && TotalPreorder(leq)
    ensures leq(r[0], s[0])
  {
    assert s[0] in multiset(r);
    var j :| 0 <= j < |r| && r[j] == s[0];
    assert leq(r[0], r[0]);
  }

  lemma {:induction false} HeadsAgree<T(!new)>(leq: (T, T) -> bool, r: seq<T>, s: seq<T>)
    requires r != [] && s != [] && multiset(r) == multiset(s) && TotalPreorder(leq)
    requires Sorted(leq, r) && Sorted(leq, s) && TiesAreEqual(leq, r)
    ensures r[0] == s[0]
  {
    SmallestComesFirst(leq, r, s);
    SmallestComesFirst(leq, s, r);
    assert s[0] in multiset(r);
    assert s[0] in r && Tied(leq, r[0], s[0]);
  }

  lemma {:induction false} TailsKeepElements<T>(r: seq<T>, s: seq<T>)
    requires r != [] && s != [] && r[0] == s[0] && multiset(r) == multiset(s)
    ensures multiset(r[1..]) == multiset(s[1..])
  {
    assert r == [r[0]] + r[1..] && s == [s[0]] + s[1..];
    assert multiset(r[1..]) == multiset(r) - multiset{r[0]};
    assert multiset(s[1..]) == multiset(s) - multiset{s[0]};
  }

  /** Where no two different elements tie, sorting forgets the input order. */
  lemma {:induction false} SortedIsUnique<T(!new)>(leq: (T, T) -> bool, r: seq<T>, s: seq<T>)
    requires multiset(r) == multiset(s)
    requires Sorted(leq, r) && Sorted(leq, s) && TiesAreEqual(leq, r)
    requires TotalPreorder(leq)
    ensures r == s
    decreases r
  {
    assert |r| == |multiset(r)| == |multiset(s)| == |s|;
    if r == [] {
    } else {
      HeadsAgree(leq, r, s);
      TailsKeepElements(r, s);
      SortedIsUnique(leq, r[1..], s[1..]);
      assert r == [r[0]] + r[1..] && s == [s[0]] + s[1..];
    }
  }

  /** Two inputs with the same elements sort alike when ties are equal. */
  lemma {:induction false} SortForgetsOrder<T(!new)>(leq: (T, T) -> bool, r: seq<T>, s: seq<T>)
    requires TotalPreorder(leq) && multiset(r) == multiset(s) && TiesAreEqual(leq, r)
    ensures Sort(leq, r) == Sort(leq, s)
  {
    SortSorts(leq, r);
    SortSorts(leq, s);
    SortKeepsElements(leq, r);
    SortKeepsElements(leq, s);
    var t := Sort(leq, r);
    forall x, y | x in t && y in t && Tied(leq, x, y) ensures x == y {
      assert x in multiset(r) && y in multiset(r);
    }
    SortedIsUnique(leq, t, Sort(leq, s));
  }

  /** Swapping two different elements that tie always shows in the result. */
  lemma {:induction false} SwapOfTiesShows<T(!new)>(leq: (T, T) -> bool, s: seq<T>, i: nat, j: nat)
    requires TotalPreorder(leq)
    requires i < j < |s| && Tied(leq, s[i], s[j]) && s[i] != s[j]
    ensures Sort(leq, s) != Sort(leq, s[i := s[j]][j := s[i]])
  {
    var c, t := s[i], s[i := s[j]][j := s[i]];
    SortKeepsTies(leq, s, c);
    SortKeepsTies(leq, t, c);
    assert s == s[..i] + ([s[i]] + s[i + 1..]);
    assert t == s[..i] + ([s[j]] + t[i + 1..]);
    TiesConcat(leq, s[..i], [s[i]] + s[i + 1..], c);
    TiesConcat(leq, s[..i], [s[j]] + t[i + 1..], c);
    var k := |Ties(leq, s[..i], c)|;
    assert leq(c, c);
    assert Ties(leq, s, c)[k] == s[i];
    assert Ties(leq, t, c)[k] == s[j];
  }

  /** Sorting images by leq is sorting what they are images of by the order it induces. */
  lemma {:induction false} SortOfImages<T(!new), U(!new)>(order: (T, T) -> bool, leq: (U, U) -> bool, f: T -> U, s: seq<T>)
    requires forall a, b :: leq(f(a), f(b)) == order(a, b)
    ensures Sort(leq, Q.Map(f, s)) == Q.Map(f, Sort(order, s))
    decreases s
  {
    if s == [] {
    } else {
      SortOfImages(order, leq, f, s[1..]);
      assert Q.Map(f, s)[1..] == Q.Map(f, s[1..]);
      InsertOfImages(order, leq, f, s[0], Sort(order, s[1..]));
    }
  }

  lemma {:induction false} InsertOfImages<T(!new), U(!new)>(order: (T, T) -> bool, leq: (U, U) -> bool, f: T -> U, x: T, s: seq<T>)
    requires forall a, b :: leq(f(a), f(b)) == order(a, b)
    ensures Insert(leq, f(x), Q.Map(f, s)) == Q.Map(f, Insert(order, x, s))
    decreases s
  {
    if s == [] || order(x, s[0]) {
      assert ([x] + s)[1..] == s;
    } else {
      InsertOfImages(order, leq, f, x, s[1..]);
      assert Q.Map(f, s)[1..] == Q.Map(f, s[1..]);
      assert ([s[0]] + Insert(order, x, s[1..]))[1..] == Insert(order, x, s[1..]);
    }
  }
}
