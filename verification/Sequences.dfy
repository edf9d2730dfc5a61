/** Small facts about sequences and the multisets of their elements. */
module Sequences {

  function Map<T, U>(f: T -> U, s: seq<T>): (r: seq<U>)
    ensures |r| == |s| && forall i :: 0 <= i < |s| ==> r[i] == f(s[i])
  {
    if s == [] then [] else [f(s[0])] + Map(f, s[1..])
  }

  function Total(xs: seq<real>): (x: real) {
    if xs == [] then 0.0 else Total(xs[..|xs| - 1]) + xs[|xs| - 1]
  }

  function Filter<T(!new)>(p: T -> bool, s: seq<T>): (r: seq<T>)
    ensures forall x :: x in r <==> x in s && p(x)
  {
    if s == [] then []
    else if p(s[0]) then [s[0]] + Filter(p, s[1..])
    else Filter(p, s[1..])
  }

  lemma {:induction false} FilterConcat<T(!new)>(p: T -> bool, a: seq<T>, b: seq<T>)
    ensures Filter(p, a + b) == Filter(p, a) + Filter(p, b)
    decreases a
  {
    if a == [] {
      assert a + b == b;
    } else {
      assert (a + b)[1..] == a[1..] + b;
      FilterConcat(p, a[1..], b);
    }
  }

  ghost predicate Ordered<T>(leq: (T, T) -> bool, s: seq<T>) {
    forall i, j :: 0 <= i < j < |s| ==> leq(s[i], s[j])
  }

  lemma {:induction false} FilterKeepsOrder<T(!new)>(p: T -> bool, leq: (T, T) -> bool, s: seq<T>)
    requires Ordered(leq, s)
    ensures Ordered(leq, Filter(p, s))
    decreases s
  {
    if s == [] {
    } else {
      FilterKeepsOrder(p, leq, s[1..]);
      var rest := Filter(p, s[1..]);
      forall x | x in rest ensures leq(s[0], x) {
        var j :| 0 <= j < |s| - 1 && s[1..][j] == x;
        assert s[j + 1] == x;
      }
    }
  }

  function Without<T>(s: seq<T>, j: nat): (r: seq<T>)
    requires j < |s|
    ensures |r| == |s| - 1
  {
    s[..j] + s[j + 1..]
  }

  lemma {:induction false} TakingOneOut<T>(s: seq<T>, j: nat)
    requires j < |s|
    ensures multiset(s) == multiset{s[j]} + multiset(Without(s, j))
  {
    assert s == s[..j] + ([s[j]] + s[j + 1..]);
  }

  lemma {:induction false} SwapKeepsElements<T>(s: seq<T>, i: nat, j: nat)
    requires i < j < |s|
    ensures multiset(s[i := s[j]][j := s[i]]) == multiset(s)
  {
    var a, x, b, y, c := s[..i], [s[i]], s[i + 1..j], [s[j]], s[j + 1..];
    SwappedParts(s, i, j);
    assert multiset(a + x + b + y + c) == multiset(a) + multiset(x) + multiset(b) + multiset(y) + multiset(c);
    assert multiset(a + y + b + x + c) == multiset(a) + multiset(y) + multiset(b) + multiset(x) + multiset(c);
  }

  lemma {:induction false} SwappedParts<T>(s: seq<T>, i: nat, j: nat)
    requires i < j < |s|
    ensures s == s[..i] + [s[i]] + s[i + 1..j] + [s[j]] + s[j + 1..]
    ensures s[i := s[j]][j := s[i]] == s[..i] + [s[j]] + s[i + 1..j] + [s[i]] + s[j + 1..]
  {
  }

  /** Where an element of a occurs in a sequence with the same elements. */
  lemma {:induction false} FindInPermutation<T>(a: seq<T>, b: seq<T>) returns (j: nat)
    requires a != [] && multiset(a) == multiset(b)
    ensures j < |b| && b[j] == a[0]
    ensures multiset(a[1..]) == multiset(Without(b, j))
  {
    assert a[0] in multiset(b);
    j :| 0 <= j < |b| && b[j] == a[0];
    TakingOneOut(a, 0);
    TakingOneOut(b, j);
    assert Without(a, 0) == a[1..];
    assert multiset(a[1..]) == multiset(a) - multiset{a[0]};
    assert multiset(Without(b, j)) == multiset(b) - multiset{a[0]};
  }

  lemma {:induction false} MapWithout<T, U>(f: T -> U, s: seq<T>, j: nat)
    requires j < |s|
    ensures Map(f, Without(s, j)) == Without(Map(f, s), j)
  {
  }

  lemma {:induction false} MapKeepsElements<T, U>(f: T -> U, a: seq<T>, b: seq<T>)
    requires multiset(a) == multiset(b)
    ensures multiset(Map(f, a)) == multiset(Map(f, b))
    decreases |a|
  {
    assert |a| == |multiset(a)| == |multiset(b)| == |b|;
    if a == [] {
    } else {
      var j := FindInPermutation(a, b);
      MapKeepsElements(f, a[1..], Without(b, j));
      TakingOneOut(Map(f, b), j);
      MapWithout(f, b, j);
    }
  }

  lemma {:induction false} FilterKeepsElements<T(!new)>(p: T -> bool, a: seq<T>, b: seq<T>)
    requires multiset(a) == multiset(b)
    ensures multiset(Filter(p, a)) == multiset(Filter(p, b))
    decreases |a|
  {
    assert |a| == |multiset(a)| == |multiset(b)| == |b|;
    if a == [] {
    } else {
      var j := FindInPermutation(a, b);
      FilterKeepsElements(p, a[1..], Without(b, j));
      assert b == b[..j] + ([b[j]] + b[j + 1..]);
      FilterConcat(p, b[..j], [b[j]] + b[j + 1..]);
      FilterConcat(p, b[..j], b[j + 1..]);
      FilterConcat(p, [b[j]], b[j + 1..]);
    }
  }

  /** Replacing an element by another changes the elements. */
  lemma {:induction false} ReplacedElementShows<T>(s: seq<T>, j: nat, x: T)
    requires j < |s| && s[j] != x
    ensures multiset(s[j := x]) != multiset(s)
  {
    TakingOneOut(s, j);
    TakingOneOut(s[j := x], j);
    assert Without(s[j := x], j) == Without(s, j);
    assert multiset(s)[s[j]] == multiset(s[j := x])[s[j]] + 1;
  }

  ghost predicate Holds(at: seq<nat>, i: int) {
    exists k :: 0 <= k < |at| && at[k] == i
  }

  ghost predicate Ascending(at: seq<nat>) {
    forall j, k :: 0 <= j < k < |at| ==> at[j] < at[k]
  }

  ghost predicate AllPass<T>(p: T -> bool, s: seq<T>, at: seq<nat>) {
    forall k :: 0 <= k < |at| ==> at[k] < |s| && p(s[at[k]])
  }

  ghost predicate NoneMissing<T>(p: T -> bool, s: seq<T>, at: seq<nat>) {
    forall i :: 0 <= i < |s| && p(s[i]) ==> Holds(at, i)
  }

  /** at holds, in ascending order, exactly the positions of the elements that pass p. */
  ghost predicate Positions<T>(p: T -> bool, s: seq<T>, at: seq<nat>) {
    Ascending(at) && AllPass(p, s, at) && NoneMissing(p, s, at)
  }

  /** t holds the elements of s at those positions. */
  ghost predicate Picks<T>(s: seq<T>, at: seq<nat>, t: seq<T>) {
    |at| == |t| && forall k :: 0 <= k < |at| ==> at[k] < |s| && s[at[k]] == t[k]
  }

  lemma {:induction false} OneMoreHeld(at: seq<nat>, n: nat)
    ensures forall i :: Holds(at + [n], i) <==> Holds(at, i) || i == n
  {
    assert (at + [n])[|at|] == n;
    forall i | Holds(at, i) ensures Holds(at + [n], i) {
      var k :| 0 <= k < |at| && at[k] == i;
      assert (at + [n])[k] == i;
    }
  }

  lemma {:induction false} NoneMissingMore<T>(p: T -> bool, init: seq<T>, x: T, at: seq<nat>)
    requires NoneMissing(p, init, at)
    ensures NoneMissing(p, init + [x], if p(x) then at + [|init|] else at)
  {
    var s := init + [x];
    OneMoreHeld(at, |init|);
    forall i | 0 <= i < |s| && p(s[i]) ensures Holds(if p(x) then at + [|init|] else at, i) {
      if i < |init| {
        assert s[i] == init[i];
      } else {
        assert s[i] == x;
      }
    }
  }

  lemma {:induction false} AllPassMore<T>(p: T -> bool, init: seq<T>, x: T, at: seq<nat>)
    requires AllPass(p, init, at) && Ascending(at)
    ensures var longer := if p(x) then at + [|init|] else at; AllPass(p, init + [x], longer) && Ascending(longer)
  {
  }

  lemma {:induction false} PicksMore<T>(init: seq<T>, x: T, at: seq<nat>, t: seq<T>)
    requires Picks(init, at, t)
    ensures Picks(init + [x], at + [|init|], t + [x]) && Picks(init + [x], at, t)
  {
  }

  /** Where the elements that pass a filter come from. */
  lemma {:induction false} FilterPositions<T(!new)>(p: T -> bool, s: seq<T>) returns (at: seq<nat>)
    ensures Positions(p, s, at) && Picks(s, at, Filter(p, s))
    decreases |s|
  {
    if s == [] {
      at := [];
    } else {
      var init, last := s[..|s| - 1], s[|s| - 1];
      assert s == init + [last];
      at := FilterPositions(p, init);
      NoneMissingMore(p, init, last, at);
      AllPassMore(p, init, last, at);
      PicksMore(init, last, at, Filter(p, init));
      FilterConcat(p, init, [last]);
      at := if p(last) then at + [|init|] else at;
    }
  }

  lemma {:induction false} PlaceOf<T>(p: T -> bool, s: seq<T>, at: seq<nat>, x: nat) returns (k: nat)
    requires Positions(p, s, at) && x < |s| && p(s[x])
    ensures k < |at| && at[k] == x
    ensures forall i :: 0 <= i < |at| ==> (at[i] < x <==> i < k) && (x < at[i] <==> k < i)
  {
    assert Holds(at, x);
    k :| 0 <= k < |at| && at[k] == x;
  }

  /** Between two neighbouring positions nothing passes. */
  lemma {:induction false} NothingBetween<T>(p: T -> bool, s: seq<T>, at: seq<nat>, k: nat, x: nat)
    requires Positions(p, s, at) && 0 < k < |at| && at[k - 1] < x < at[k]
    ensures !p(s[x])
  {
    if p(s[x]) {
      var m := PlaceOf(p, s, at, x);
    }
  }

  lemma {:induction false} OneBetween<T>(p: T -> bool, s: seq<T>, at: seq<nat>, i: nat, k: nat)
    requires Positions(p, s, at) && i + 1 < k < |at|
    ensures at[i] < at[k - 1] < at[k] && p(s[at[k - 1]])
  {
  }

  /** Two positions with nothing that passes between them are neighbours. */
  lemma {:induction false} Neighbours<T>(p: T -> bool, s: seq<T>, at: seq<nat>, x: nat, y: nat) returns (k: nat)
    requires Positions(p, s, at) && x < y < |s| && p(s[x]) && p(s[y])
    requires forall z :: x < z < y ==> !p(s[z])
    ensures 0 < k < |at| && at[k - 1] == x && at[k] == y
  {
    var i := PlaceOf(p, s, at, x);
    k := PlaceOf(p, s, at, y);
    if i < k - 1 {
      OneBetween(p, s, at, i, k);
    }
  }

  lemma {:induction false} FilterTwice<T(!new)>(p: T -> bool, q: T -> bool, both: T -> bool, s: seq<T>)
    requires forall x :: both(x) == (p(x) && q(x))
    ensures Filter(q, Filter(p, s)) == Filter(both, s)
    decreases s
  {
    if s == [] {
    } else {
      FilterTwice(p, q, both, s[1..]);
      if p(s[0]) {
        assert ([s[0]] + Filter(p, s[1..]))[1..] == Filter(p, s[1..]);
      }
    }
  }
}
