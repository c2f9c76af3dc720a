/** Order facts about the array operations the components use: `filter`
    keeps a subsequence of its input. */
module Lists {

  /** `sub` can be obtained from `s` by deleting elements, the rest keeping their order. */
  predicate IsSubsequence<T(==)>(sub: seq<T>, s: seq<T>)
    decreases |s|
  {
    sub == [] ||
    (s != [] && ((sub[0] == s[0] && IsSubsequence(sub[1..], s[1..])) || IsSubsequence(sub, s[1..])))
  }

  /** Every sequence is a subsequence of itself. */
  lemma {:induction false} SubsequenceReflexive<T>(s: seq<T>)
    ensures IsSubsequence(s, s)
    decreases |s|
  {
    if s != [] {
      SubsequenceReflexive(s[1..]);
    }
  }

  /** `xs.filter(y => y !== x)`: every occurrence of `x` removed. */
  function RemoveAll<T(==,!new)>(xs: seq<T>, x: T): (r: seq<T>)
    ensures x !in r
    ensures forall y :: y != x ==> (y in r <==> y in xs)
    ensures x !in xs ==> r == xs
    ensures |r| <= |xs|
    ensures forall y {:trigger multiset(r)[y]} :: multiset(r)[y] == if y == x then 0 else multiset(xs)[y]
  {
    if xs == [] then []
    else
      assert xs == [xs[0]] + xs[1..];
      if xs[0] == x then RemoveAll(xs[1..], x)
      else [xs[0]] + RemoveAll(xs[1..], x)
  }

  /** Removal keeps the other entries in their relative order. */
  lemma {:induction false} RemoveAllIsSubsequence<T(!new)>(xs: seq<T>, x: T)
    ensures IsSubsequence(RemoveAll(xs, x), xs)
    decreases |xs|
  {
    if xs != [] {
      RemoveAllIsSubsequence(xs[1..], x);
      var r := RemoveAll(xs, x);
      if xs[0] != x {
        assert r[0] == xs[0] && r[1..] == RemoveAll(xs[1..], x);
      } else if r != [] {
        assert IsSubsequence(r, xs[1..]);
      }
    }
  }

  /** Removing an element appended to a list free of it gives the list back. */
  lemma {:induction false} RemoveAllAppended<T(!new)>(xs: seq<T>, x: T)
    requires x !in xs
    ensures RemoveAll(xs + [x], x) == xs
    decreases |xs|
  {
    if xs == [] {
      assert [x][1..] == [];
    } else {
      assert (xs + [x])[1..] == xs[1..] + [x];
      RemoveAllAppended(xs[1..], x);
    }
  }
}
