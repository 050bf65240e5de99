/** Sums over sequences: the counts and budgets the models keep track of. */
module Sums {

  function Sum<T>(f: T -> int, s: seq<T>): int {
    if s == [] then 0 else f(s[0]) + Sum(f, s[1..])
  }

  lemma {:induction false} SumAppend<T>(f: T -> int, s: seq<T>, t: seq<T>)
    ensures Sum(f, s + t) == Sum(f, s) + Sum(f, t)
  {
    if s == [] {
      assert s + t == t;
    } else {
      SumAppend(f, s[1..], t);
      assert (s + t)[1..] == s[1..] + t;
    }
  }

  lemma {:induction false} SumSingle<T>(f: T -> int, x: T)
    ensures Sum(f, [x]) == f(x)
  {
    assert [x][1..] == [];
  }

  lemma {:induction false} SumSnoc<T>(f: T -> int, s: seq<T>, x: T)
    ensures Sum(f, s + [x]) == Sum(f, s) + f(x)
  {
    SumAppend(f, s, [x]);
    SumSingle(f, x);
  }

  lemma {:induction false} SumRemove<T>(f: T -> int, s: seq<T>, i: nat)
    requires i < |s|
    ensures Sum(f, s) == Sum(f, s[..i] + s[i + 1..]) + f(s[i])
  {
    assert s == s[..i] + ([s[i]] + s[i + 1..]);
    SumAppend(f, s[..i], [s[i]] + s[i + 1..]);
    SumAppend(f, [s[i]], s[i + 1..]);
    SumAppend(f, s[..i], s[i + 1..]);
    SumSingle(f, s[i]);
  }

  lemma {:induction false} SumCongruent<T>(f: T -> int, g: T -> int, s: seq<T>)
    requires forall x :: x in s ==> f(x) == g(x)
    ensures Sum(f, s) == Sum(g, s)
  {
    if s != [] {
      SumCongruent(f, g, s[1..]);
    }
  }

  lemma {:induction false} MultisetRemove<T>(s: seq<T>, i: nat)
    requires i < |s|
    ensures multiset(s[..i] + s[i + 1..]) == multiset(s) - multiset{s[i]}
  {
    assert s == s[..i] + [s[i]] + s[i + 1..];
  }

  lemma {:induction false} SumPermutation<T>(f: T -> int, s: seq<T>, t: seq<T>)
    requires multiset(s) == multiset(t)
    ensures Sum(f, s) == Sum(f, t)
  {
    if s == [] {
      assert |multiset(t)| == 0;
    } else {
      assert s[0] in multiset(s) && s[0] in multiset(t);
      var i :| 0 <= i < |t| && t[i] == s[0];
      MultisetRemove(t, i);
      MultisetRemove(s, 0);
      assert s[..0] + s[1..] == s[1..];
      SumPermutation(f, s[1..], t[..i] + t[i + 1..]);
      SumRemove(f, t, i);
    }
  }

  lemma {:induction false} SumBounds<T>(f: T -> int, s: seq<T>, low: int, high: int)
    requires forall x :: x in s ==> low <= f(x) <= high
    ensures low * |s| <= Sum(f, s) <= high * |s|
  {
    if s != [] {
      SumBounds(f, s[1..], low, high);
      assert low * |s| == low + low * |s[1..]|;
      assert high * |s| == high + high * |s[1..]|;
    }
  }

  /** One element occurs once and all others count nothing. */
  lemma {:induction false} SumOfOne<T(!new)>(f: T -> int, s: seq<T>, x: T)
    requires multiset(s)[x] == 1 && forall y :: y != x ==> f(y) == 0
    ensures Sum(f, s) == f(x)
  {
    assert x in multiset(s) && x in s;
    var i :| 0 <= i < |s| && s[i] == x;
    var others := s[..i] + s[i + 1..];
    SumRemove(f, s, i);
    MultisetRemove(s, i);
    assert x in others ==> x in multiset(others);
    SumBounds(f, others, 0, 0);
  }

  lemma {:induction false} SumNonNegative<T>(f: T -> int, s: seq<T>)
    requires forall x :: x in s ==> f(x) >= 0
    ensures Sum(f, s) >= 0
    ensures forall x :: x in s ==> f(x) <= Sum(f, s)
  {
    if s != [] {
      SumNonNegative(f, s[1..]);
    }
  }
}
