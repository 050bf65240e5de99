/** Stable sorting and the total orders the models sort by.

`Sort` stands for the library sorts the backend relies on: `Array.prototype.sort`, which is
stable, and `ORDER BY`, which is used here only with keys that leave no ties.
*/
module Sorting {

  ghost predicate TotalPreorder<T(!new)>(leq: (T, T) -> bool) {
    && (forall x, y :: leq(x, y) || leq(y, x))
    && (forall x, y, z :: leq(x, y) && leq(y, z) ==> leq(x, z))
  }

  ghost predicate Sorted<T>(leq: (T, T) -> bool, s: seq<T>) {
    forall i, j :: 0 <= i < j < |s| ==> leq(s[i], s[j])
  }

  predicate Distinct<T(==)>(s: seq<T>) {
    forall i, j :: 0 <= i < j < |s| ==> s[i] != s[j]
  }

  function Insert<T>(leq: (T, T) -> bool, x: T, s: seq<T>): (r: seq<T>)
    ensures |r| == |s| + 1
  {
    if s == [] then [x]
    else if leq(x, s[0]) then [x] + s
    else [s[0]] + Insert(leq, x, s[1..])
  }

  function Sort<T>(leq: (T, T) -> bool, s: seq<T>): (r: seq<T>)
    ensures |r| == |s|
  {
    if s == [] then [] else Insert(leq, s[0], Sort(leq, s[1..]))
  }

  lemma {:induction false} InsertContents<T>(leq: (T, T) -> bool, x: T, s: seq<T>)
    ensures multiset(Insert(leq, x, s)) == multiset{x} + multiset(s)
  {
    if s == [] {
    } else if leq(x, s[0]) {
    } else {
      InsertContents(leq, x, s[1..]);
      assert s == [s[0]] + s[1..];
    }
  }

  lemma {:induction false} SortContents<T>(leq: (T, T) -> bool, s: seq<T>)
    ensures multiset(Sort(leq, s)) == multiset(s)
  {
    if s != [] {
      SortContents(leq, s[1..]);
      InsertContents(leq, s[0], Sort(leq, s[1..]));
      assert s == [s[0]] + s[1..];
    }
  }

  lemma {:induction false} SortElements<T>(leq: (T, T) -> bool, s: seq<T>)
    ensures forall x :: x in Sort(leq, s) <==> x in s
  {
    SortContents(leq, s);
    forall x
      ensures x in Sort(leq, s) <==> x in s
    {
      assert x in Sort(leq, s) <==> x in multiset(Sort(leq, s));
      assert x in s <==> x in multiset(s);
    }
  }

  lemma {:induction false} InsertSorted<T(!new)>(leq: (T, T) -> bool, x: T, s: seq<T>)
    requires TotalPreorder(leq) && Sorted(leq, s)
    ensures Sorted(leq, Insert(leq, x, s))
  {
    if s == [] {
    } else if leq(x, s[0]) {
      forall j | 0 <= j < |s| ensures leq(x, s[j]) {
        assert j == 0 || leq(s[0], s[j]);
      }
    } else {
      var rest := Insert(leq, x, s[1..]);
      InsertSorted(leq, x, s[1..]);
      InsertContents(leq, x, s[1..]);
      forall j | 0 <= j < |rest| ensures leq(s[0], rest[j]) {
        assert rest[j] in multiset(rest);
        if rest[j] != x {
          assert rest[j] in multiset(s[1..]);
          var k :| 0 <= k < |s[1..]| && s[1..][k] == rest[j];
          assert s[k + 1] == rest[j];
        }
      }
    }
  }

  lemma {:induction false} SortSorted<T(!new)>(leq: (T, T) -> bool, s: seq<T>)
    requires TotalPreorder(leq)
    ensures Sorted(leq, Sort(leq, s))
  {
    if s != [] {
      SortSorted(leq, s[1..]);
      InsertSorted(leq, s[0], Sort(leq, s[1..]));
    }
  }

  function Filter<T>(keep: T -> bool, s: seq<T>): (r: seq<T>)
    ensures forall x :: x in r ==> x in s && keep(x)
  {
    if s == [] then []
    else if keep(s[0]) then [s[0]] + Filter(keep, s[1..])
    else Filter(keep, s[1..])
  }

  lemma {:induction false} FilterElements<T>(keep: T -> bool, s: seq<T>)
    ensures |Filter(keep, s)| <= |s|
    ensures forall x :: x in Filter(keep, s) <==> x in s && keep(x)
  {
    if s != [] {
      FilterElements(keep, s[1..]);
    }
  }

  lemma {:induction false} FilterEmpty<T>(keep: T -> bool)
    ensures Filter(keep, []) == []
  {
  }

  lemma {:induction false} FilterFirst<T>(keep: T -> bool, x: T, rest: seq<T>)
    ensures Filter(keep, [x] + rest) == (if keep(x) then [x] else []) + Filter(keep, rest)
  {
    assert ([x] + rest)[1..] == rest;
    assert [] + Filter(keep, rest) == Filter(keep, rest);
  }

  lemma {:induction false} FilterAppend<T>(keep: T -> bool, s: seq<T>, t: seq<T>)
    ensures Filter(keep, s + t) == Filter(keep, s) + Filter(keep, t)
  {
    hide Filter;
    if s == [] {
      FilterEmpty(keep);
      assert s + t == t;
      assert [] + Filter(keep, t) == Filter(keep, t);
    } else {
      var rest := s[1..];
      FilterAppend(keep, rest, t);
      FilterFirst(keep, s[0], rest);
      FilterFirst(keep, s[0], rest + t);
      assert s == [s[0]] + rest && s + t == [s[0]] + (rest + t);
      var first := if keep(s[0]) then [s[0]] else [];
      assert first + (Filter(keep, rest) + Filter(keep, t)) == (first + Filter(keep, rest)) + Filter(keep, t);
    }
  }

  lemma {:induction false} InsertFiltered<T(!new)>(leq: (T, T) -> bool, keep: T -> bool, x: T, s: seq<T>)
    requires TotalPreorder(leq) && Sorted(leq, s)
    ensures Filter(keep, Insert(leq, x, s)) == if keep(x) then Insert(leq, x, Filter(keep, s)) else Filter(keep, s)
    decreases |s|
  {
    if s == [] {
      assert [x][1..] == [];
    } else {
      var rest := s[1..];
      assert Sorted(leq, rest);
      if leq(x, s[0]) {
        assert ([x] + s)[1..] == s;
        SortedBelow(leq, s, x);
        if keep(x) {
          InsertAtFront(leq, keep, x, s);
        }
      } else {
        InsertFiltered(leq, keep, x, rest);
        assert ([s[0]] + Insert(leq, x, rest))[1..] == Insert(leq, x, rest);
        if keep(s[0]) {
          assert ([s[0]] + Filter(keep, rest))[1..] == Filter(keep, rest);
        }
      }
    }
  }

  lemma {:induction false} InsertAtFront<T(!new)>(leq: (T, T) -> bool, keep: T -> bool, x: T, s: seq<T>)
    requires forall i :: 0 <= i < |s| ==> leq(x, s[i])
    ensures Insert(leq, x, Filter(keep, s)) == [x] + Filter(keep, s)
  {
    if Filter(keep, s) != [] {
      assert Filter(keep, s)[0] in Filter(keep, s);
    } else {
      assert [x] + Filter(keep, s) == [x];
    }
  }

  lemma {:induction false} SortedBelow<T(!new)>(leq: (T, T) -> bool, s: seq<T>, x: T)
    requires TotalPreorder(leq) && Sorted(leq, s) && s != [] && leq(x, s[0])
    ensures forall i :: 0 <= i < |s| ==> leq(x, s[i])
  {
    forall i | 0 <= i < |s| ensures leq(x, s[i]) {
      assert i > 0 ==> leq(s[0], s[i]);
    }
  }

  /** Sorting what a filter keeps is filtering what was sorted. */
  lemma {:induction false} SortFiltered<T(!new)>(leq: (T, T) -> bool, keep: T -> bool, s: seq<T>)
    requires TotalPreorder(leq)
    ensures Sort(leq, Filter(keep, s)) == Filter(keep, Sort(leq, s))
    decreases |s|
  {
    if s != [] {
      var rest := s[1..];
      SortFiltered(leq, keep, rest);
      SortSorted(leq, rest);
      InsertFiltered(leq, keep, s[0], Sort(leq, rest));
      if keep(s[0]) {
        assert ([s[0]] + Filter(keep, rest))[1..] == Filter(keep, rest);
      }
    }
  }

  lemma {:induction false} FilterBoth<T>(f: T -> bool, g: T -> bool, both: T -> bool, s: seq<T>)
    requires forall x :: x in s ==> (both(x) <==> f(x) && g(x))
    ensures Filter(both, s) == Filter(g, Filter(f, s))
    decreases |s|
  {
    if s != [] {
      FilterBoth(f, g, both, s[1..]);
      if f(s[0]) {
        assert ([s[0]] + Filter(f, s[1..]))[1..] == Filter(f, s[1..]);
      }
    }
  }

  /** A filter that starts to keep at position i keeps the rest of the list. */
  lemma {:induction false} FilterFrom<T>(keep: T -> bool, s: seq<T>, i: nat)
    requires i <= |s|
    requires forall k :: 0 <= k < |s| ==> (keep(s[k]) <==> i <= k)
    ensures Filter(keep, s) == s[i..]
    decreases |s|
  {
    if s != [] {
      if i == 0 {
        FilterFrom(keep, s[1..], 0);
        assert s == [s[0]] + s[1..];
      } else {
        FilterFrom(keep, s[1..], i - 1);
        assert s[1..][i - 1..] == s[i..];
      }
    }
  }

  /** All the elements that `keep` keeps are equivalent, so insertion puts `x` before them. */
  lemma {:induction false} InsertStable<T(!new)>(leq: (T, T) -> bool, keep: T -> bool, x: T, s: seq<T>)
    requires TotalPreorder(leq) && Sorted(leq, s)
    requires forall y, z :: keep(y) && keep(z) ==> leq(y, z)
    ensures Filter(keep, Insert(leq, x, s)) == (if keep(x) then [x] else []) + Filter(keep, s)
  {
    if s == [] {
    } else if leq(x, s[0]) {
      assert ([x] + s)[1..] == s;
    } else {
      InsertStable(leq, keep, x, s[1..]);
      assert ([s[0]] + Insert(leq, x, s[1..]))[1..] == Insert(leq, x, s[1..]);
    }
  }

  /** The sort is stable: elements that tie keep the order they had. */
  lemma {:induction false} SortStable<T(!new)>(leq: (T, T) -> bool, keep: T -> bool, s: seq<T>)
    requires TotalPreorder(leq)
    requires forall y, z :: keep(y) && keep(z) ==> leq(y, z)
    ensures Filter(keep, Sort(leq, s)) == Filter(keep, s)
  {
    if s != [] {
      SortStable(leq, keep, s[1..]);
      SortSorted(leq, s[1..]);
      InsertStable(leq, keep, s[0], Sort(leq, s[1..]));
    }
  }

  // --- the order of text ---

  predicate TextLess(a: string, b: string) {
    if a == [] then b != []
    else b != [] && (a[0] < b[0] || (a[0] == b[0] && TextLess(a[1..], b[1..])))
  }

  predicate TextLeq(a: string, b: string) {
    a == b || TextLess(a, b)
  }

  lemma {:induction false} TextLessTotal(a: string, b: string)
    ensures TextLess(a, b) || a == b || TextLess(b, a)
    ensures !(TextLess(a, b) && TextLess(b, a))
    ensures !TextLess(a, a)
  {
    if a != [] && b != [] && a[0] == b[0] {
      TextLessTotal(a[1..], b[1..]);
      assert a == [a[0]] + a[1..] && b == [b[0]] + b[1..];
    }
    if a != [] {
      TextLessTotal(a[1..], a[1..]);
    }
  }

  lemma {:induction false} TextLessTransitive(a: string, b: string, c: string)
    requires TextLess(a, b) && TextLess(b, c)
    ensures TextLess(a, c)
  {
    if a != [] && a[0] == b[0] && b[0] == c[0] {
      TextLessTransitive(a[1..], b[1..], c[1..]);
    }
  }
}
