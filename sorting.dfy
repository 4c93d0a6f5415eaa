/** Python's `list.sort()` on a list of strings: the order Python compares
    `str` values in, an insertion sort standing for the library sort, and the
    facts that make "sort both and compare" an order-insensitive test. */
module Sorting {

  /** `a <= b` on Python strings: compared code point by code point, and a
      proper prefix sorts first. */
  predicate LexLe(a: string, b: string)
    decreases |a|
  {
    a == [] || (b != [] && (a[0] < b[0] || (a[0] == b[0] && LexLe(a[1..], b[1..]))))
  }

  lemma {:induction false} LexLeRefl(a: string)
    ensures LexLe(a, a)
    decreases |a|
  {
    if a != [] {
      LexLeRefl(a[1..]);
    }
  }

  lemma {:induction false} LexLeTotal(a: string, b: string)
    ensures LexLe(a, b) || LexLe(b, a)
    decreases |a|
  {
    if a != [] && b != [] && a[0] == b[0] {
      LexLeTotal(a[1..], b[1..]);
    }
  }

  lemma {:induction false} LexLeAntisymmetric(a: string, b: string)
    requires LexLe(a, b) && LexLe(b, a)
    ensures a == b
    decreases |a|
  {
    if a != [] {
      LexLeAntisymmetric(a[1..], b[1..]);
      assert a == [a[0]] + a[1..] && b == [b[0]] + b[1..];
    }
  }

  lemma {:induction false} LexLeTransitive(a: string, b: string, c: string)
    requires LexLe(a, b) && LexLe(b, c)
    ensures LexLe(a, c)
    decreases |a|
  {
    if a != [] && a[0] == b[0] && b[0] == c[0] {
      LexLeTransitive(a[1..], b[1..], c[1..]);
    }
  }

  /** Every element is at most every later one. */
  predicate Sorted(s: seq<string>)
  {
    forall i, j :: 0 <= i < j < |s| ==> LexLe(s[i], s[j])
  }

  function Insert(x: string, s: seq<string>): seq<string>
  {
    if s == [] then [x]
    else if LexLe(x, s[0]) then [x] + s
    else [s[0]] + Insert(x, s[1..])
  }

  /** `sorted(s)`, written as an insertion sort; only its result matters. */
  function SortStrings(s: seq<string>): seq<string>
  {
    if s == [] then [] else Insert(s[0], SortStrings(s[1..]))
  }

  lemma {:induction false} InsertPermutes(x: string, s: seq<string>)
    ensures multiset(Insert(x, s)) == multiset(s) + multiset{x}
  {
    if s != [] && !LexLe(x, s[0]) {
      InsertPermutes(x, s[1..]);
      assert s == [s[0]] + s[1..];
    }
  }

  /** `y` is at most every element of `s`. */
  predicate LowerBound(y: string, s: seq<string>)
  {
    forall k :: 0 <= k < |s| ==> LexLe(y, s[k])
  }

  lemma SortedCons(y: string, t: seq<string>)
    requires LowerBound(y, t) && Sorted(t)
    ensures Sorted([y] + t)
  {
    var r := [y] + t;
    forall i, j | 0 <= i < j < |r| ensures LexLe(r[i], r[j]) {
      assert r[j] == t[j - 1];
      if i > 0 {
        assert r[i] == t[i - 1];
      }
    }
  }

  lemma {:induction false} InsertLowerBound(y: string, x: string, s: seq<string>)
    requires LowerBound(y, s) && LexLe(y, x)
    ensures LowerBound(y, Insert(x, s))
  {
    if s != [] && !LexLe(x, s[0]) {
      InsertLowerBound(y, x, s[1..]);
      var t := Insert(x, s[1..]);
      assert Insert(x, s) == [s[0]] + t;
      forall k | 0 <= k < |[s[0]] + t| ensures LexLe(y, ([s[0]] + t)[k]) {
        if k > 0 {
          assert ([s[0]] + t)[k] == t[k - 1];
        }
      }
    } else if s != [] {
      forall k | 0 <= k < |[x] + s| ensures LexLe(y, ([x] + s)[k]) {
        if k > 0 {
          assert ([x] + s)[k] == s[k - 1];
        }
      }
    }
  }

  lemma {:induction false} InsertSorted(x: string, s: seq<string>)
    requires Sorted(s)
    ensures Sorted(Insert(x, s))
  {
    if s == [] {
    } else if LexLe(x, s[0]) {
      forall k | 0 <= k < |s| ensures LexLe(x, s[k]) {
        if k > 0 {
          LexLeTransitive(x, s[0], s[k]);
        }
      }
      SortedCons(x, s);
    } else {
      LexLeTotal(x, s[0]);
      assert Sorted(s[1..]);
      assert LowerBound(s[0], s[1..]) by {
        forall k | 0 <= k < |s[1..]| ensures LexLe(s[0], s[1..][k]) {
          assert s[1..][k] == s[k + 1];
        }
      }
      InsertSorted(x, s[1..]);
      InsertLowerBound(s[0], x, s[1..]);
      SortedCons(s[0], Insert(x, s[1..]));
    }
  }

  lemma {:induction false} SortPermutes(s: seq<string>)
    ensures multiset(SortStrings(s)) == multiset(s)
  {
    if s != [] {
      SortPermutes(s[1..]);
      InsertPermutes(s[0], SortStrings(s[1..]));
      assert s == [s[0]] + s[1..];
    }
  }

  lemma {:induction false} SortSorts(s: seq<string>)
    ensures Sorted(SortStrings(s))
  {
    if s != [] {
      SortSorts(s[1..]);
      InsertSorted(s[0], SortStrings(s[1..]));
    }
  }

  lemma SortedHeadIsLeast(a: seq<string>, y: string)
    requires Sorted(a) && y in a
    ensures LexLe(a[0], y)
  {
    var j :| 0 <= j < |a| && a[j] == y;
    if j == 0 {
      LexLeRefl(y);
    }
  }

  lemma SortedTail(a: seq<string>)
    requires Sorted(a) && a != []
    ensures Sorted(a[1..])
    ensures multiset(a[1..]) == multiset(a) - multiset{a[0]}
  {
    assert a == [a[0]] + a[1..];
  }

  /** The sorted result is the only sorted arrangement of the elements:
      two sorted lists with the same elements, counted with multiplicity,
      are equal. */
  lemma {:induction false} SortedUnique(a: seq<string>, b: seq<string>)
    requires Sorted(a) && Sorted(b) && multiset(a) == multiset(b)
    ensures a == b
  {
    if a == [] {
      assert |multiset(b)| == 0;
    } else {
      assert |multiset(b)| == |a|;
      assert a[0] in multiset(b) && b[0] in multiset(a);
      SortedHeadIsLeast(a, b[0]);
      SortedHeadIsLeast(b, a[0]);
      LexLeAntisymmetric(a[0], b[0]);
      SortedTail(a);
      SortedTail(b);
      SortedUnique(a[1..], b[1..]);
      assert a == [a[0]] + a[1..] && b == [b[0]] + b[1..];
    }
  }

  /** Sorting a list that is already sorted changes nothing, so
      re-sorting the stored tags is harmless. */
  lemma SortIdempotent(s: seq<string>)
    requires Sorted(s)
    ensures SortStrings(s) == s
  {
    SortPermutes(s);
    SortSorts(s);
    SortedUnique(SortStrings(s), s);
  }

  /** Two lists sort to the same list exactly when they hold the same
      strings the same number of times, in whatever order. */
  lemma SortEqualIffPermutation(a: seq<string>, b: seq<string>)
    ensures SortStrings(a) == SortStrings(b) <==> multiset(a) == multiset(b)
  {
    SortPermutes(a);
    SortPermutes(b);
    SortSorts(a);
    SortSorts(b);
    if multiset(a) == multiset(b) {
      SortedUnique(SortStrings(a), SortStrings(b));
    }
  }

  /** A sorted list equals `sorted(t)` exactly when `t` is a rearrangement
      of it. */
  lemma SortedEqualIffPermutation(t: seq<string>, s: seq<string>)
    requires Sorted(s)
    ensures SortStrings(t) == s <==> multiset(t) == multiset(s)
  {
    SortEqualIffPermutation(t, s);
    SortIdempotent(s);
  }
}
