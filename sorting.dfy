/**
 * Python's `sorted(keys)` over the keys of a dictionary: the keys are
 * distinct, so the sorted list is the unique strictly increasing sequence
 * holding exactly those keys.
 */
module Sorting {
  import Text

  ghost predicate IsStrictTotalOrder<T(!new)>(less: (T, T) -> bool) {
    && (forall x :: !less(x, x))
    && (forall x, y, z :: less(x, y) && less(y, z) ==> less(x, z))
    && (forall x, y :: x != y ==> less(x, y) || less(y, x))
  }

  predicate Increasing<T>(s: seq<T>, less: (T, T) -> bool) {
    forall i, j :: 0 <= i < j < |s| ==> less(s[i], s[j])
  }

  function Elements<T>(s: seq<T>): set<T> {
    set x | x in s
  }

  /** `int`'s `<`, the order `sorted` puts frame numbers in. */
  predicate IntLess(a: int, b: int) {
    a < b
  }

  lemma IntLessIsStrictTotalOrder()
    ensures IsStrictTotalOrder(IntLess)
  {
  }

  lemma LexLessIsStrictTotalOrder()
    ensures IsStrictTotalOrder(Text.LexLess)
  {
    forall x: string
      ensures !Text.LexLess(x, x)
    {
      Text.LexLessIrreflexive(x);
    }
    forall x: string, y: string, z: string | Text.LexLess(x, y) && Text.LexLess(y, z)
      ensures Text.LexLess(x, z)
    {
      Text.LexLessTransitive(x, y, z);
    }
    forall x: string, y: string | x != y
      ensures Text.LexLess(x, y) || Text.LexLess(y, x)
    {
      Text.LexLessTotal(x, y);
    }
  }

  /** Every finite non-empty set has a least element under a strict total order. */
  lemma {:induction false} LeastExists<T(!new)>(S: set<T>, less: (T, T) -> bool)
    requires IsStrictTotalOrder(less)
    requires S != {}
    ensures exists m :: m in S && forall y :: y in S && y != m ==> less(m, y)
    decreases |S|
  {
    var x :| x in S;
    if S != {x} {
      LeastExists(S - {x}, less);
      var m :| m in S - {x} && forall y :: y in S - {x} && y != m ==> less(m, y);
      if less(m, x) {
        assert forall y :: y in S && y != m ==> less(m, y);
      } else {
        assert forall y :: y in S && y != x ==> less(x, y);
      }
    }
  }

  /** Two strictly increasing sequences with the same elements are equal. */
  lemma {:induction false} IncreasingUnique<T(!new)>(a: seq<T>, b: seq<T>, less: (T, T) -> bool)
    requires IsStrictTotalOrder(less)
    requires Increasing(a, less) && Increasing(b, less)
    requires Elements(a) == Elements(b)
    ensures a == b
    decreases |a|
  {
    if a != [] && b != [] {
      assert a[0] == b[0] by {
        assert a[0] in Elements(b) && b[0] in Elements(a);
        var i :| 0 <= i < |b| && b[i] == a[0];
        var j :| 0 <= j < |a| && a[j] == b[0];
        FirstIsLeast(b, i, less);
        FirstIsLeast(a, j, less);
      }
      assert Elements(a[1..]) == Elements(b[1..]) by {
        forall x | x in Elements(a[1..]) ensures x in Elements(b[1..]) {
          var i :| 0 <= i < |a| - 1 && a[1..][i] == x;
          assert less(a[0], x);
          assert x in Elements(b);
          var k :| 0 <= k < |b| && b[k] == x;
          assert k != 0;
          assert b[1..][k - 1] == x;
        }
        forall x | x in Elements(b[1..]) ensures x in Elements(a[1..]) {
          var i :| 0 <= i < |b| - 1 && b[1..][i] == x;
          assert less(b[0], x);
          assert x in Elements(a);
          var k :| 0 <= k < |a| && a[k] == x;
          assert k != 0;
          assert a[1..][k - 1] == x;
        }
      }
      IncreasingUnique(a[1..], b[1..], less);
      assert a == [a[0]] + a[1..] && b == [b[0]] + b[1..];
    } else {
      NoElements(a);
      NoElements(b);
    }
  }

  lemma FirstIsLeast<T>(s: seq<T>, k: int, less: (T, T) -> bool)
    requires Increasing(s, less)
    requires 0 <= k < |s|
    ensures s[0] == s[k] || less(s[0], s[k])
  {
  }

  lemma NoElements<T>(s: seq<T>)
    ensures Elements(s) == {} <==> s == []
  {
    if s != [] {
      assert s[0] in Elements(s);
    }
  }

  /** Some element of a non-empty set. */
  lemma Pick<T>(S: set<T>) returns (x: T)
    requires S != {}
    ensures x in S
  {
    x :| x in S;
  }

  /** Every finite non-empty set of integers has a least element. */
  lemma {:induction false} MinIntExists(S: set<int>)
    requires S != {}
    ensures exists m :: m in S && forall y :: y in S ==> m <= y
    decreases |S|
  {
    var x := Pick(S);
    var least := x;
    if S != {x} {
      MinIntExists(S - {x});
      var m :| m in S - {x} && forall y :: y in S - {x} ==> m <= y;
      least := if m <= x then m else x;
      forall y | y in S ensures least <= y {
        if y != x {
          assert y in S - {x};
        }
      }
    }
    assert least in S && forall y :: y in S ==> least <= y;
  }

  /** The least frame number of a non-empty set. */
  function MinInt(S: set<int>): (m: int)
    requires S != {}
    ensures m in S && forall y :: y in S ==> m <= y
  {
    MinIntExists(S);
    var m :| m in S && forall y :: y in S ==> m <= y;
    m
  }

  /** The least name of a non-empty set, in code-point order. */
  function MinString(S: set<string>): (m: string)
    requires S != {}
    ensures m in S && forall y :: y in S && y != m ==> Text.LexLess(m, y)
  {
    LexLessIsStrictTotalOrder();
    LeastExists(S, Text.LexLess);
    var m :| m in S && forall y :: y in S && y != m ==> Text.LexLess(m, y);
    m
  }

  /** `sorted(S)` for frame numbers: ascending, each once (see `SortedIntsSorted`). */
  function SortedInts(S: set<int>): (r: seq<int>)
    ensures |r| == |S|
    ensures forall i :: 0 <= i < |r| ==> r[i] in S
    decreases |S|
  {
    if S == {} then []
    else
      var m := MinInt(S);
      [m] + SortedInts(S - {m})
  }

  /** `SortedInts(S)` ascends and holds every element of `S`. */
  lemma {:induction false} SortedIntsSorted(S: set<int>)
    ensures forall i, j :: 0 <= i < j < |SortedInts(S)| ==> SortedInts(S)[i] < SortedInts(S)[j]
    ensures forall x :: x in S ==> x in SortedInts(S)
    decreases |S|
  {
    if S != {} {
      var m := MinInt(S);
      var rest := SortedInts(S - {m});
      var r := SortedInts(S);
      SortedIntsSorted(S - {m});
      assert r == [m] + rest;
      forall i, j | 0 <= i < j < |r| ensures r[i] < r[j] {
        assert r[j] == rest[j - 1] && r[j] in S - {m};
        if i > 0 {
          assert r[i] == rest[i - 1];
        }
      }
      forall x | x in S ensures x in r {
        if x != m {
          assert x in S - {m};
        }
      }
    }
  }

  /** `sorted(S)` for track names: ascending in code-point order, each once (see `SortedStringsSorted`). */
  function SortedStrings(S: set<string>): (r: seq<string>)
    ensures |r| == |S|
    ensures forall i :: 0 <= i < |r| ==> r[i] in S
    decreases |S|
  {
    if S == {} then []
    else
      var m := MinString(S);
      [m] + SortedStrings(S - {m})
  }

  /** `SortedStrings(S)` ascends and holds every element of `S`. */
  lemma {:induction false} SortedStringsSorted(S: set<string>)
    ensures forall i, j :: 0 <= i < j < |SortedStrings(S)| ==> Text.LexLess(SortedStrings(S)[i], SortedStrings(S)[j])
    ensures forall x :: x in S ==> x in SortedStrings(S)
    decreases |S|
  {
    if S != {} {
      var m := MinString(S);
      var rest := SortedStrings(S - {m});
      var r := SortedStrings(S);
      SortedStringsSorted(S - {m});
      assert r == [m] + rest;
      forall i, j | 0 <= i < j < |r| ensures Text.LexLess(r[i], r[j]) {
        assert r[j] == rest[j - 1] && r[j] in S - {m};
        if i > 0 {
          assert r[i] == rest[i - 1];
        }
      }
      forall x | x in S ensures x in r {
        if x != m {
          assert x in S - {m};
        }
      }
    }
  }

  /** Any ascending listing of the frame numbers of `S` is `sorted(S)`. */
  lemma SortedIntsUnique(r: seq<int>, S: set<int>)
    requires forall i, j :: 0 <= i < j < |r| ==> r[i] < r[j]
    requires forall x :: x in r <==> x in S
    ensures r == SortedInts(S)
  {
    IntLessIsStrictTotalOrder();
    SortedIntsSorted(S);
    var q := SortedInts(S);
    assert Elements(r) == Elements(q) by {
      forall x ensures x in Elements(r) <==> x in Elements(q) {
      }
    }
    IncreasingUnique(r, q, IntLess);
  }

  /** Any ascending listing of the names of `S` is `sorted(S)`. */
  lemma SortedStringsUnique(r: seq<string>, S: set<string>)
    requires forall i, j :: 0 <= i < j < |r| ==> Text.LexLess(r[i], r[j])
    requires forall x :: x in r <==> x in S
    ensures r == SortedStrings(S)
  {
    LexLessIsStrictTotalOrder();
    SortedStringsSorted(S);
    var q := SortedStrings(S);
    assert Elements(r) == Elements(q) by {
      forall x ensures x in Elements(r) <==> x in Elements(q) {
      }
    }
    IncreasingUnique(r, q, Text.LexLess);
  }
}
