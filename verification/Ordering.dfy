/** Orders, sorting and canonical lists, as the standard library's `sort`, `dedup` and `BTreeMap` provide them. */
module Ordering {

  /** The order of strings: lexicographic by code point, which is also their byte order in UTF-8. */
  predicate Less(a: string, b: string) {
    if b == "" then false
    else if a == "" then true
    else a[0] < b[0] || (a[0] == b[0] && Less(a[1..], b[1..]))
  }

  /** The order of pairs of strings. */
  predicate PairLess(a: (string, string), b: (string, string)) {
    Less(a.0, b.0) || (a.0 == b.0 && Less(a.1, b.1))
  }

  /** A comparison that `sort_by` may be given. */
  ghost predicate StrictWeak<T(!new)>(less: (T, T) -> bool) {
    && (forall x :: !less(x, x))
    && (forall x, y, z | less(x, y) && less(y, z) :: less(x, z))
    && (forall x, y, z | less(x, z) :: less(x, y) || less(y, z))
  }

  /** A comparison under which only equal elements tie. */
  ghost predicate Total<T(!new)>(less: (T, T) -> bool) {
    StrictWeak(less) && forall x, y | x != y :: less(x, y) || less(y, x)
  }

  lemma {:induction false} LessTrichotomy(a: string, b: string)
    ensures a == b || Less(a, b) || Less(b, a)
    ensures !(Less(a, b) && Less(b, a)) && !Less(a, a)
  {
    if a != "" && b != "" {
      LessTrichotomy(a[1..], b[1..]);
      assert a == [a[0]] + a[1..] && b == [b[0]] + b[1..];
    }
    if a != "" {
      LessTrichotomy(a[1..], a[1..]);
    }
  }

  /** The order is lexicographic: the first difference decides, and a proper prefix comes first. */
  lemma {:induction false} LessMeans(a: string, b: string)
    ensures Less(a, b) <==>
            exists k | 0 <= k <= |a| && k < |b| :: a[..k] == b[..k] && (k == |a| || a[k] < b[k])
  {
    if a != "" && b != "" {
      LessMeans(a[1..], b[1..]);
      if Less(a, b) && a[0] == b[0] {
        var x, y := a[1..], b[1..];
        var k :| 0 <= k <= |x| && k < |y| && x[..k] == y[..k] && (k == |x| || x[k] < y[k]);
        assert a[..k + 1] == [a[0]] + x[..k] && b[..k + 1] == [b[0]] + y[..k];
      } else if Less(a, b) {
        assert a[..0] == b[..0];
      }
      if k :| 0 <= k <= |a| && k < |b| && a[..k] == b[..k] && (k == |a| || a[k] < b[k]) {
        if k > 0 {
          assert a[0] == a[..k][0] == b[..k][0] == b[0];
          assert a[1..][..k - 1] == a[..k][1..] && b[1..][..k - 1] == b[..k][1..];
        }
      }
    } else if b != "" {
      assert a[..0] == b[..0];
    }
  }

  lemma {:induction false} LessTransitive(a: string, b: string, c: string)
    requires Less(a, b) && Less(b, c)
    ensures Less(a, c)
  {
    if a != "" && a[0] == b[0] == c[0] {
      LessTransitive(a[1..], b[1..], c[1..]);
    }
  }

  lemma LessIsTotal()
    ensures Total(Less)
  {
    forall x ensures !Less(x, x) { LessTrichotomy(x, x); }
    forall x, y | x != y ensures Less(x, y) || Less(y, x) { LessTrichotomy(x, y); }
    forall x, y, z | Less(x, y) && Less(y, z) ensures Less(x, z) { LessTransitive(x, y, z); }
    forall x, y, z | Less(x, z) ensures Less(x, y) || Less(y, z) {
      LessTrichotomy(x, y);
      if Less(y, x) {
        LessTransitive(y, x, z);
      }
    }
  }

  lemma PairLessIsTotal()
    ensures Total(PairLess)
  {
    LessIsTotal();
    assert Total(Less);
    forall x, y, z | PairLess(x, y) && PairLess(y, z) ensures PairLess(x, z) {
    }
    forall x, y, z | PairLess(x, z) ensures PairLess(x, y) || PairLess(y, z) {
    }
    forall x: (string, string), y | x != y ensures PairLess(x, y) || PairLess(y, x) {
      assert x.0 != y.0 || x.1 != y.1;
    }
  }

  // ---------------------------------------------------------------------------------------------------
  // Sorting
  // ---------------------------------------------------------------------------------------------------

  /** No element is smaller than one before it. */
  ghost predicate Sorted<T>(s: seq<T>, less: (T, T) -> bool) {
    forall i, j | 0 <= i < j < |s| :: !less(s[j], s[i])
  }

  function InsertSorted<T>(x: T, s: seq<T>, less: (T, T) -> bool): seq<T> {
    if s == [] || !less(s[0], x) then [x] + s else [s[0]] + InsertSorted(x, s[1..], less)
  }

  /** `sort_by`: elements that tie keep their order. */
  function SortBy<T>(s: seq<T>, less: (T, T) -> bool): seq<T> {
    if s == [] then [] else InsertSorted(s[0], SortBy(s[1..], less), less)
  }

  lemma {:induction false} InsertPermutes<T(!new)>(x: T, s: seq<T>, less: (T, T) -> bool)
    ensures multiset(InsertSorted(x, s, less)) == multiset([x] + s)
  {
    if s != [] && less(s[0], x) {
      InsertPermutes(x, s[1..], less);
      assert s == [s[0]] + s[1..];
    }
  }

  lemma {:induction false} InsertSorts<T(!new)>(x: T, s: seq<T>, less: (T, T) -> bool)
    requires StrictWeak(less) && Sorted(s, less)
    ensures Sorted(InsertSorted(x, s, less), less)
  {
    if s != [] && less(s[0], x) {
      var rest := InsertSorted(x, s[1..], less);
      InsertSorts(x, s[1..], less);
      forall y | y in rest ensures !less(y, s[0]) {
        InsertedComesFrom(x, s[1..], less, y);
      }
      HeadSorts(s[0], rest, less);
    } else if s != [] {
      forall y | y in s ensures !less(y, x) {
        assert !less(y, s[0]) && !less(s[0], x);
      }
      HeadSorts(x, s, less);
    }
  }

  lemma InsertedComesFrom<T(!new)>(x: T, s: seq<T>, less: (T, T) -> bool, y: T)
    requires y in InsertSorted(x, s, less)
    ensures y == x || y in s
  {
    InsertPermutes(x, s, less);
    assert y in multiset([x] + s);
  }

  lemma HeadSorts<T(!new)>(x: T, s: seq<T>, less: (T, T) -> bool)
    requires Sorted(s, less) && forall y | y in s :: !less(y, x)
    ensures Sorted([x] + s, less)
  {
  }

  lemma {:induction false} SortBySorts<T(!new)>(s: seq<T>, less: (T, T) -> bool)
    requires StrictWeak(less)
    ensures multiset(SortBy(s, less)) == multiset(s)
    ensures Sorted(SortBy(s, less), less)
  {
    if s != [] {
      SortBySorts(s[1..], less);
      InsertPermutes(s[0], SortBy(s[1..], less), less);
      InsertSorts(s[0], SortBy(s[1..], less), less);
      assert s == [s[0]] + s[1..];
    }
  }

  // ---------------------------------------------------------------------------------------------------
  // Canonical lists
  // ---------------------------------------------------------------------------------------------------

  /** Strictly increasing. */
  ghost predicate Ascending<T>(s: seq<T>, less: (T, T) -> bool) {
    forall i, j | 0 <= i < j < |s| :: less(s[i], s[j])
  }

  ghost predicate SameElements<T>(a: seq<T>, b: seq<T>) {
    (forall x | x in a :: x in b) && (forall x | x in b :: x in a)
  }

  /** A set has one strictly increasing list. */
  lemma {:induction false} AscendingIsUnique<T(!new)>(a: seq<T>, b: seq<T>, less: (T, T) -> bool)
    requires Total(less) && Ascending(a, less) && Ascending(b, less) && SameElements(a, b)
    ensures a == b
  {
    assert a != [] ==> a[0] in b;
    assert b != [] ==> b[0] in a;
    if a != [] && b != [] {
      HeadsAgree(a, b, less);
      var x, y := a[1..], b[1..];
      forall e | e in x ensures e in y {
        assert less(a[0], e);
        assert e in b;
      }
      forall e | e in y ensures e in x {
        assert less(b[0], e);
        assert e in a;
      }
      AscendingIsUnique(x, y, less);
      assert a == [a[0]] + x && b == [b[0]] + y;
    }
  }

  lemma HeadsAgree<T(!new)>(a: seq<T>, b: seq<T>, less: (T, T) -> bool)
    requires Total(less) && Ascending(a, less) && Ascending(b, less) && SameElements(a, b)
    requires a != [] && b != []
    ensures a[0] == b[0]
  {
    assert a[0] in b && b[0] in a;
    var i :| 0 <= i < |b| && b[i] == a[0];
    var j :| 0 <= j < |a| && a[j] == b[0];
  }

  /** `dedup`: drop an element equal to the one kept before it. */
  method Dedup<T(==, !new)>(s: seq<T>, ghost less: (T, T) -> bool) returns (r: seq<T>)
    requires Total(less) && Sorted(s, less)
    ensures Ascending(r, less) && SameElements(r, s)
  {
    r := [];
    for i := 0 to |s|
      invariant Ascending(r, less)
      invariant forall x | x in r :: x in s[..i]
      invariant forall x | x in s[..i] :: x in r
      invariant r == [] <==> i == 0
      invariant i > 0 ==> r[|r| - 1] == s[i - 1]
    {
      assert s[..i + 1] == s[..i] + [s[i]];
      if r == [] || r[|r| - 1] != s[i] {
        if r != [] {
          assert !less(s[i], s[i - 1]) && less(s[i - 1], s[i]);
          forall k | 0 <= k < |r| ensures less(r[k], s[i]) {
            assert k < |r| - 1 ==> less(r[k], r[|r| - 1]);
          }
        }
        r := r + [s[i]];
      }
    }
    assert s[..|s|] == s;
  }
}
