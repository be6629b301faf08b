/** JavaScript's stable `sort` over a strict order, and the order on strings that `sort()` uses by default. */
module Sorting {
  type Order<!T> = (T, T) -> bool

  /** What a comparator must satisfy for sorting to be meaningful: a strict weak order. */
  ghost predicate StrictWeak<T(!new)>(less: Order<T>) {
    && (forall a, b :: less(a, b) ==> !less(b, a))
    && (forall a, b, c {:trigger less(a, b), less(a, c)} :: less(a, b) ==> less(a, c) || less(c, b))
  }

  ghost predicate Sorted<T>(less: Order<T>, s: seq<T>) {
    forall i, j :: 0 <= i < j < |s| ==> !less(s[j], s[i])
  }

  /** No two different elements of `s` tie. */
  ghost predicate TotalOn<T>(less: Order<T>, s: seq<T>) {
    forall x, y :: x in s && y in s && x != y ==> less(x, y) || less(y, x)
  }

  function Insert<T>(less: Order<T>, x: T, s: seq<T>): (r: seq<T>)
    ensures multiset(r) == multiset(s) + multiset{x}
  {
    if s == [] then [x]
    else if less(s[0], x) then
      assert s == [s[0]] + s[1..];
      [s[0]] + Insert(less, x, s[1..])
    else [x] + s
  }

  function Sort<T>(less: Order<T>, s: seq<T>): (r: seq<T>)
    ensures multiset(r) == multiset(s)
  {
    if s == [] then []
    else
      assert s == [s[0]] + s[1..];
      Insert(less, s[0], Sort(less, s[1..]))
  }

  lemma SameElements<T>(a: seq<T>, b: seq<T>)
    requires multiset(a) == multiset(b)
    ensures |a| == |b|
    ensures forall x :: x in a <==> x in b
  {
    assert |multiset(a)| == |a| && |multiset(b)| == |b|;
    forall x ensures x in a <==> x in b {
      assert x in a <==> x in multiset(a);
      assert x in b <==> x in multiset(b);
    }
  }

  lemma {:induction false} InsertSorted<T(!new)>(less: Order<T>, x: T, s: seq<T>)
    requires StrictWeak(less) && Sorted(less, s)
    ensures Sorted(less, Insert(less, x, s))
  {
    if s != [] {
      if less(s[0], x) {
        var t := Insert(less, x, s[1..]);
        InsertSorted(less, x, s[1..]);
        assert multiset(t) == multiset(s[1..] + [x]);
        SameElements(t, s[1..] + [x]);
        forall j | 0 <= j < |t|
          ensures !less(t[j], s[0])
        {
          assert t[j] in t;
        }
      } else {
        forall j | 0 <= j < |s|
          ensures !less(s[j], x)
        {
          assert j == 0 || !less(s[j], s[0]);
        }
      }
    }
  }

  lemma {:induction false} SortSorts<T(!new)>(less: Order<T>, s: seq<T>)
    requires StrictWeak(less)
    ensures Sorted(less, Sort(less, s))
  {
    if s != [] {
      SortSorts(less, s[1..]);
      InsertSorted(less, s[0], Sort(less, s[1..]));
    }
  }

  lemma SortedHeadsAgree<T(!new)>(less: Order<T>, a: seq<T>, b: seq<T>)
    requires StrictWeak(less) && TotalOn(less, a) && a != [] && b != []
    requires Sorted(less, a) && Sorted(less, b) && forall x :: x in a <==> x in b
    ensures a[0] == b[0]
  {
    assert a[0] in b && b[0] in a;
    var i :| 0 <= i < |b| && b[i] == a[0];
    var j :| 0 <= j < |a| && a[j] == b[0];
    assert !less(a[0], b[0]) || j == 0;
    assert !less(b[0], a[0]) || i == 0;
  }

  lemma TailMultiset<T>(s: seq<T>)
    requires s != []
    ensures multiset(s[1..]) == multiset(s) - multiset{s[0]}
  {
    assert s == [s[0]] + s[1..];
  }

  /** Two sorted arrangements of the same elements are the same list, when nothing ties. */
  lemma {:induction false} SortedUnique<T(!new)>(less: Order<T>, a: seq<T>, b: seq<T>)
    requires StrictWeak(less) && TotalOn(less, a)
    requires Sorted(less, a) && Sorted(less, b) && multiset(a) == multiset(b)
    ensures a == b
  {
    SameElements(a, b);
    if a != [] {
      SortedHeadsAgree(less, a, b);
      TailMultiset(a);
      TailMultiset(b);
      SortedUnique(less, a[1..], b[1..]);
      assert a == [a[0]] + a[1..] && b == [b[0]] + b[1..];
    }
  }

  /** Sorting forgets the order its input came in, and sorting twice is sorting once. */
  lemma SortCanonical<T(!new)>(less: Order<T>, a: seq<T>, b: seq<T>)
    requires StrictWeak(less) && TotalOn(less, a) && multiset(a) == multiset(b)
    ensures Sort(less, a) == Sort(less, b)
    ensures Sort(less, Sort(less, a)) == Sort(less, a)
  {
    SortSorts(less, a);
    SortSorts(less, b);
    SortSorts(less, Sort(less, a));
    SameElements(a, Sort(less, a));
    SortedUnique(less, Sort(less, a), Sort(less, b));
    SortedUnique(less, Sort(less, a), Sort(less, Sort(less, a)));
  }

  /** Lexicographic order by code unit. */
  predicate TextLess(a: string, b: string) {
    if b == [] then false
    else if a == [] then true
    else if a[0] != b[0] then a[0] < b[0]
    else TextLess(a[1..], b[1..])
  }

  lemma {:induction false} TextLessAsymmetric(a: string, b: string)
    requires TextLess(a, b)
    ensures !TextLess(b, a)
  {
    if a != [] && a[0] == b[0] {
      TextLessAsymmetric(a[1..], b[1..]);
    }
  }

  lemma {:induction false} TextLessSplits(a: string, b: string, c: string)
    requires TextLess(a, b)
    ensures TextLess(a, c) || TextLess(c, b)
  {
    if a != [] && c != [] && a[0] == b[0] == c[0] {
      TextLessSplits(a[1..], b[1..], c[1..]);
    }
  }

  lemma {:induction false} TextLessTotal(a: string, b: string)
    requires a != b
    ensures TextLess(a, b) || TextLess(b, a)
  {
    if a != [] && b != [] && a[0] == b[0] {
      assert a == [a[0]] + a[1..] && b == [b[0]] + b[1..];
      TextLessTotal(a[1..], b[1..]);
    }
  }

  lemma TextLessOrders()
    ensures StrictWeak(TextLess)
  {
    forall a, b | TextLess(a, b) ensures !TextLess(b, a) { TextLessAsymmetric(a, b); }
    forall a, b, c | TextLess(a, b) ensures TextLess(a, c) || TextLess(c, b) { TextLessSplits(a, b, c); }
  }
}
