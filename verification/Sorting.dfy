/** Stable sorting (Python's `sorted`, JavaScript's `sort`) and the order of
    strings. */
module Sorting {
  function Insert<T>(notAfter: (T, T) -> bool, x: T, s: seq<T>): seq<T> {
    if s == [] then [x]
    else if notAfter(x, s[0]) then [x] + s
    else [s[0]] + Insert(notAfter, x, s[1..])
  }

  function Sorted<T>(notAfter: (T, T) -> bool, s: seq<T>): seq<T> {
    if s == [] then [] else Insert(notAfter, s[0], Sorted(notAfter, s[1..]))
  }

  ghost predicate TotalPreorder<T(!new)>(notAfter: (T, T) -> bool) {
    (forall a, b :: notAfter(a, b) || notAfter(b, a)) &&
    (forall a, b, c :: notAfter(a, b) && notAfter(b, c) ==> notAfter(a, c))
  }

  ghost predicate Ordered<T>(notAfter: (T, T) -> bool, s: seq<T>) {
    forall i, j :: 0 <= i < j < |s| ==> notAfter(s[i], s[j])
  }

  lemma {:induction false} InsertKeeps<T>(notAfter: (T, T) -> bool, x: T, s: seq<T>)
    ensures multiset(Insert(notAfter, x, s)) == multiset([x]) + multiset(s)
  {
    if s != [] && !notAfter(x, s[0]) {
      InsertKeeps(notAfter, x, s[1..]);
      assert s == [s[0]] + s[1..];
    }
  }

  lemma {:induction false} SortedKeeps<T>(notAfter: (T, T) -> bool, s: seq<T>)
    ensures multiset(Sorted(notAfter, s)) == multiset(s)
    ensures |Sorted(notAfter, s)| == |s|
  {
    if s != [] {
      SortedKeeps(notAfter, s[1..]);
      InsertKeeps(notAfter, s[0], Sorted(notAfter, s[1..]));
      assert s == [s[0]] + s[1..];
    }
    assert |multiset(Sorted(notAfter, s))| == |Sorted(notAfter, s)|;
    assert |multiset(s)| == |s|;
  }

  lemma {:induction false} InsertOrders<T(!new)>(notAfter: (T, T) -> bool, x: T, s: seq<T>)
    requires TotalPreorder(notAfter) && Ordered(notAfter, s)
    ensures Ordered(notAfter, Insert(notAfter, x, s))
  {
    if s != [] && !notAfter(x, s[0]) {
      var rest := Insert(notAfter, x, s[1..]);
      InsertOrders(notAfter, x, s[1..]);
      InsertKeeps(notAfter, x, s[1..]);
      forall i | 0 <= i < |rest| ensures notAfter(s[0], rest[i]) {
        assert rest[i] in multiset(rest);
      }
    }
  }

  lemma {:induction false} SortedOrders<T(!new)>(notAfter: (T, T) -> bool, s: seq<T>)
    requires TotalPreorder(notAfter)
    ensures Ordered(notAfter, Sorted(notAfter, s))
  {
    if s != [] {
      SortedOrders(notAfter, s[1..]);
      InsertOrders(notAfter, s[0], Sorted(notAfter, s[1..]));
    }
  }

  /** Strings compare code point by code point; a prefix comes first. */
  predicate TextNotAfter(a: string, b: string) {
    a == "" || (b != "" && (a[0] < b[0] || (a[0] == b[0] && TextNotAfter(a[1..], b[1..]))))
  }

  lemma {:induction false} TextTotal(a: string, b: string)
    ensures TextNotAfter(a, b) || TextNotAfter(b, a)
  {
    if a != "" && b != "" {
      TextTotal(a[1..], b[1..]);
    }
  }

  lemma {:induction false} TextTransitive(a: string, b: string, c: string)
    requires TextNotAfter(a, b) && TextNotAfter(b, c)
    ensures TextNotAfter(a, c)
  {
    if a != "" && a[0] == b[0] == c[0] {
      TextTransitive(a[1..], b[1..], c[1..]);
    }
  }

  lemma {:induction false} TextAntisymmetric(a: string, b: string)
    requires TextNotAfter(a, b) && TextNotAfter(b, a)
    ensures a == b
  {
    if a != "" {
      TextAntisymmetric(a[1..], b[1..]);
    }
  }

  /** a and b first differ at i, where a has the smaller code point. */
  predicate SmallerAt(a: string, b: string, i: nat) {
    i < |a| && i < |b| && a[..i] == b[..i] && a[i] < b[i]
  }

  /** What the order of strings means. */
  lemma {:induction false} TextNotAfterIff(a: string, b: string)
    ensures TextNotAfter(a, b) <==> a <= b || exists i: nat :: SmallerAt(a, b, i)
  {
    if a != "" && b != "" {
      var c, d := a[1..], b[1..];
      TextNotAfterIff(c, d);
      assert a == [a[0]] + c && b == [b[0]] + d;
      if a[0] == b[0] {
        if i: nat :| SmallerAt(c, d, i) {
          assert a[..i + 1] == [a[0]] + c[..i] && b[..i + 1] == [b[0]] + d[..i];
          assert SmallerAt(a, b, i + 1);
        }
        if i: nat :| SmallerAt(a, b, i) {
          assert c[..i - 1] == a[..i][1..] && d[..i - 1] == b[..i][1..];
          assert SmallerAt(c, d, i - 1);
        }
      } else if a[0] < b[0] {
        assert SmallerAt(a, b, 0);
      } else {
        forall i | 0 < i < |a| && i < |b| ensures a[..i] != b[..i] {
          assert a[..i][0] == a[0] && b[..i][0] == b[0];
        }
      }
    }
  }

  ghost predicate TotalOrder<T(!new)>(notAfter: (T, T) -> bool) {
    TotalPreorder(notAfter) && forall a, b :: notAfter(a, b) && notAfter(b, a) ==> a == b
  }

  lemma {:induction false} TextTotalOrder()
    ensures TotalOrder(TextNotAfter)
  {
    forall a: string, b: string ensures TextNotAfter(a, b) || TextNotAfter(b, a) {
      TextTotal(a, b);
    }
    forall a: string, b: string, c: string | TextNotAfter(a, b) && TextNotAfter(b, c) ensures TextNotAfter(a, c) {
      TextTransitive(a, b, c);
    }
    forall a: string, b: string | TextNotAfter(a, b) && TextNotAfter(b, a) ensures a == b {
      TextAntisymmetric(a, b);
    }
  }

  lemma {:induction false} SameMultisetMembers<T>(a: seq<T>, b: seq<T>, i: nat) returns (j: nat)
    requires multiset(a) == multiset(b) && i < |a|
    ensures j < |b| && b[j] == a[i]
  {
    assert a[i] in multiset(a);
    assert a[i] in multiset(b);
    j :| 0 <= j < |b| && b[j] == a[i];
  }

  lemma {:induction false} SameMultisetTails<T>(a: seq<T>, b: seq<T>)
    requires multiset(a) == multiset(b) && a != [] && b != [] && a[0] == b[0]
    ensures multiset(a[1..]) == multiset(b[1..])
  {
    assert a == [a[0]] + a[1..] && b == [b[0]] + b[1..];
    assert multiset(a[1..]) == multiset(a) - multiset{a[0]};
    assert multiset(b[1..]) == multiset(b) - multiset{b[0]};
  }

  /** Two ordered sequences with the same elements are the same sequence. */
  lemma {:induction false} OrderedUnique<T(!new)>(notAfter: (T, T) -> bool, a: seq<T>, b: seq<T>)
    requires TotalOrder(notAfter) && Ordered(notAfter, a) && Ordered(notAfter, b)
    requires multiset(a) == multiset(b)
    ensures a == b
  {
    if a == [] {
      assert |multiset(b)| == 0;
    } else {
      var i := SameMultisetMembers(a, b, 0);
      var j := SameMultisetMembers(b, a, 0);
      assert notAfter(a[0], b[0]) && notAfter(b[0], a[0]);
      SameMultisetTails(a, b);
      assert a == [a[0]] + a[1..] && b == [b[0]] + b[1..];
      OrderedUnique(notAfter, a[1..], b[1..]);
    }
  }

  /** Sorting decides whether two sequences are rearrangements of each other. */
  lemma {:induction false} SortedEqualIffPermuted<T(!new)>(notAfter: (T, T) -> bool, a: seq<T>, b: seq<T>)
    requires TotalOrder(notAfter)
    ensures Sorted(notAfter, a) == Sorted(notAfter, b) <==> multiset(a) == multiset(b)
  {
    SortedKeeps(notAfter, a);
    SortedKeeps(notAfter, b);
    SortedOrders(notAfter, a);
    SortedOrders(notAfter, b);
    if multiset(a) == multiset(b) {
      OrderedUnique(notAfter, Sorted(notAfter, a), Sorted(notAfter, b));
    }
  }
}
