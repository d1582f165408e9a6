/**
 Ordering agents and results by address: the lexicographic order on strings, what sorting a slice
 promises, and when that promise has only one answer.
 */
module Sorting {

  predicate LexLe(a: string, b: string) {
    a == [] || (b != [] && (a[0] < b[0] || (a[0] == b[0] && LexLe(a[1..], b[1..]))))
  }

  // One string is the beginning of the other, or smaller where the two first differ.
  ghost predicate DictionaryOrder(a: string, b: string) {
    a <= b || exists k :: 0 <= k < |a| && k < |b| && a[..k] == b[..k] && a[k] < b[k]
  }

  lemma AfterTheFirstLetter(a: string, b: string)
    requires a != [] && b != [] && a[0] == b[0]
    ensures DictionaryOrder(a, b) <==> DictionaryOrder(a[1..], b[1..])
  {
    assert a == [a[0]] + a[1..] && b == [b[0]] + b[1..];
    if k :| 0 <= k < |a[1..]| && k < |b[1..]| && a[1..][..k] == b[1..][..k] && a[1..][k] < b[1..][k] {
      assert a[..k + 1] == [a[0]] + a[1..][..k] && b[..k + 1] == [b[0]] + b[1..][..k];
      assert a[k + 1] < b[k + 1];
    }
    if k :| 0 <= k < |a| && k < |b| && a[..k] == b[..k] && a[k] < b[k] {
      assert a[1..][..k - 1] == a[..k][1..] && b[1..][..k - 1] == b[..k][1..];
      assert a[1..][k - 1] < b[1..][k - 1];
    }
  }

  lemma AtTheFirstLetter(a: string, b: string)
    requires a != [] && b != [] && a[0] != b[0]
    ensures DictionaryOrder(a, b) <==> a[0] < b[0]
  {
    assert forall k :: 0 < k <= |a| && k <= |b| ==> a[..k][0] != b[..k][0];
    assert a[..0] == b[..0];
  }

  /** The order is the dictionary's. */
  lemma {:induction false} LexIsDictionary(a: string, b: string)
    ensures LexLe(a, b) <==> DictionaryOrder(a, b)
    ensures LexLe(a, b) <==> a <= b || exists k :: 0 <= k < |a| && k < |b| && a[..k] == b[..k] && a[k] < b[k]
  {
    if a != [] && b != [] {
      if a[0] == b[0] {
        LexIsDictionary(a[1..], b[1..]);
        AfterTheFirstLetter(a, b);
      } else {
        AtTheFirstLetter(a, b);
      }
    }
  }

  lemma {:induction false} LexTotal(a: string, b: string)
    ensures LexLe(a, b) || LexLe(b, a)
  {
    if a != [] && b != [] && a[0] == b[0] {
      LexTotal(a[1..], b[1..]);
    }
  }

  lemma {:induction false} LexAntisymmetric(a: string, b: string)
    requires LexLe(a, b) && LexLe(b, a)
    ensures a == b
  {
    if a != [] && b != [] {
      LexAntisymmetric(a[1..], b[1..]);
      assert a == [a[0]] + a[1..] && b == [b[0]] + b[1..];
    }
  }

  lemma {:induction false} LexTransitive(a: string, b: string, c: string)
    requires LexLe(a, b) && LexLe(b, c)
    ensures LexLe(a, c)
  {
    if a != [] && a[0] == b[0] && b[0] == c[0] {
      LexTransitive(a[1..], b[1..], c[1..]);
    }
  }

  ghost predicate SortedBy<T>(xs: seq<T>, key: T -> string) {
    forall i, j :: 0 <= i <= j < |xs| ==> LexLe(key(xs[i]), key(xs[j]))
  }

  function Insert<T>(x: T, xs: seq<T>, key: T -> string): seq<T> {
    if xs == [] || LexLe(key(x), key(xs[0])) then [x] + xs else [xs[0]] + Insert(x, xs[1..], key)
  }

  function Sort<T>(xs: seq<T>, key: T -> string): seq<T> {
    if xs == [] then [] else Insert(xs[0], Sort(xs[1..], key), key)
  }

  lemma {:induction false} InsertSorts<T>(x: T, xs: seq<T>, key: T -> string)
    requires SortedBy(xs, key)
    ensures SortedBy(Insert(x, xs, key), key)
    ensures multiset(Insert(x, xs, key)) == multiset{x} + multiset(xs)
  {
    LexTotal(key(x), key(x));
    if xs != [] {
      LexTotal(key(x), key(xs[0]));
      if LexLe(key(x), key(xs[0])) {
        forall j | 0 <= j < |xs|
          ensures LexLe(key(x), key(xs[j]))
        {
          LexTransitive(key(x), key(xs[0]), key(xs[j]));
        }
      } else {
        var rest := Insert(x, xs[1..], key);
        InsertSorts(x, xs[1..], key);
        assert xs == [xs[0]] + xs[1..];
        forall y | y in rest
          ensures LexLe(key(xs[0]), key(y))
        {
          assert y in multiset(rest);
        }
      }
    }
  }

  lemma {:induction false} SortSorts<T>(xs: seq<T>, key: T -> string)
    ensures SortedBy(Sort(xs, key), key) && multiset(Sort(xs, key)) == multiset(xs)
  {
    if xs != [] {
      SortSorts(xs[1..], key);
      InsertSorts(xs[0], Sort(xs[1..], key), key);
      assert xs == [xs[0]] + xs[1..];
    }
  }

  // Sorts a slice in place.  Nothing is promised about the order of equal keys.
  method SortSlice<T>(a: array<T>, key: T -> string)
    modifies a
    ensures SortedBy(a[..], key) && multiset(a[..]) == multiset(old(a[..]))
  {
    var sorted := Sort(a[..], key);
    SortSorts(a[..], key);
    assert |sorted| == a.Length by {
      assert |multiset(sorted)| == |multiset(a[..])|;
    }
    forall i | 0 <= i < a.Length {
      a[i] := sorted[i];
    }
    assert a[..] == sorted;
  }

  // Elements with the same key are the same element.
  ghost predicate KeyDetermines<T>(xs: seq<T>, key: T -> string) {
    forall x, y :: x in xs && y in xs && key(x) == key(y) ==> x == y
  }

  lemma LeastIsFirst<T>(xs: seq<T>, ys: seq<T>, key: T -> string)
    requires SortedBy(xs, key) && SortedBy(ys, key) && multiset(xs) == multiset(ys)
    requires KeyDetermines(xs, key) && xs != [] && ys != []
    ensures xs[0] == ys[0]
  {
    assert xs[0] in multiset(ys) && ys[0] in multiset(xs);
    LexAntisymmetric(key(xs[0]), key(ys[0]));
  }

  lemma TailsAgree<T>(xs: seq<T>, ys: seq<T>)
    requires multiset(xs) == multiset(ys) && xs != [] && ys != [] && xs[0] == ys[0]
    ensures multiset(xs[1..]) == multiset(ys[1..])
  {
    assert xs == [xs[0]] + xs[1..] && ys == [ys[0]] + ys[1..];
    assert multiset(xs[1..]) == multiset(xs) - multiset{xs[0]};
    assert multiset(ys[1..]) == multiset(ys) - multiset{ys[0]};
  }

  /** If the key determines the element, there is only one way to sort. */
  lemma {:induction false} SortedIsUnique<T>(xs: seq<T>, ys: seq<T>, key: T -> string)
    requires SortedBy(xs, key) && SortedBy(ys, key) && multiset(xs) == multiset(ys)
    requires KeyDetermines(xs, key)
    ensures xs == ys
  {
    assert |multiset(xs)| == |multiset(ys)|;
    if xs != [] {
      LeastIsFirst(xs, ys, key);
      TailsAgree(xs, ys);
      SortedIsUnique(xs[1..], ys[1..], key);
      assert xs == [xs[0]] + xs[1..] && ys == [ys[0]] + ys[1..];
    }
  }

  // Cut anywhere, nothing before the cut is greater than anything after it.
  lemma CutSeparates<T>(xs: seq<T>, k: nat, key: T -> string)
    requires SortedBy(xs, key) && k <= |xs|
    ensures SortedBy(xs[..k], key)
    ensures forall x, y :: x in xs[..k] && y in xs[k..] ==> LexLe(key(x), key(y))
  {
    forall x, y | x in xs[..k] && y in xs[k..]
      ensures LexLe(key(x), key(y))
    {
      var i :| 0 <= i < k && xs[i] == x;
      var j :| k <= j < |xs| && xs[j] == y;
    }
  }

  // The last element of one sequence, found and taken out of another with the same elements.
  lemma TakeMatch<T>(xs: seq<T>, ys: seq<T>) returns (i: nat)
    requires multiset(xs) == multiset(ys) && xs != []
    ensures i < |ys| && ys[i] == xs[|xs| - 1]
    ensures multiset(xs[..|xs| - 1]) == multiset(ys[..i] + ys[i + 1..])
  {
    var n := |xs| - 1;
    assert xs == xs[..n] + [xs[n]];
    assert xs[n] in multiset(ys);
    i :| 0 <= i < |ys| && ys[i] == xs[n];
    assert ys == ys[..i] + [ys[i]] + ys[i + 1..];
    assert multiset(ys) == multiset(ys[..i]) + multiset{ys[i]} + multiset(ys[i + 1..]);
    assert multiset(xs[..n]) == multiset(xs) - multiset{xs[n]};
    assert multiset(ys[..i] + ys[i + 1..]) == multiset(ys) - multiset{ys[i]};
  }
}
