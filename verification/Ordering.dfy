/**
 The orders the program sorts by (code-point order on strings, lexicographic order on tuples) and
 Python's stable `sorted`.
 */
module Ordering {

  ghost predicate Preorder<T(!new)>(leq: (T, T) -> bool) {
    && (forall x, y :: leq(x, y) || leq(y, x))
    && (forall x, y, z :: leq(x, y) && leq(y, z) ==> leq(x, z))
  }

  ghost predicate TotalOrder<T(!new)>(leq: (T, T) -> bool) {
    && Preorder(leq)
    && (forall x, y :: leq(x, y) && leq(y, x) ==> x == y)
  }

  predicate Lex<T(==)>(leq: (T, T) -> bool, a: seq<T>, b: seq<T>) {
    a == [] || (b != [] && if a[0] == b[0] then Lex(leq, a[1..], b[1..]) else leq(a[0], b[0]))
  }

  lemma {:induction false} LexTotal<T(!new)>(leq: (T, T) -> bool, a: seq<T>, b: seq<T>)
    requires TotalOrder(leq)
    ensures Lex(leq, a, b) || Lex(leq, b, a)
    ensures Lex(leq, a, b) && Lex(leq, b, a) ==> a == b
  {
    if a != [] && b != [] {
      if a[0] == b[0] {
        LexTotal(leq, a[1..], b[1..]);
        assert a == [a[0]] + a[1..] && b == [b[0]] + b[1..];
      }
    }
  }

  lemma {:induction false} LexTransitive<T(!new)>(leq: (T, T) -> bool, a: seq<T>, b: seq<T>, c: seq<T>)
    requires TotalOrder(leq)
    requires Lex(leq, a, b) && Lex(leq, b, c)
    ensures Lex(leq, a, c)
  {
    if a != [] && a[0] == b[0] == c[0] {
      LexTransitive(leq, a[1..], b[1..], c[1..]);
    }
  }

  /** The first difference decides. */
  lemma {:induction false} FirstDifference<T>(leq: (T, T) -> bool, a: seq<T>, b: seq<T>, k: nat)
    requires k < |a| && k < |b| && a[k] != b[k] && forall i :: 0 <= i < k ==> a[i] == b[i]
    ensures Lex(leq, a, b) <==> leq(a[k], b[k])
  {
    if k > 0 {
      FirstDifference(leq, a[1..], b[1..], k - 1);
    }
  }

  predicate CharLeq(a: char, b: char) {
    a <= b
  }

  predicate StringLeq(a: string, b: string) {
    Lex(CharLeq, a, b)
  }

  predicate StringsLeq(a: seq<string>, b: seq<string>) {
    Lex(StringLeq, a, b)
  }

  lemma {:induction false} StringOrder()
    ensures TotalOrder(StringLeq) && TotalOrder(StringsLeq)
  {
    forall a: string, b: string {
      LexTotal(CharLeq, a, b);
    }
    forall a: string, b: string, c: string | StringLeq(a, b) && StringLeq(b, c) ensures StringLeq(a, c) {
      LexTransitive(CharLeq, a, b, c);
    }
    assert TotalOrder(StringLeq);
    forall a: seq<string>, b: seq<string> {
      LexTotal(StringLeq, a, b);
    }
    forall a: seq<string>, b: seq<string>, c: seq<string> | StringsLeq(a, b) && StringsLeq(b, c)
      ensures StringsLeq(a, c)
    {
      LexTransitive(StringLeq, a, b, c);
    }
  }

  /** The texts agree up to k, where the first ends or has the smaller character. */
  ghost predicate FirstAt(a: string, b: string, k: int) {
    0 <= k <= |a| && k <= |b| && a[..k] == b[..k] && (k == |a| || (k < |b| && a[k] < b[k]))
  }

  /** Code-point order: a smaller character where the texts first differ, or one text is a prefix of the other. */
  ghost predicate TextFirst(a: string, b: string) {
    exists k :: FirstAt(a, b, k)
  }

  lemma {:induction false} SamePrefix(a: string, b: string, k: int)
    requires 0 < k <= |a| && k <= |b| && a[..k] == b[..k]
    ensures a[0] == b[0]
  {
    assert a[..k][0] == a[0] && b[..k][0] == b[0];
  }

  lemma {:induction false} HeadsDiffer(a: string, b: string)
    requires a != [] && b != [] && a[0] != b[0]
    ensures TextFirst(a, b) <==> a[0] < b[0]
  {
    assert a[..0] == b[..0];
    assert a[0] < b[0] ==> FirstAt(a, b, 0);
    if TextFirst(a, b) {
      var k :| FirstAt(a, b, k);
      if k > 0 {
        SamePrefix(a, b, k);
        assert false;
      }
    }
  }

  lemma {:induction false} HeadsAgree(a: string, b: string)
    requires a != [] && b != [] && a[0] == b[0]
    ensures TextFirst(a, b) <==> TextFirst(a[1..], b[1..])
  {
    if TextFirst(a[1..], b[1..]) {
      var k :| FirstAt(a[1..], b[1..], k);
      assert a[..k + 1] == [a[0]] + a[1..][..k] && b[..k + 1] == [b[0]] + b[1..][..k];
      assert FirstAt(a, b, k + 1);
    }
    if TextFirst(a, b) {
      var k :| FirstAt(a, b, k);
      assert k > 0;
      assert a[1..][..k - 1] == a[..k][1..] && b[1..][..k - 1] == b[..k][1..];
      assert FirstAt(a[1..], b[1..], k - 1);
    }
  }

  lemma {:induction false} StringLeqExactly(a: string, b: string)
    ensures StringLeq(a, b) <==> TextFirst(a, b)
  {
    if a == [] {
      assert FirstAt(a, b, 0);
    } else if b != [] && a[0] == b[0] {
      StringLeqExactly(a[1..], b[1..]);
      HeadsAgree(a, b);
    } else if b != [] {
      HeadsDiffer(a, b);
    }
  }

  /** The tuple `(instant, text)` that event lists are sorted by. */
  datatype Key = Key(instant: int, text: string)

  predicate KeyLeq(a: Key, b: Key) {
    a.instant < b.instant || (a.instant == b.instant && StringLeq(a.text, b.text))
  }

  lemma {:induction false} KeyOrder()
    ensures TotalOrder(KeyLeq)
  {
    StringOrder();
  }

  /** The earlier instant first, and at one instant the text that comes first. */
  ghost predicate EarlierOrFirst(i: int, a: string, j: int, b: string) {
    i < j || (i == j && TextFirst(a, b))
  }

  lemma {:induction false} KeyLeqExactly(a: Key, b: Key)
    ensures KeyLeq(a, b) <==> EarlierOrFirst(a.instant, a.text, b.instant, b.text)
  {
    StringLeqExactly(a.text, b.text);
  }

  function UpperChar(c: char): char {
    if 'a' <= c <= 'z' then (c as int - 32) as char else c
  }

  /** `str.upper` on ASCII text. */
  function Upper(s: string): string {
    seq(|s|, i requires 0 <= i < |s| => UpperChar(s[i]))
  }

  /** Lower-case letters move to the upper-case letter of the same place in the alphabet, other characters stay. */
  lemma {:induction false} UpperExactly(s: string, i: nat)
    requires i < |s|
    ensures |Upper(s)| == |s|
    ensures 'a' <= s[i] <= 'z' ==> 'A' <= Upper(s)[i] <= 'Z' && Upper(s)[i] - 'A' == s[i] - 'a'
    ensures !('a' <= s[i] <= 'z') ==> Upper(s)[i] == s[i]
  {
  }

  // --- stable sorting

  function Insert<T>(leq: (T, T) -> bool, x: T, s: seq<T>): seq<T> {
    if s == [] || leq(x, s[0]) then [x] + s else [s[0]] + Insert(leq, x, s[1..])
  }

  /** Stable: an element goes in front of the later elements it does not exceed. */
  function Sort<T>(leq: (T, T) -> bool, s: seq<T>): seq<T> {
    if s == [] then [] else Insert(leq, s[0], Sort(leq, s[1..]))
  }

  ghost predicate Sorted<T>(leq: (T, T) -> bool, s: seq<T>) {
    forall i, j :: 0 <= i < j < |s| ==> leq(s[i], s[j])
  }

  ghost predicate AllLeq<T>(leq: (T, T) -> bool, a: seq<T>, b: seq<T>) {
    forall x, y :: x in a && y in b ==> leq(x, y)
  }

  lemma {:induction false} SortedCons<T>(leq: (T, T) -> bool, x: T, s: seq<T>)
    requires Sorted(leq, s) && AllLeq(leq, [x], s)
    ensures Sorted(leq, [x] + s)
  {
    assert x in [x];
    forall j | 0 < j < |[x] + s| ensures leq(x, ([x] + s)[j]) {
      assert ([x] + s)[j] in s;
    }
  }

  lemma {:induction false} InsertContents<T>(leq: (T, T) -> bool, x: T, s: seq<T>)
    ensures multiset(Insert(leq, x, s)) == multiset(s) + multiset{x}
    ensures forall y :: y in Insert(leq, x, s) <==> y == x || y in s
  {
    if s == [] || leq(x, s[0]) {
    } else {
      InsertContents(leq, x, s[1..]);
      assert s == [s[0]] + s[1..];
    }
  }

  lemma {:induction false} InsertSorts<T(!new)>(leq: (T, T) -> bool, x: T, s: seq<T>)
    requires Preorder(leq) && Sorted(leq, s)
    ensures Sorted(leq, Insert(leq, x, s))
  {
    if s == [] {
    } else if leq(x, s[0]) {
      forall y | y in s ensures leq(x, y) {
        assert y == s[0] || leq(s[0], y);
      }
      SortedCons(leq, x, s);
    } else {
      InsertSorts(leq, x, s[1..]);
      InsertContents(leq, x, s[1..]);
      SortedCons(leq, s[0], Insert(leq, x, s[1..]));
    }
  }

  lemma {:induction false} SortContents<T>(leq: (T, T) -> bool, s: seq<T>)
    ensures multiset(Sort(leq, s)) == multiset(s)
    ensures forall x :: x in Sort(leq, s) <==> x in s
  {
    if s != [] {
      SortContents(leq, s[1..]);
      InsertContents(leq, s[0], Sort(leq, s[1..]));
      assert s == [s[0]] + s[1..];
    }
  }

  lemma {:induction false} SortSorts<T(!new)>(leq: (T, T) -> bool, s: seq<T>)
    requires Preorder(leq)
    ensures Sorted(leq, Sort(leq, s)) && multiset(Sort(leq, s)) == multiset(s)
    ensures forall x :: x in Sort(leq, s) <==> x in s
  {
    SortContents(leq, s);
    if s != [] {
      SortSorts(leq, s[1..]);
      InsertSorts(leq, s[0], Sort(leq, s[1..]));
    }
  }

  lemma {:induction false} InsertPrefix<T(!new)>(leq: (T, T) -> bool, x: T, a: seq<T>, b: seq<T>)
    requires AllLeq(leq, [x], b)
    ensures Insert(leq, x, a + b) == Insert(leq, x, a) + b
  {
    if a == [] {
      assert a + b == b;
      if b != [] { assert b[0] in b; }
    } else if leq(x, a[0]) {
    } else {
      InsertPrefix(leq, x, a[1..], b);
      assert (a + b)[1..] == a[1..] + b;
    }
  }

  /** Sorting a list whose first part sorts no later than its second part sorts the parts separately. */
  lemma {:induction false} SortConcat<T(!new)>(leq: (T, T) -> bool, a: seq<T>, b: seq<T>)
    requires Preorder(leq) && AllLeq(leq, a, b)
    ensures Sort(leq, a + b) == Sort(leq, a) + Sort(leq, b)
  {
    if a == [] {
      assert a + b == b;
    } else {
      assert (a + b)[1..] == a[1..] + b;
      SortConcat(leq, a[1..], b);
      SortSorts(leq, b);
      InsertPrefix(leq, a[0], Sort(leq, a[1..]), Sort(leq, b));
    }
  }

  function Filter<T>(p: T -> bool, s: seq<T>): seq<T> {
    if s == [] then [] else (if p(s[0]) then [s[0]] else []) + Filter(p, s[1..])
  }

  /** The order does not tell the elements with this property apart. */
  ghost predicate Tied<T(!new)>(leq: (T, T) -> bool, p: T -> bool) {
    forall x, y :: p(x) && p(y) ==> leq(x, y)
  }

  lemma {:induction false} FilterCons<T>(p: T -> bool, x: T, s: seq<T>)
    ensures Filter(p, [x] + s) == (if p(x) then [x] else []) + Filter(p, s)
  {
    assert ([x] + s)[1..] == s;
  }

  lemma {:induction false} InsertTied<T(!new)>(leq: (T, T) -> bool, p: T -> bool, x: T, s: seq<T>)
    requires Tied(leq, p)
    ensures Filter(p, Insert(leq, x, s)) == (if p(x) then [x] else []) + Filter(p, s)
  {
    if s == [] || leq(x, s[0]) {
      FilterCons(p, x, s);
    } else {
      InsertTied(leq, p, x, s[1..]);
      FilterCons(p, s[0], Insert(leq, x, s[1..]));
      assert s == [s[0]] + s[1..];
    }
  }

  /** Sorting is stable: elements the order does not tell apart stay in the order they were in. */
  lemma {:induction false} SortStable<T(!new)>(leq: (T, T) -> bool, p: T -> bool, s: seq<T>)
    requires Tied(leq, p)
    ensures Filter(p, Sort(leq, s)) == Filter(p, s)
  {
    if s != [] {
      SortStable(leq, p, s[1..]);
      InsertTied(leq, p, s[0], Sort(leq, s[1..]));
    }
  }

  function Map<T, U>(f: T -> U, s: seq<T>): (r: seq<U>)
    ensures |r| == |s| && forall i :: 0 <= i < |s| ==> r[i] == f(s[i])
  {
    seq(|s|, i requires 0 <= i < |s| => f(s[i]))
  }

  /** The map carries one order over to the other. */
  ghost predicate OrderPreserved<T(!new), U>(f: T -> U, leqT: (T, T) -> bool, leqU: (U, U) -> bool) {
    forall x, y :: leqU(f(x), f(y)) <==> leqT(x, y)
  }

  lemma {:induction false} InsertMapped<T(!new), U>(f: T -> U, leqT: (T, T) -> bool, leqU: (U, U) -> bool, x: T, s: seq<T>)
    requires OrderPreserved(f, leqT, leqU)
    ensures Insert(leqU, f(x), Map(f, s)) == Map(f, Insert(leqT, x, s))
  {
    if s != [] && !leqT(x, s[0]) {
      InsertMapped(f, leqT, leqU, x, s[1..]);
      assert Map(f, s)[1..] == Map(f, s[1..]);
    }
  }

  lemma {:induction false} SortMapped<T(!new), U>(f: T -> U, leqT: (T, T) -> bool, leqU: (U, U) -> bool, s: seq<T>)
    requires OrderPreserved(f, leqT, leqU)
    ensures Sort(leqU, Map(f, s)) == Map(f, Sort(leqT, s))
  {
    if s != [] {
      SortMapped(f, leqT, leqU, s[1..]);
      assert Map(f, s)[1..] == Map(f, s[1..]);
      InsertMapped(f, leqT, leqU, s[0], Sort(leqT, s[1..]));
    }
  }

  /** No two different positions compare equal. */
  ghost predicate StrictlySorted<T>(leq: (T, T) -> bool, s: seq<T>) {
    forall i, j :: 0 <= i < j < |s| ==> leq(s[i], s[j]) && !leq(s[j], s[i])
  }

  lemma {:induction false} HeadIn<T>(s: seq<T>)
    requires s != []
    ensures s[0] in s
  {
  }

  /** A strictly sorted list is determined by its elements. */
  lemma {:induction false} StrictlySortedUnique<T(!new)>(leq: (T, T) -> bool, a: seq<T>, b: seq<T>)
    requires Preorder(leq)
    requires StrictlySorted(leq, a) && StrictlySorted(leq, b)
    requires forall x :: x in a <==> x in b
    ensures a == b
  {
    if a == [] {
      if b != [] { HeadIn(b); }
    } else {
      assert a[0] in b && b[0] in a;
      assert a[0] == b[0];
      assert a[0] !in a[1..] && b[0] !in b[1..];
      forall x ensures x in a[1..] <==> x in b[1..] {
        assert x in a <==> x == a[0] || x in a[1..];
        assert x in b <==> x == b[0] || x in b[1..];
      }
      StrictlySortedUnique(leq, a[1..], b[1..]);
      assert a == [a[0]] + a[1..] && b == [b[0]] + b[1..];
    }
  }
}
