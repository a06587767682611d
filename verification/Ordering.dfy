/** Orders shared by the model: code-point order on strings, and the stable sort that
    every `sorted(...)` call of the system relies on. */
module Ordering {

  /** Lexicographic order on strings, as used when text keys are sorted. */
  predicate StringLeq(a: string, b: string) {
    a == [] || (b != [] && (a[0] < b[0] || (a[0] == b[0] && StringLeq(a[1..], b[1..]))))
  }

  lemma {:induction false} StringLeqTotal(a: string, b: string)
    ensures StringLeq(a, b) || StringLeq(b, a)
    ensures StringLeq(a, b) && StringLeq(b, a) ==> a == b
  {
    if a != [] && b != [] && a[0] == b[0] {
      StringLeqTotal(a[1..], b[1..]);
      assert a == [a[0]] + a[1..] && b == [b[0]] + b[1..];
    }
  }

  lemma {:induction false} StringLeqTransitive(a: string, b: string, c: string)
    requires StringLeq(a, b) && StringLeq(b, c)
    ensures StringLeq(a, c)
  {
    if a != [] && a[0] == b[0] == c[0] {
      StringLeqTransitive(a[1..], b[1..], c[1..]);
    }
  }

  /** Text order: a prefix comes first, else the smaller character at the first difference. */
  lemma {:induction false} StringLeqMeaning(a: string, b: string)
    ensures StringLeq(a, b) <==> a <= b || exists k :: FirstDifference(a, b, k) && a[k] < b[k]
  {
    if a != [] && b != [] {
      if a[0] == b[0] {
        StringLeqMeaning(a[1..], b[1..]);
        assert a == [a[0]] + a[1..] && b == [b[0]] + b[1..];
        if k :| FirstDifference(a[1..], b[1..], k) && a[1..][k] < b[1..][k] {
          assert FirstDifference(a, b, k + 1);
        }
        if k :| FirstDifference(a, b, k) && a[k] < b[k] {
          assert FirstDifference(a[1..], b[1..], k - 1) by {
            assert a[1..k] == a[..k][1..] && b[1..k] == b[..k][1..];
            assert a[1..][..k - 1] == a[1..k] && b[1..][..k - 1] == b[1..k];
          }
        }
      } else {
        assert FirstDifference(a, b, 0);
        forall k | k > 0 ensures !FirstDifference(a, b, k) { DiffersAtOnce(a, b, k); }
      }
    }
  }

  lemma DiffersAtOnce(a: string, b: string, k: int)
    requires a != [] && b != [] && a[0] != b[0] && k > 0
    ensures !FirstDifference(a, b, k)
  {
    if k < |a| && k < |b| { assert a[..k][0] == a[0] && b[..k][0] == b[0]; }
  }

  ghost predicate FirstDifference(a: string, b: string, k: int) {
    0 <= k < |a| && k < |b| && a[..k] == b[..k] && a[k] != b[k]
  }

  ghost predicate IsLeast(m: string, s: set<string>) {
    m in s && forall y :: y in s ==> StringLeq(m, y)
  }

  lemma {:induction false} FindLeast(s: set<string>) returns (m: string)
    requires s != {}
    ensures IsLeast(m, s)
    decreases |s|
  {
    hide StringLeq;
    var x :| x in s;
    var rest := s - {x};
    if rest == {} {
      m := x;
      StringLeqTotal(x, x);
      assert forall y :: y in s ==> y == x;
    } else {
      var least := FindLeast(rest);
      m := LesserOf(x, least, s, rest);
    }
  }

  lemma LesserOf(x: string, least: string, s: set<string>, rest: set<string>) returns (m: string)
    requires x in s && rest == s - {x} && IsLeast(least, rest)
    ensures IsLeast(m, s)
  {
    hide StringLeq;
    StringLeqTotal(x, least);
    StringLeqTotal(x, x);
    if StringLeq(x, least) {
      m := x;
      forall y | y in s ensures StringLeq(x, y) {
        if y != x { StringLeqTransitive(x, least, y); }
      }
    } else {
      m := least;
    }
  }

  lemma LeastExists(s: set<string>)
    requires s != {}
    ensures exists m :: m in s && forall y :: y in s ==> StringLeq(m, y)
  {
    hide StringLeq;
    var m := FindLeast(s);
    assert m in s && forall y :: y in s ==> StringLeq(m, y);
  }

  /** The first key of a sorted walk over a set of keys. */
  function Least(s: set<string>): (m: string)
    requires s != {}
    ensures m in s
    ensures forall y :: y in s ==> StringLeq(m, y)
  {
    LeastExists(s);
    assert forall a, b | a in s && b in s && StringLeq(a, b) && StringLeq(b, a) :: a == b by {
      forall a, b | a in s && b in s && StringLeq(a, b) && StringLeq(b, a) ensures a == b {
        StringLeqTotal(a, b);
      }
    }
    var m :| m in s && forall y :: y in s ==> StringLeq(m, y);
    m
  }

  /** A comparison that a sort may use: total and transitive. */
  ghost predicate TotalPreorder<T(!new)>(leq: (T, T) -> bool) {
    && (forall x, y :: leq(x, y) || leq(y, x))
    && (forall x, y, z :: leq(x, y) && leq(y, z) ==> leq(x, z))
  }

  ghost predicate SortedBy<T>(leq: (T, T) -> bool, s: seq<T>) {
    forall i, j :: 0 <= i < j < |s| ==> leq(s[i], s[j])
  }

  function Insert<T>(leq: (T, T) -> bool, x: T, s: seq<T>): seq<T> {
    if s == [] || leq(x, s[0]) then [x] + s else [s[0]] + Insert(leq, x, s[1..])
  }

  /** Stable sort: equal elements keep their input order. */
  function Sort<T>(leq: (T, T) -> bool, s: seq<T>): seq<T> {
    if s == [] then [] else Insert(leq, s[0], Sort(leq, s[1..]))
  }

  lemma {:induction false} InsertKeepsElements<T>(leq: (T, T) -> bool, x: T, s: seq<T>)
    ensures multiset(Insert(leq, x, s)) == multiset{x} + multiset(s)
  {
    if s != [] {
      assert s == [s[0]] + s[1..];
      if !leq(x, s[0]) { InsertKeepsElements(leq, x, s[1..]); }
    }
  }

  lemma {:induction false} InsertSorted<T(!new)>(leq: (T, T) -> bool, x: T, s: seq<T>)
    requires TotalPreorder(leq) && SortedBy(leq, s)
    ensures SortedBy(leq, Insert(leq, x, s))
  {
    if s != [] {
      if leq(x, s[0]) {
        var r := [x] + s;
        forall i, j | 0 <= i < j < |r| ensures leq(r[i], r[j]) {
          if i == 0 && j > 1 { assert leq(s[0], s[j - 1]); }
        }
      } else {
        var t := Insert(leq, x, s[1..]);
        InsertSorted(leq, x, s[1..]);
        InsertKeepsElements(leq, x, s[1..]);
        forall k | 0 <= k < |t| ensures leq(s[0], t[k]) {
          assert t[k] in multiset(t);
          if t[k] != x {
            assert t[k] in multiset(s[1..]);
            assert t[k] in s[1..];
          }
        }
      }
    }
  }

  /** A sort permutes its input and orders it. */
  lemma {:induction false} SortCorrect<T(!new)>(leq: (T, T) -> bool, s: seq<T>)
    requires TotalPreorder(leq)
    ensures multiset(Sort(leq, s)) == multiset(s)
    ensures |Sort(leq, s)| == |s|
    ensures SortedBy(leq, Sort(leq, s))
  {
    if s != [] {
      SortCorrect(leq, s[1..]);
      InsertKeepsElements(leq, s[0], Sort(leq, s[1..]));
      InsertSorted(leq, s[0], Sort(leq, s[1..]));
      assert s == [s[0]] + s[1..];
    }
    assert |multiset(Sort(leq, s))| == |multiset(s)|;
  }

  /** The elements of `s` that tie with `x`, in order. */
  ghost function Ties<T>(leq: (T, T) -> bool, x: T, s: seq<T>): seq<T> {
    if s == [] then []
    else (if leq(x, s[0]) && leq(s[0], x) then [s[0]] else []) + Ties(leq, x, s[1..])
  }

  lemma {:induction false} InsertTies<T(!new)>(leq: (T, T) -> bool, x: T, y: T, s: seq<T>)
    requires TotalPreorder(leq)
    ensures Ties(leq, x, Insert(leq, y, s)) == Ties(leq, x, [y] + s)
  {
    if s != [] && !leq(y, s[0]) {
      InsertTies(leq, x, y, s[1..]);
      var r := Insert(leq, y, s);
      assert r[0] == s[0] && r[1..] == Insert(leq, y, s[1..]);
      assert ([y] + s)[1..] == s && ([y] + s[1..])[1..] == s[1..];
      assert !(leq(y, x) && leq(x, s[0]));
    }
  }

  /** Elements that tie keep their input order. */
  lemma {:induction false} SortStable<T(!new)>(leq: (T, T) -> bool, x: T, s: seq<T>)
    requires TotalPreorder(leq)
    ensures Ties(leq, x, Sort(leq, s)) == Ties(leq, x, s)
  {
    if s != [] {
      SortStable(leq, x, s[1..]);
      var r := Sort(leq, s[1..]);
      InsertTies(leq, x, s[0], r);
      assert ([s[0]] + r)[1..] == r;
    }
  }

  /** The head of a sorted sequence is below everything in it. */
  lemma HeadLeast<T(!new)>(leq: (T, T) -> bool, s: seq<T>, x: T)
    requires TotalPreorder(leq) && SortedBy(leq, s) && x in s
    ensures leq(s[0], x)
  {
    assert leq(x, x);
  }

  ghost predicate NoTies<T>(leq: (T, T) -> bool, s: seq<T>) {
    forall i, j :: 0 <= i < |s| && 0 <= j < |s| && leq(s[i], s[j]) && leq(s[j], s[i]) ==> s[i] == s[j]
  }

  lemma HeadsAgree<T(!new)>(leq: (T, T) -> bool, s: seq<T>, t: seq<T>)
    requires TotalPreorder(leq)
    requires SortedBy(leq, s) && SortedBy(leq, t) && NoTies(leq, s)
    requires s != [] && t != [] && s[0] in t && t[0] in s
    ensures s[0] == t[0]
  {
    HeadLeast(leq, s, t[0]);
    HeadLeast(leq, t, s[0]);
  }

  lemma TailSorted<T>(leq: (T, T) -> bool, s: seq<T>)
    requires s != [] && SortedBy(leq, s)
    ensures SortedBy(leq, s[1..])
  {
  }

  lemma TailNoTies<T>(leq: (T, T) -> bool, s: seq<T>)
    requires s != [] && NoTies(leq, s)
    ensures NoTies(leq, s[1..])
  {
  }

  lemma MultisetTail<T>(s: seq<T>)
    requires s != []
    ensures multiset(s[1..]) == multiset(s) - multiset{s[0]}
  {
    assert s == [s[0]] + s[1..];
  }

  /** Two sorted arrangements of the same elements agree when only equal elements tie. */
  lemma {:induction false} SortedUnique<T(!new)>(leq: (T, T) -> bool, s: seq<T>, t: seq<T>)
    requires TotalPreorder(leq)
    requires SortedBy(leq, s) && SortedBy(leq, t) && NoTies(leq, s)
    requires multiset(s) == multiset(t)
    ensures s == t
  {
    hide TotalPreorder, SortedBy, NoTies;
    assert |s| == |multiset(s)| == |multiset(t)| == |t|;
    if s != [] {
      assert t[0] in s && s[0] in t by { assert t[0] in multiset(t) && s[0] in multiset(s); }
      HeadsAgree(leq, s, t);
      TailSorted(leq, s);
      TailSorted(leq, t);
      TailNoTies(leq, s);
      MultisetTail(s);
      MultisetTail(t);
      SortedUnique(leq, s[1..], t[1..]);
      assert s == [s[0]] + s[1..] && t == [t[0]] + t[1..];
    }
  }

  /** Sorting what is already in order changes nothing. */
  lemma SortFixed<T(!new)>(leq: (T, T) -> bool, s: seq<T>)
    requires TotalPreorder(leq) && SortedBy(leq, s) && NoTies(leq, s)
    ensures Sort(leq, s) == s
  {
    SortCorrect(leq, s);
    SortedUnique(leq, s, Sort(leq, s));
  }

  predicate IntLeq(a: int, b: int) {
    a <= b
  }

  ghost predicate Increasing(keys: seq<int>) {
    forall i, j :: 0 <= i < j < |keys| ==> keys[i] < keys[j]
  }

  lemma SortIncreasing(s: seq<int>)
    requires Increasing(s)
    ensures Sort(IntLeq, s) == s
  {
    SortFixed(IntLeq, s);
  }
}
