/** Total orders, sorting and the order on strings shared by the other modules.

    JavaScript's sort and Rust's sort are library calls in the modelled program; here a
    sort is insertion sort, and the lemmas below say that any sorted permutation is the
    same sequence, so nothing depends on that choice. */
module Orders {

  ghost predicate Total<T(!new)>(leq: (T, T) -> bool) {
    && (forall a, b :: leq(a, b) || leq(b, a))
    && (forall a, b, c :: leq(a, b) && leq(b, c) ==> leq(a, c))
  }

  ghost predicate TotalOrder<T(!new)>(leq: (T, T) -> bool) {
    && Total(leq)
    && (forall a, b :: leq(a, b) && leq(b, a) ==> a == b)
  }

  ghost predicate Sorted<T>(s: seq<T>, leq: (T, T) -> bool) {
    forall i, j :: 0 <= i < j < |s| ==> leq(s[i], s[j])
  }

  ghost predicate NoDup<T>(s: seq<T>) {
    forall i, j :: 0 <= i < j < |s| ==> s[i] != s[j]
  }

  /** The elements of s that the order cannot tell apart are equal. */
  ghost predicate AntisymmetricOn<T>(s: seq<T>, leq: (T, T) -> bool) {
    forall a, b :: a in s && b in s && leq(a, b) && leq(b, a) ==> a == b
  }

  /** Puts x before the first element it does not follow. */
  function Insert<T>(x: T, s: seq<T>, leq: (T, T) -> bool): seq<T> {
    if s == [] then [x]
    else if leq(x, s[0]) then [x] + s
    else [s[0]] + Insert(x, s[1..], leq)
  }

  function Sort<T>(s: seq<T>, leq: (T, T) -> bool): seq<T> {
    if s == [] then [] else Insert(s[0], Sort(s[1..], leq), leq)
  }

  lemma {:induction false} InsertPermutes<T>(x: T, s: seq<T>, leq: (T, T) -> bool)
    ensures multiset(Insert(x, s, leq)) == multiset{x} + multiset(s)
  {
    if s == [] || leq(x, s[0]) {
    } else {
      InsertPermutes(x, s[1..], leq);
      assert s == [s[0]] + s[1..];
    }
  }

  lemma {:induction false} SortPermutes<T>(s: seq<T>, leq: (T, T) -> bool)
    ensures multiset(Sort(s, leq)) == multiset(s)
    ensures |Sort(s, leq)| == |s|
  {
    if s == [] {
    } else {
      SortPermutes(s[1..], leq);
      InsertPermutes(s[0], Sort(s[1..], leq), leq);
      assert s == [s[0]] + s[1..];
    }
    assert |multiset(Sort(s, leq))| == |multiset(s)|;
  }

  lemma {:induction false} InsertSorted<T(!new)>(x: T, s: seq<T>, leq: (T, T) -> bool)
    requires Total(leq) && Sorted(s, leq)
    ensures Sorted(Insert(x, s, leq), leq)
  {
    if s == [] {
    } else if leq(x, s[0]) {
      forall y | y in s ensures leq(x, y) {
        assert y == s[0] || leq(s[0], y);
      }
    } else {
      var rest := Insert(x, s[1..], leq);
      InsertSorted(x, s[1..], leq);
      InsertPermutes(x, s[1..], leq);
      forall y | y in rest ensures leq(s[0], y) {
        assert y in multiset(rest);
        assert y == x || y in s[1..];
      }
    }
  }

  lemma {:induction false} SortSorts<T(!new)>(s: seq<T>, leq: (T, T) -> bool)
    requires Total(leq)
    ensures Sorted(Sort(s, leq), leq)
  {
    if s == [] {
    } else {
      SortSorts(s[1..], leq);
      InsertSorted(s[0], Sort(s[1..], leq), leq);
    }
  }

  lemma SortMembers<T>(s: seq<T>, leq: (T, T) -> bool, x: T)
    ensures x in Sort(s, leq) <==> x in s
  {
    SortPermutes(s, leq);
    assert x in multiset(s) <==> x in multiset(Sort(s, leq));
  }

  lemma NoDupFromMultiset<T>(s: seq<T>, t: seq<T>)
    requires NoDup(s) && multiset(s) == multiset(t)
    ensures NoDup(t)
  {
    forall i, j | 0 <= i < j < |t| ensures t[i] != t[j] {
      if t[i] == t[j] {
        assert t == t[..i] + [t[i]] + t[i+1..j] + [t[j]] + t[j+1..];
        assert multiset(t)[t[i]] >= 2;
        NoDupCounts(s, t[i]);
        assert false;
      }
    }
  }

  lemma {:induction false} NoDupCounts<T>(s: seq<T>, x: T)
    requires NoDup(s)
    ensures multiset(s)[x] <= 1
  {
    if s == [] {
    } else {
      NoDupCounts(s[1..], x);
      assert s == [s[0]] + s[1..];
      assert s[0] !in s[1..];
    }
  }

  lemma SortedHead<T>(a: seq<T>, b: seq<T>, leq: (T, T) -> bool)
    requires Sorted(a, leq) && a != [] && multiset(a) == multiset(b) && b != []
    ensures b[0] in a
    ensures a[0] == b[0] || leq(a[0], b[0])
  {
    assert b[0] in multiset(b);
    var j :| 0 <= j < |a| && a[j] == b[0];
  }

  lemma SameTail<T>(a: seq<T>, b: seq<T>)
    requires a != [] && b != [] && a[0] == b[0] && multiset(a) == multiset(b)
    ensures multiset(a[1..]) == multiset(b[1..])
    ensures a == [a[0]] + a[1..] && b == [b[0]] + b[1..]
    ensures forall x :: x in a[1..] ==> x in a
  {
    assert a == [a[0]] + a[1..] && b == [b[0]] + b[1..];
    assert multiset(a[1..]) == multiset(a) - multiset{a[0]};
  }

  /** There is only one sorted arrangement of a multiset. */
  lemma {:induction false} SortedUnique<T>(a: seq<T>, b: seq<T>, leq: (T, T) -> bool)
    requires Sorted(a, leq) && Sorted(b, leq)
    requires multiset(a) == multiset(b)
    requires AntisymmetricOn(a, leq)
    ensures a == b
  {
    assert |multiset(a)| == |a| && |multiset(b)| == |b|;
    if a == [] {
    } else {
      SortedHead(a, b, leq);
      SortedHead(b, a, leq);
      assert a[0] == b[0];
      SameTail(a, b);
      SortedUnique(a[1..], b[1..], leq);
    }
  }

  /** The result of sorting does not depend on the order of the input. */
  lemma SortForgetsOrder<T(!new)>(a: seq<T>, b: seq<T>, leq: (T, T) -> bool)
    requires Total(leq) && AntisymmetricOn(a, leq)
    requires multiset(a) == multiset(b)
    ensures Sort(a, leq) == Sort(b, leq)
  {
    SortPermutes(a, leq);
    SortPermutes(b, leq);
    SortSorts(a, leq);
    SortSorts(b, leq);
    forall x | x in Sort(a, leq) ensures x in a {
      SortMembers(a, leq, x);
    }
    SortedUnique(Sort(a, leq), Sort(b, leq), leq);
  }

  lemma {:induction false} SortOfSorted<T>(s: seq<T>, leq: (T, T) -> bool)
    requires Sorted(s, leq)
    ensures Sort(s, leq) == s
  {
    if s == [] {
    } else {
      SortOfSorted(s[1..], leq);
      assert s == [s[0]] + s[1..];
    }
  }

  // ---------------------------------------------------------------- sets

  predicate IsLeast<T(==)>(m: T, s: set<T>, leq: (T, T) -> bool) {
    m in s && forall y :: y in s ==> leq(m, y)
  }

  lemma {:induction false} LeastExists<T(!new)>(s: set<T>, leq: (T, T) -> bool)
    requires TotalOrder(leq) && s != {}
    ensures exists m :: IsLeast(m, s, leq)
  {
    var z :| z in s;
    if s - {z} != {} {
      LeastExists(s - {z}, leq);
      var r :| IsLeast(r, s - {z}, leq);
      var m := if leq(z, r) then z else r;
      forall y | y in s ensures leq(m, y) {
        assert y == z || y in s - {z};
      }
      assert IsLeast(m, s, leq);
    } else {
      assert forall y :: y in s ==> y == z || y in s - {z};
      assert IsLeast(z, s, leq);
    }
  }

  function Least<T(!new, ==)>(s: set<T>, leq: (T, T) -> bool): (m: T)
    requires TotalOrder(leq) && s != {}
    ensures IsLeast(m, s, leq)
  {
    LeastExists(s, leq);
    assert exists w :: IsLeast(w, s, leq);
    var m :| m in s && IsLeast(m, s, leq);
    m
  }

  /** The elements of a finite set in ascending order. */
  function Ascending<T(!new, ==)>(s: set<T>, leq: (T, T) -> bool): (r: seq<T>)
    requires TotalOrder(leq)
    ensures forall x :: x in r <==> x in s
    ensures Sorted(r, leq) && NoDup(r) && |r| == |s|
  {
    if s == {} then [] else
      var m := Least(s, leq);
      [m] + Ascending(s - {m}, leq)
  }

  // ------------------------------------------------------------- strings

  /** Order of strings by their characters, first difference first. */
  predicate StringLeq(a: string, b: string) {
    a == [] || (b != [] && (a[0] < b[0] || (a[0] == b[0] && StringLeq(a[1..], b[1..]))))
  }

  /** That is: a is a prefix of b, or has the smaller character at the first difference. */
  lemma {:induction false} StringLeqMeaning(a: string, b: string)
    ensures StringLeq(a, b) <==>
              a <= b || exists k :: 0 <= k < |a| && k < |b| && a[..k] == b[..k] && a[k] < b[k]
  {
    if a == [] || b == [] {
    } else if a[0] != b[0] {
      forall k | 1 <= k < |a| && k < |b| ensures a[..k] != b[..k] {
        assert a[..k][0] != b[..k][0];
      }
    } else {
      StringLeqMeaning(a[1..], b[1..]);
      assert a == [a[0]] + a[1..] && b == [b[0]] + b[1..];
      if k :| 0 <= k < |a[1..]| && k < |b[1..]| && a[1..][..k] == b[1..][..k] && a[1..][k] < b[1..][k] {
        assert a[..k+1] == [a[0]] + a[1..][..k] == b[..k+1];
        assert a[k+1] < b[k+1];
      }
      if k :| 0 <= k < |a| && k < |b| && a[..k] == b[..k] && a[k] < b[k] {
        assert a[1..][..k-1] == a[..k][1..] == b[..k][1..] == b[1..][..k-1];
        assert a[1..][k-1] < b[1..][k-1];
      }
    }
  }

  lemma {:induction false} StringLeqTotal(a: string, b: string)
    ensures StringLeq(a, b) || StringLeq(b, a)
  {
    if a == [] || b == [] || a[0] != b[0] {
    } else {
      StringLeqTotal(a[1..], b[1..]);
    }
  }

  lemma {:induction false} StringLeqAntisymmetric(a: string, b: string)
    requires StringLeq(a, b) && StringLeq(b, a)
    ensures a == b
  {
    if a == [] || b == [] {
    } else {
      StringLeqAntisymmetric(a[1..], b[1..]);
      assert a == [a[0]] + a[1..] && b == [b[0]] + b[1..];
    }
  }

  lemma {:induction false} StringLeqTransitive(a: string, b: string, c: string)
    requires StringLeq(a, b) && StringLeq(b, c)
    ensures StringLeq(a, c)
  {
    if a == [] || !(a[0] == b[0] == c[0]) {
    } else {
      StringLeqTransitive(a[1..], b[1..], c[1..]);
    }
  }

  lemma StringOrder()
    ensures TotalOrder(StringLeq)
  {
    forall a, b ensures StringLeq(a, b) || StringLeq(b, a) { StringLeqTotal(a, b); }
    forall a, b | StringLeq(a, b) && StringLeq(b, a) ensures a == b { StringLeqAntisymmetric(a, b); }
    forall a, b, c | StringLeq(a, b) && StringLeq(b, c) ensures StringLeq(a, c) { StringLeqTransitive(a, b, c); }
  }

  /** The keys of a string-keyed table in ascending order. */
  function AscendingKeys(s: set<string>): (r: seq<string>)
    ensures forall x :: x in r <==> x in s
    ensures Sorted(r, StringLeq) && NoDup(r) && |r| == |s|
  {
    StringOrder();
    Ascending(s, StringLeq)
  }
}
