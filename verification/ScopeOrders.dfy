/** Unknown scopes taken as harmless: exactly when the order of the scopes, or the order of the
    two lists, decides the verdict. */
module ScopeOrders {
  import opened Scopes
  import opened Wrappers

  ghost predicate Rearranged(a: seq<string>, b: seq<string>) {
    multiset(a) == multiset(b)
  }

  lemma RearrangedFacts(a: seq<string>, b: seq<string>)
    requires Rearranged(a, b)
    ensures |a| == |b| && (forall s :: s in a <==> s in b) && (Known(a) <==> Known(b))
  {
    assert |multiset(a)| == |a| && |multiset(b)| == |b|;
    assert forall s :: s in a <==> s in multiset(a);
    assert forall s :: s in b <==> s in multiset(b);
    KnownMembers(a);
    KnownMembers(b);
  }

  lemma KnownMembers(scopes: seq<string>)
    ensures Known(scopes) <==> forall s :: s in scopes ==> ScopePrefix(s).Some?
  {
    hide ScopePrefix;
    if forall s :: s in scopes ==> ScopePrefix(s).Some? {
      assert forall k :: 0 <= k < |scopes| ==> scopes[k] in scopes;
    }
  }

  /** Both scopes have a prefix, and the prefixes overlap. */
  predicate KnownOverlap(l: string, r: string) {
    ScopePrefix(l).Some? && ScopePrefix(r).Some? && Overlap(ScopePrefix(l).value, ScopePrefix(r).value)
  }

  ghost predicate SomeOverlap(left: seq<string>, right: seq<string>) {
    exists l, r :: l in left && r in right && KnownOverlap(l, r)
  }

  ghost predicate AllKnown(left: seq<string>, right: seq<string>) {
    Known(left) && Known(right)
  }

  // ------------------------------------------------- reading the first pair

  /** The first pair decides when one of its scopes is unknown or its prefixes overlap. */
  lemma FirstPair(left: seq<string>, right: seq<string>)
    requires left != [] && right != []
    ensures KnownOverlap(left[0], right[0]) ==> Conflict(left, right, false)
    ensures ScopePrefix(left[0]).None? || ScopePrefix(right[0]).None? ==> !Conflict(left, right, false)
  {
    hide ScopePrefix, Overlap;
  }

  /** If it does not decide, the second pair of the row does under the same conditions. */
  lemma SecondPair(left: seq<string>, right: seq<string>)
    requires left != [] && |right| >= 2 && ScopePrefix(left[0]).Some? && ScopePrefix(right[0]).Some?
    requires !KnownOverlap(left[0], right[0])
    ensures KnownOverlap(left[0], right[1]) ==> Conflict(left, right, false)
    ensures ScopePrefix(right[1]).None? ==> !Conflict(left, right, false)
  {
    hide ScopePrefix, Overlap;
    assert right[1..][0] == right[1];
    assert ScanRow(ScopePrefix(left[0]), right, false) == ScanRow(ScopePrefix(left[0]), right[1..], false);
  }

  /** A conflict shows an overlapping pair in the lists. */
  lemma ConflictHasOverlap(left: seq<string>, right: seq<string>)
    requires Conflict(left, right, false)
    ensures SomeOverlap(left, right)
  {
    hide ScopePrefix, Overlap, Conflict;
    ConflictIgnoringUnknown(left, right);
    var i: nat :| ScanHit(left, right, i);
    var j: nat :| RowHit(ScopePrefix(left[i]).value, right, j);
    assert right[..j+1][j] == right[j];
    assert left[i] in left && right[j] in right && KnownOverlap(left[i], right[j]);
  }

  /** Without unknown scopes the verdict is whether some pair overlaps. */
  lemma KnownVerdict(left: seq<string>, right: seq<string>)
    requires left != [] && right != [] && AllKnown(left, right)
    ensures Conflict(left, right, false) <==> SomeOverlap(left, right)
  {
    hide ScopePrefix, Overlap, Conflict;
    if SomeOverlap(left, right) {
      var l, r :| l in left && r in right && KnownOverlap(l, r);
      var i :| 0 <= i < |left| && left[i] == l;
      var j :| 0 <= j < |right| && right[j] == r;
      assert RowHit(ScopePrefix(l).value, right, j);
      assert ScanHit(left, right, i);
      ConflictIgnoringUnknown(left, right);
    }
    if Conflict(left, right, false) {
      ConflictHasOverlap(left, right);
    }
  }

  // ------------------------------------------------------- rearrangements

  /** The element at i moved to the front. */
  function ToFront(s: seq<string>, i: nat): (r: seq<string>)
    requires i < |s|
    ensures |r| == |s| && r[0] == s[i]
  {
    [s[i]] + s[..i] + s[i+1..]
  }

  lemma ToFrontRearranges(s: seq<string>, i: nat)
    requires i < |s|
    ensures Rearranged(ToFront(s, i), s)
  {
    assert s == s[..i] + [s[i]] + s[i+1..];
  }

  /** An arrangement that begins with x. */
  lemma Beginning(s: seq<string>, x: string) returns (r: seq<string>)
    requires x in s
    ensures Rearranged(r, s) && r != [] && r[0] == x
  {
    var i :| 0 <= i < |s| && s[i] == x;
    ToFrontRearranges(s, i);
    r := ToFront(s, i);
  }

  /** An arrangement that begins with two different elements x and y. */
  lemma BeginningWithTwo(s: seq<string>, x: string, y: string) returns (r: seq<string>)
    requires x in s && y in s && x != y
    ensures Rearranged(r, s) && |r| >= 2 && r[0] == x && r[1] == y
  {
    var first := Beginning(s, x);
    RearrangedFacts(first, s);
    assert first == [first[0]] + first[1..];
    var rest := Beginning(first[1..], y);
    r := [x] + rest;
    assert multiset(r) == multiset{x} + multiset(first[1..]) == multiset(first);
    RearrangedFacts(r, s);
  }

  ghost predicate CanConflict(left: seq<string>, right: seq<string>) {
    exists l, r :: Rearranged(l, left) && Rearranged(r, right) && Conflict(l, r, false)
  }

  ghost predicate CanPass(left: seq<string>, right: seq<string>) {
    exists l, r :: Rearranged(l, left) && Rearranged(r, right) && !Conflict(l, r, false)
  }

  /** Some arrangement of the scopes conflicts if and only if some pair overlaps. */
  lemma CanConflictIff(left: seq<string>, right: seq<string>)
    ensures CanConflict(left, right) <==> SomeOverlap(left, right)
  {
    hide ScopePrefix, Overlap, Conflict;
    if CanConflict(left, right) {
      var l, r :| Rearranged(l, left) && Rearranged(r, right) && Conflict(l, r, false);
      ConflictHasOverlap(l, r);
      RearrangedFacts(l, left);
      RearrangedFacts(r, right);
    }
    if SomeOverlap(left, right) {
      var x, y :| x in left && y in right && KnownOverlap(x, y);
      var l := Beginning(left, x);
      var r := Beginning(right, y);
      FirstPair(l, r);
    }
  }

  /** Some arrangement passes if and only if no pair overlaps or some scope is unknown. */
  lemma CanPassIff(left: seq<string>, right: seq<string>)
    requires left != [] && right != []
    ensures CanPass(left, right) <==> !SomeOverlap(left, right) || !AllKnown(left, right)
  {
    hide ScopePrefix, Overlap, Conflict;
    if CanPass(left, right) && AllKnown(left, right) {
      var l, r :| Rearranged(l, left) && Rearranged(r, right) && !Conflict(l, r, false);
      RearrangedFacts(l, left);
      RearrangedFacts(r, right);
      KnownVerdict(l, r);
    }
    if !SomeOverlap(left, right) {
      if Conflict(left, right, false) {
        ConflictHasOverlap(left, right);
      }
      assert Rearranged(left, left) && Rearranged(right, right);
    } else if !AllKnown(left, right) {
      UnknownFirst(left, right);
    }
  }

  lemma UnknownFirst(left: seq<string>, right: seq<string>)
    requires left != [] && right != [] && !AllKnown(left, right)
    ensures CanPass(left, right)
  {
    hide ScopePrefix, Overlap, Conflict;
    var l, r := left, right;
    if !Known(left) {
      var i :| 0 <= i < |left| && ScopePrefix(left[i]).None?;
      l := Beginning(left, left[i]);
    } else {
      var i :| 0 <= i < |right| && ScopePrefix(right[i]).None?;
      r := Beginning(right, right[i]);
    }
    FirstPair(l, r);
  }

  /** Rearranging non-empty lists can change the verdict if and only if some pair of known
      prefixes overlaps and some scope is unknown. */
  lemma OrderMatters(left: seq<string>, right: seq<string>)
    requires left != [] && right != []
    ensures CanConflict(left, right) && CanPass(left, right) <==> SomeOverlap(left, right) && !AllKnown(left, right)
  {
    hide CanConflict, CanPass, SomeOverlap, AllKnown;
    CanConflictIff(left, right);
    CanPassIff(left, right);
  }

  // ------------------------------------------------------------- symmetry

  /** Known scopes of which the second, but not the first, overlaps x. */
  predicate Divides(x: string, first: string, second: string) {
    ScopePrefix(x).Some? && ScopePrefix(first).Some? && !KnownOverlap(first, x) && KnownOverlap(second, x)
  }

  ghost predicate Divided(left: seq<string>, right: seq<string>) {
    exists r, l, l' :: r in right && l in left && l' in left && Divides(r, l, l')
  }

  /** Some arrangement gives another verdict when the two lists change places. */
  ghost predicate CanDiffer(left: seq<string>, right: seq<string>) {
    exists l, r :: Rearranged(l, left) && Rearranged(r, right) && Conflict(l, r, false) != Conflict(r, l, false)
  }

  /** One list has an unknown scope and a known one that overlaps some, but not all, of the
      known scopes of the other list. */
  ghost predicate Lopsided(left: seq<string>, right: seq<string>) {
    (!Known(right) && Divided(left, right)) || (!Known(left) && Divided(right, left))
  }

  lemma OverlapSymmetric(l: string, r: string)
    ensures KnownOverlap(l, r) == KnownOverlap(r, l)
  {
  }

  /** The row-wise scan passes and the column-wise scan conflicts. */
  lemma DividedDiffers(left: seq<string>, right: seq<string>)
    requires !Known(right) && Divided(left, right)
    ensures CanDiffer(left, right)
  {
    hide ScopePrefix, Overlap, Conflict, KnownOverlap;
    var x, first, second :| x in right && first in left && second in left && Divides(x, first, second);
    var i :| 0 <= i < |right| && ScopePrefix(right[i]).None?;
    var l := BeginningWithTwo(left, first, second);
    var r := BeginningWithTwo(right, x, right[i]);
    OverlapSymmetric(first, x);
    OverlapSymmetric(second, x);
    SecondPair(l, r);
    SecondPair(r, l);
  }

  lemma DifferSymmetric(left: seq<string>, right: seq<string>)
    ensures CanDiffer(left, right) == CanDiffer(right, left)
  {
    hide Conflict, Rearranged;
  }

  /** A column-wise conflict that the row-wise scan misses. */
  lemma MissedConflict(left: seq<string>, right: seq<string>)
    requires Conflict(right, left, false) && !Conflict(left, right, false)
    ensures !Known(right) && Divided(left, right)
  {
    hide ScopePrefix, Overlap, Conflict;
    ConflictIgnoringUnknown(right, left);
    ConflictIgnoringUnknown(left, right);
    var i: nat :| ScanHit(right, left, i);
    var x := right[i];
    var j: nat :| RowHit(ScopePrefix(x).value, left, j);
    assert left[..j+1][j] == left[j] && left[..j+1][0] == left[0];
    OverlapSymmetric(left[j], x);
    MissedBy(left, right, i, j);
    assert Divides(x, left[0], left[j]);
    assert x in right && left[0] in left && left[j] in left;
  }

  lemma MissedBy(left: seq<string>, right: seq<string>, i: nat, j: nat)
    requires ScanHit(right, left, i) && RowHit(ScopePrefix(right[i]).value, left, j) && !ScanDecides(left, right)
    ensures !Known(right) && !KnownOverlap(left[0], right[i])
  {
    hide ScopePrefix, Overlap;
    var x := right[i];
    assert ScopePrefix(left[0]).Some? && ScopePrefix(left[j]).Some? by {
      assert left[..j+1][0] == left[0] && left[..j+1][j] == left[j];
    }
    assert Known(right[..i+1]) by {
      assert forall k :: 0 <= k < i ==> right[..i][k] == right[..i+1][k];
    }
    assert Known(left[..j+1]);
    OverlapSymmetric(left[j], x);
    hide ScanDecides, RowHit, ScanHit;
    if KnownOverlap(left[0], x) {
      SeenInRow(left, right, 0, i);
    }
    if Known(right) {
      assert Known(left[..j]) by {
        KnownPrefix(left, j);
      }
      SeenInRow(left, right, j, i);
    }
  }

  lemma KnownPrefix(scopes: seq<string>, j: nat)
    requires j < |scopes| && Known(scopes[..j+1])
    ensures Known(scopes[..j])
  {
    hide ScopePrefix;
    assert forall k :: 0 <= k < j ==> scopes[..j][k] == scopes[..j+1][k];
  }

  /** An overlap that the scan reaches decides it. */
  lemma SeenInRow(left: seq<string>, right: seq<string>, i: nat, j: nat)
    requires i < |left| && j < |right| && Known(left[..i]) && Known(right[..j+1]) && (i > 0 ==> Known(right))
    requires KnownOverlap(left[i], right[j])
    ensures ScanDecides(left, right)
  {
    hide ScopePrefix, Overlap;
    assert RowHit(ScopePrefix(left[i]).value, right, j);
    assert ScanHit(left, right, i);
  }

  lemma LopsidedSame(a: seq<string>, b: seq<string>, c: seq<string>, d: seq<string>)
    requires Rearranged(a, c) && Rearranged(b, d)
    ensures Lopsided(a, b) == Lopsided(c, d)
  {
    hide Divides, Known;
    RearrangedFacts(a, c);
    RearrangedFacts(b, d);
  }

  /** With unknown scopes harmless, exchanging the two lists can change the verdict for some
      arrangement of them if and only if one list has an unknown scope and a known one that
      overlaps some but not all of the other's known scopes. */
  lemma SidesMatter(left: seq<string>, right: seq<string>)
    ensures CanDiffer(left, right) <==> Lopsided(left, right)
  {
    hide Conflict, Known, Divided;
    if CanDiffer(left, right) {
      var l, r :| Rearranged(l, left) && Rearranged(r, right) && Conflict(l, r, false) != Conflict(r, l, false);
      if Conflict(r, l, false) {
        MissedConflict(l, r);
      } else {
        MissedConflict(r, l);
      }
      LopsidedSame(l, r, left, right);
    }
    if !Known(right) && Divided(left, right) {
      DividedDiffers(left, right);
    } else if !Known(left) && Divided(right, left) {
      DividedDiffers(right, left);
      DifferSymmetric(left, right);
    }
  }
}
