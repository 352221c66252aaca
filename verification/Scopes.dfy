/** Write scopes and the conservative test for overlap between two lists of them. */
module Scopes {
  import opened Wrappers

  function ForwardSlashes(s: string): string {
    seq(|s|, i requires 0 <= i < |s| => if s[i] == '\\' then '/' else s[i])
  }

  predicate Wildcard(c: char) {
    c == '?' || c == '*' || c == '['
  }

  /** Position of the first wildcard, or the length when there is none. */
  function WildcardAt(s: string): (n: nat)
    ensures n <= |s|
    ensures forall i :: 0 <= i < n ==> !Wildcard(s[i])
    ensures n < |s| ==> Wildcard(s[n])
  {
    if s == [] || Wildcard(s[0]) then 0 else 1 + WildcardAt(s[1..])
  }

  function Normalize(scope: string): string {
    var slashed := ForwardSlashes(scope);
    if "./" <= slashed then slashed[2..] else slashed
  }

  /** What stands in front of a scope's first wildcard. */
  function Literal(scope: string): string {
    var normalized := Normalize(scope);
    normalized[..WildcardAt(normalized)]
  }

  /** The literal path of a scope; None when the scope says nothing. */
  function ScopePrefix(scope: string): Option<string> {
    var normalized := Normalize(scope);
    if normalized == "" || normalized == "**" || normalized == "*" then None
    else
      var p := Literal(scope);
      Some(if p != "" && p[|p|-1] == '/' then p[..|p|-1] else p)
  }

  predicate Overlap(a: string, b: string) {
    a == b || b + "/" <= a || a + "/" <= b
  }

  /** path is prefix itself or lies below it. */
  predicate Under(path: string, prefix: string) {
    path == prefix || prefix + "/" <= path
  }

  /** The scan of all pairs, row by row: Some(verdict) at the first pair that decides. */
  function ScanRow(left: Option<string>, right: seq<string>, unknownConflicts: bool): Option<bool> {
    if right == [] then None
    else
      var r := ScopePrefix(right[0]);
      if left.None? || r.None? then Some(unknownConflicts)
      else if Overlap(left.value, r.value) then Some(true)
      else ScanRow(left, right[1..], unknownConflicts)
  }

  function Scan(left: seq<string>, right: seq<string>, unknownConflicts: bool): Option<bool> {
    if left == [] then None
    else
      var row := ScanRow(ScopePrefix(left[0]), right, unknownConflicts);
      if row.Some? then row else Scan(left[1..], right, unknownConflicts)
  }

  predicate Conflict(left: seq<string>, right: seq<string>, unknownConflicts: bool) {
    if left == [] || right == [] then unknownConflicts
    else Scan(left, right, unknownConflicts) == Some(true)
  }

  method WriteScopesConflict(left: seq<string>, right: seq<string>, unknownConflicts: bool) returns (r: bool)
    ensures r == Conflict(left, right, unknownConflicts)
  {
    if |left| == 0 || |right| == 0 {
      return unknownConflicts;
    }
    for i := 0 to |left|
      invariant Scan(left, right, unknownConflicts) == Scan(left[i..], right, unknownConflicts)
    {
      assert left[i..][0] == left[i] && left[i..][1..] == left[i+1..];
      for j := 0 to |right|
        invariant ScanRow(ScopePrefix(left[i]), right, unknownConflicts)
               == ScanRow(ScopePrefix(left[i]), right[j..], unknownConflicts)
      {
        assert right[j..][0] == right[j] && right[j..][1..] == right[j+1..];
        var leftPrefix := ScopePrefix(left[i]);
        var rightPrefix := ScopePrefix(right[j]);
        if leftPrefix.None? || rightPrefix.None? {
          return unknownConflicts;
        }
        if Overlap(leftPrefix.value, rightPrefix.value) {
          return true;
        }
      }
    }
    return false;
  }

  // ---------------------------------------------------------- main results

  /** Two prefixes overlap exactly when some path is, or lies below, both. */
  lemma OverlapIffCommonPath(a: string, b: string)
    ensures Overlap(a, b) <==> exists p :: Under(p, a) && Under(p, b)
  {
    if Overlap(a, b) {
      var p := if b + "/" <= a then a else b;
      assert Under(p, a) && Under(p, b);
    }
    if p :| Under(p, a) && Under(p, b) {
      if |a| < |b| {
        assert p[..|a|] == a && p[..|b|] == b && p[|a|] == '/';
        assert (a + "/") == b[..|a|+1];
      } else if |b| < |a| {
        assert p[..|a|] == a && p[..|b|] == b && p[|b|] == '/';
        assert (b + "/") == a[..|b|+1];
      } else {
        assert p[..|a|] == a && p[..|b|] == b;
      }
    }
  }

  /** One pair of scopes that must not run together: one of them is unrestricted, or their
      prefixes overlap. */
  predicate PairClash(l: string, r: string) {
    var a, b := ScopePrefix(l), ScopePrefix(r);
    a.None? || b.None? || Overlap(a.value, b.value)
  }

  lemma {:induction false} RowClash(l: string, right: seq<string>)
    ensures ScanRow(ScopePrefix(l), right, true) == Some(true) || ScanRow(ScopePrefix(l), right, true) == None
    ensures ScanRow(ScopePrefix(l), right, true).Some? <==> exists r :: r in right && PairClash(l, r)
  {
    if right == [] {
    } else {
      RowClash(l, right[1..]);
      assert forall r :: r in right <==> r == right[0] || r in right[1..];
      assert ScanRow(ScopePrefix(l), right, true)
          == if PairClash(l, right[0]) then Some(true) else ScanRow(ScopePrefix(l), right[1..], true);
    }
  }

  lemma {:induction false} ScanClash(left: seq<string>, right: seq<string>)
    ensures Scan(left, right, true) == Some(true) <==> exists l, r :: l in left && r in right && PairClash(l, r)
    ensures Scan(left, right, true) != Some(false)
  {
    hide PairClash, ScopePrefix, ScanRow;
    if left == [] {
    } else {
      RowClash(left[0], right);
      ScanClash(left[1..], right);
      assert left == [left[0]] + left[1..];
    }
  }

  /** With unknown scopes taken as conflicting, the verdict depends only on which pairs
      there are, not on their order. */
  lemma ConflictMeaning(left: seq<string>, right: seq<string>)
    ensures Conflict(left, right, true) <==>
            left == [] || right == [] || exists l, r :: l in left && r in right && PairClash(l, r)
  {
    ScanClash(left, right);
  }

  lemma PairClashSymmetric(l: string, r: string)
    ensures PairClash(l, r) == PairClash(r, l)
  {
  }

  lemma ConflictSymmetric(left: seq<string>, right: seq<string>)
    ensures Conflict(left, right, true) == Conflict(right, left, true)
  {
    hide Conflict, PairClash;
    ConflictMeaning(left, right);
    ConflictMeaning(right, left);
    forall l, r | l in left && r in right ensures PairClash(l, r) == PairClash(r, l) {
      PairClashSymmetric(l, r);
    }
  }

  /** On non-empty lists, adding scopes never removes a conflict. */
  lemma ConflictMonotone(left: seq<string>, right: seq<string>, left': seq<string>, right': seq<string>)
    requires left != [] && right != []
    requires forall l :: l in left ==> l in left'
    requires forall r :: r in right ==> r in right'
    requires Conflict(left, right, true)
    ensures Conflict(left', right', true)
  {
    ConflictMeaning(left, right);
    ConflictMeaning(left', right');
  }

  ghost predicate Known(scopes: seq<string>) {
    forall k :: 0 <= k < |scopes| ==> ScopePrefix(scopes[k]).Some?
  }

  lemma KnownCons(scopes: seq<string>)
    requires scopes != []
    ensures Known(scopes) <==> ScopePrefix(scopes[0]).Some? && Known(scopes[1..])
  {
    forall k | 1 <= k < |scopes| ensures scopes[k] == scopes[1..][k-1] {
    }
  }

  /** Position j decides the row of l: it overlaps, and nothing up to it is unknown. */
  ghost predicate RowHit(l: string, right: seq<string>, j: nat) {
    j < |right| && Known(right[..j+1]) && Overlap(l, ScopePrefix(right[j]).value)
  }

  lemma RowHitShift(l: string, right: seq<string>, j: nat)
    requires right != [] && ScopePrefix(right[0]).Some?
    ensures RowHit(l, right[1..], j) <==> RowHit(l, right, j + 1)
  {
    if j < |right[1..]| {
      KnownCons(right[..j+2]);
      assert right[..j+2][1..] == right[1..][..j+1];
    }
  }

  ghost predicate RowDecides(l: Option<string>, right: seq<string>) {
    l.Some? && exists j: nat :: RowHit(l.value, right, j)
  }

  lemma {:induction false} RowKnown(l: Option<string>, right: seq<string>)
    ensures ScanRow(l, right, false) == Some(true) <==> RowDecides(l, right)
    ensures right != [] && ScanRow(l, right, false) == None ==> l.Some? && Known(right)
    ensures ScanRow(l, right, false) == Some(false) ==> l.None? || !Known(right)
  {
    hide ScopePrefix, Overlap;
    if right == [] || l.None? {
    } else {
      if ScopePrefix(right[0]).None? {
        forall j: nat ensures !RowHit(l.value, right, j) {
          assert j < |right| ==> right[..j+1][0] == right[0];
        }
      } else if Overlap(l.value, ScopePrefix(right[0]).value) {
        assert RowHit(l.value, right, 0);
      } else {
        RowKnown(l, right[1..]);
        KnownCons(right);
        if j: nat :| RowHit(l.value, right, j) {
          assert j > 0 by { assert right[..0+1] == [right[0]]; }
          RowHitShift(l.value, right, j - 1);
        }
        if j: nat :| RowHit(l.value, right[1..], j) {
          RowHitShift(l.value, right, j);
        }
      }
    }
  }

  /** Row i decides the scan: it has a deciding position, and no earlier row stops it. */
  ghost predicate ScanHit(left: seq<string>, right: seq<string>, i: nat) {
    i < |left| && RowDecides(ScopePrefix(left[i]), right) && Known(left[..i]) && (i > 0 ==> Known(right))
  }

  lemma ScanHitShift(left: seq<string>, right: seq<string>, i: nat)
    requires left != []
    ensures ScanHit(left, right, i + 1) <==> ScopePrefix(left[0]).Some? && Known(right) && ScanHit(left[1..], right, i)
  {
    if i < |left[1..]| {
      KnownCons(left[..i+1]);
      assert left[..i+1][1..] == left[1..][..i];
    }
  }

  ghost predicate ScanDecides(left: seq<string>, right: seq<string>) {
    exists i: nat :: ScanHit(left, right, i)
  }

  lemma ScanDecidesCons(left: seq<string>, right: seq<string>)
    requires left != []
    ensures ScanDecides(left, right) <==>
            RowDecides(ScopePrefix(left[0]), right)
            || (ScopePrefix(left[0]).Some? && Known(right) && ScanDecides(left[1..], right))
  {
    if i: nat :| ScanHit(left, right, i) {
      if i > 0 {
        ScanHitShift(left, right, i - 1);
      }
    }
    if RowDecides(ScopePrefix(left[0]), right) {
      assert ScanHit(left, right, 0);
    } else if i: nat :| ScanHit(left[1..], right, i) {
      ScanHitShift(left, right, i);
    }
  }

  lemma {:induction false} ScanKnown(left: seq<string>, right: seq<string>)
    requires right != []
    ensures Scan(left, right, false) == Some(true) <==> ScanDecides(left, right)
  {
    if left == [] {
      assert forall i: nat :: !ScanHit(left, right, i);
    } else {
      var l, rest := ScopePrefix(left[0]), left[1..];
      RowKnown(l, right);
      ScanKnown(rest, right);
      ScanDecidesCons(left, right);
      match ScanRow(l, right, false) {
        case Some(verdict) => assert Scan(left, right, false) == Some(verdict);
        case None => assert Scan(left, right, false) == Scan(rest, right, false);
      }
    }
  }

  /** With unknown scopes taken as harmless, the first pair with an unknown scope ends the
      scan: there is a conflict exactly when an overlap is met before it. */
  lemma ConflictIgnoringUnknown(left: seq<string>, right: seq<string>)
    ensures Conflict(left, right, false) <==> ScanDecides(left, right)
  {
    if right == [] {
      assert forall i: nat :: !ScanHit(left, right, i);
    } else {
      ScanKnown(left, right);
    }
  }

  /** So in that mode the order of the scopes changes the verdict. */
  lemma IgnoringUnknownDependsOnOrder()
    ensures Conflict(["src", "**"], ["src"], false)
    ensures !Conflict(["**", "src"], ["src"], false)
  {
    assert ForwardSlashes("**") == "**";
    assert ScopePrefix("**") == None;
    PlainPrefix("src");
    assert ["**", "src"][0] == "**";
    assert ScanRow(ScopePrefix("src"), ["src"], false) == Some(true);
  }

  /** A scope without separators at the ends and without wildcards is its own prefix. */
  lemma PlainPrefix(scope: string)
    requires scope != "" && scope[0] != '.' && scope[|scope|-1] != '/'
    requires forall i :: 0 <= i < |scope| ==> scope[i] != '\\' && !Wildcard(scope[i])
    ensures ScopePrefix(scope) == Some(scope)
  {
    assert ForwardSlashes(scope) == scope;
    assert WildcardAt(scope) == |scope|;
    assert !("./" <= scope);
    assert scope[..WildcardAt(scope)] == scope;
    assert !Wildcard(scope[0]);
  }
}
