/** Scopes as patterns of paths: where a wildcard begins a segment, common paths are conflicts;
    elsewhere they can be missed. */
module ScopePaths {
  import opened Scopes
  import opened Wrappers

  // ------------------------------------------------- what a prefix is

  predicate Slash(c: char) {
    c == '/' || c == '\\'
  }

  /** plain is text with every back-slash turned into a slash. */
  ghost predicate Slashed(text: string, plain: string) {
    |plain| == |text| && forall i :: 0 <= i < |text| ==> plain[i] == if text[i] == '\\' then '/' else text[i]
  }

  /** plain is the scope with slashes only, and without one dot and slash in front. */
  ghost predicate Bare(scope: string, plain: string) {
    if |scope| >= 2 && scope[0] == '.' && Slash(scope[1]) then Slashed(scope[2..], plain) else Slashed(scope, plain)
  }

  /** p is what stands in front of the first ? or * or [ of plain, or all of it without one,
      and without one slash at the end. */
  ghost predicate CutFrom(plain: string, p: string) {
    exists n: nat :: BeforeWildcard(plain, n) && Trimmed(plain[..n], p)
  }

  ghost predicate BeforeWildcard(plain: string, n: nat) {
    n <= |plain| && (forall i :: 0 <= i < n ==> plain[i] !in "?*[") && (n < |plain| ==> plain[n] in "?*[")
  }

  ghost predicate Trimmed(literal: string, p: string) {
    literal == p + "/" || (literal == p && (p == "" || p[|p|-1] != '/'))
  }

  lemma NormalizeIsBare(scope: string)
    ensures forall plain :: Bare(scope, plain) <==> plain == Normalize(scope)
  {
    forall plain ensures Bare(scope, plain) <==> plain == Normalize(scope) {
      var slashed := ForwardSlashes(scope);
      assert "./" <= slashed <==> |scope| >= 2 && scope[0] == '.' && Slash(scope[1]) by {
        if |scope| >= 2 {
          assert slashed[..2] == [slashed[0], slashed[1]];
        }
      }
    }
  }

  lemma WildcardIsFirst(plain: string, n: nat)
    ensures BeforeWildcard(plain, n) <==> n == WildcardAt(plain)
  {
    var w := WildcardAt(plain);
    if n < |plain| && BeforeWildcard(plain, n) {
      assert Wildcard(plain[n]);
    }
    if w < |plain| {
      assert Wildcard(plain[w]);
    }
  }

  lemma TrimmedOnce(literal: string, p: string)
    ensures Trimmed(literal, p) <==>
              p == if literal != "" && literal[|literal|-1] == '/' then literal[..|literal|-1] else literal
  {
    if literal != "" && literal[|literal|-1] == '/' {
      assert literal == literal[..|literal|-1] + "/";
    }
  }

  lemma CutIsUnique(plain: string, p: string)
    ensures CutFrom(plain, p) <==>
              var literal := plain[..WildcardAt(plain)];
              p == if literal != "" && literal[|literal|-1] == '/' then literal[..|literal|-1] else literal
  {
    hide BeforeWildcard, Trimmed;
    forall n: nat ensures BeforeWildcard(plain, n) <==> n == WildcardAt(plain) {
      WildcardIsFirst(plain, n);
    }
    TrimmedOnce(plain[..WildcardAt(plain)], p);
  }

  /** A scope says nothing when it is empty, "*" or "**", but for its slashes and a leading dot;
      otherwise its prefix is its text up to the first wildcard, without a slash at the end. */
  lemma PrefixMeaning(scope: string, p: string)
    ensures ScopePrefix(scope) == None <==> Bare(scope, "") || Bare(scope, "*") || Bare(scope, "**")
    ensures ScopePrefix(scope) == Some(p) <==>
              ScopePrefix(scope) != None && exists plain :: Bare(scope, plain) && CutFrom(plain, p)
  {
    hide Normalize, Bare, CutFrom, WildcardAt;
    NormalizeIsBare(scope);
    CutIsUnique(Normalize(scope), p);
  }

  // ------------------------------------------------ patterns and conflicts

  predicate HasWildcard(scope: string) {
    WildcardAt(Normalize(scope)) < |Normalize(scope)|
  }

  /** The paths a scope can match at most: any at all when it says nothing, those that begin
      with the literal part of a pattern, and a plain path with all that lies below it. */
  predicate MayMatch(scope: string, path: string) {
    match ScopePrefix(scope)
    case None => true
    case Some(prefix) => if HasWildcard(scope) then Literal(scope) <= path else Under(path, prefix)
  }

  /** The first wildcard, if any, begins a segment. */
  predicate WildcardBeginsSegment(scope: string) {
    ScopePrefix(scope).Some? && HasWildcard(scope) ==> Literal(scope) != "" && Literal(scope)[|Literal(scope)|-1] == '/'
  }

  /** A known scope matches only paths under its prefix if and only if its first wildcard, if
      any, begins a segment. */
  lemma MatchesAreUnderPrefix(scope: string)
    requires ScopePrefix(scope).Some?
    ensures WildcardBeginsSegment(scope) <==>
              forall path :: MayMatch(scope, path) ==> Under(path, ScopePrefix(scope).value)
  {
    hide Normalize, WildcardAt;
    var literal, prefix := Literal(scope), ScopePrefix(scope).value;
    if WildcardBeginsSegment(scope) {
      forall path | MayMatch(scope, path) ensures Under(path, prefix) {
        if HasWildcard(scope) {
          assert prefix + "/" == literal;
        }
      }
    } else {
      var path := literal + "x";
      assert prefix == literal && MayMatch(scope, path);
      assert |path| > |prefix| && path[|prefix|] == 'x';
      assert !Under(path, prefix);
    }
  }

  /** Where every wildcard begins a segment, two lists of scopes that can match a common path
      are reported as conflicting. */
  lemma CommonPathsConflict(left: seq<string>, right: seq<string>, l: string, r: string, path: string)
    requires l in left && r in right && MayMatch(l, path) && MayMatch(r, path)
    requires WildcardBeginsSegment(l) && WildcardBeginsSegment(r)
    ensures Conflict(left, right, true)
  {
    hide Conflict, ScopePrefix, MayMatch, WildcardBeginsSegment, Overlap, Under;
    if ScopePrefix(l).Some? && ScopePrefix(r).Some? {
      MatchesAreUnderPrefix(l);
      MatchesAreUnderPrefix(r);
      OverlapIffCommonPath(ScopePrefix(l).value, ScopePrefix(r).value);
    }
    assert PairClash(l, r);
    ConflictMeaning(left, right);
  }

  /** The plain scope of a path, written so that it always is one. */
  function PlainScope(path: string): string {
    "./" + path
  }

  lemma PlainScopePrefix(path: string)
    requires path != "" && path[|path|-1] != '/'
    requires forall i :: 0 <= i < |path| ==> path[i] != '\\' && !Wildcard(path[i])
    ensures ScopePrefix(PlainScope(path)) == Some(path) && !HasWildcard(PlainScope(path))
  {
    var scope := PlainScope(path);
    assert ForwardSlashes(scope) == scope;
    assert Normalize(scope) == path;
    assert WildcardAt(path) == |path| && path[..|path|] == path;
    assert !Wildcard(path[0]);
  }

  /** The literal part of a scope holds neither back-slashes nor wildcards. */
  lemma LiteralIsPlain(scope: string)
    ensures forall i :: 0 <= i < |Literal(scope)| ==> Literal(scope)[i] != '\\' && !Wildcard(Literal(scope)[i])
  {
    var slashed, normalized := ForwardSlashes(scope), Normalize(scope);
    assert forall i :: 0 <= i < |slashed| ==> slashed[i] != '\\';
    assert forall i :: 0 <= i < |normalized| ==> normalized[i] != '\\';
  }

  /** A scope whose first wildcard is inside a segment has a partner that it misses: the plain scope
      that continues its literal part. */
  lemma PartnerIsMissed(l: string)
    requires !WildcardBeginsSegment(l)
    ensures var path := Literal(l) + "x";
            && MayMatch(l, path) && MayMatch(PlainScope(path), path) && WildcardBeginsSegment(PlainScope(path))
            && !Conflict([l], [PlainScope(path)], true)
  {
    var literal, path := Literal(l), Literal(l) + "x";
    LiteralIsPlain(l);
    PlainScopePrefix(path);
    assert ScopePrefix(l) == Some(literal);
    hide ScopePrefix, Conflict, Literal, PlainScope, HasWildcard;
    assert literal <= path && |path| == |literal| + 1 && path[|literal|] == 'x';
    assert !Overlap(literal, path);
    ConflictMeaning([l], [PlainScope(path)]);
    assert [l][0] == l && !PairClash(l, PlainScope(path));
  }

  /** Exactly the scopes whose first wildcard begins a segment conflict with every such scope that
      can match one of their paths. */
  lemma CommonPathsConflictIff(l: string)
    ensures WildcardBeginsSegment(l) <==>
              forall r, path :: WildcardBeginsSegment(r) && MayMatch(l, path) && MayMatch(r, path) ==>
                Conflict([l], [r], true)
  {
    hide Conflict, MayMatch, WildcardBeginsSegment;
    if WildcardBeginsSegment(l) {
      forall r, path | WildcardBeginsSegment(r) && MayMatch(l, path) && MayMatch(r, path)
        ensures Conflict([l], [r], true)
      {
        CommonPathsConflict([l], [r], l, r, path);
      }
    } else {
      PartnerIsMissed(l);
    }
  }

  lemma {:induction false} WildcardFound(s: string, n: nat)
    requires n < |s| && Wildcard(s[n]) && forall i :: 0 <= i < n ==> !Wildcard(s[i])
    ensures WildcardAt(s) == n
  {
    if n == 0 {
    } else {
      WildcardFound(s[1..], n - 1);
    }
  }

  lemma PatternPrefix(scope: string, n: nat)
    requires n < |scope| && Wildcard(scope[n]) && forall i :: 0 <= i < n ==> !Wildcard(scope[i])
    requires scope[0] != '.' && scope != "*" && scope != "**" && forall i :: 0 <= i < |scope| ==> scope[i] != '\\'
    requires n > 0 ==> scope[n-1] != '/'
    ensures ScopePrefix(scope) == Some(scope[..n]) && Literal(scope) == scope[..n] && HasWildcard(scope)
  {
    assert ForwardSlashes(scope) == scope;
    assert !("./" <= scope);
    WildcardFound(scope, n);
  }

  /** A wildcard inside a segment: a pattern and a path it matches do not conflict. */
  lemma PartialSegmentIsMissed()
    ensures MayMatch("src/a*", "src/ab.ts") && !Conflict(["src/a*"], ["src/ab.ts"], true)
  {
    var scope := "src/a*";
    PatternPrefix(scope, 5);
    PlainPrefix("src/ab.ts");
    assert scope[..5] == "src/a" && "src/ab.ts"[5] == 'b' && "src/ab.ts"[..5] == "src/a";
    hide ScopePrefix, Conflict, Literal, HasWildcard;
    ConflictMeaning([scope], ["src/ab.ts"]);
  }

  lemma LeadingWildcardIsMissed()
    ensures MayMatch("*.ts", "a.ts") && !Conflict(["*.ts"], ["a.ts"], true)
  {
    PatternPrefix("*.ts", 0);
    PlainPrefix("a.ts");
    assert "a.ts"[0] == 'a';
    hide ScopePrefix, Conflict, Literal, HasWildcard;
    ConflictMeaning(["*.ts"], ["a.ts"]);
  }
}
