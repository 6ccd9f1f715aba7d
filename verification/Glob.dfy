// Shell-style patterns (`glob_match_inner`, indexer/src/doctor.rs) and what
// they keep out of the backup (`excluding_pattern`, indexer/src/adopt.rs).
module Glob {
  import opened Base

  /** `*` is any run of characters, `?` exactly one; the rest is literal. */
  predicate GlobMatch(p: string, t: string)
    decreases |p| + |t|
  {
    if p == [] then t == []
    else if p[0] == '*' then GlobMatch(p[1..], t) || (t != [] && GlobMatch(p, t[1..]))
    else if p[0] == '?' then t != [] && GlobMatch(p[1..], t[1..])
    else t != [] && t[0] == p[0] && GlobMatch(p[1..], t[1..])
  }

  // ---------------------------------------------------------------------
  // The language of a pattern, declaratively: the text is cut into one piece
  // for each pattern character, each piece being what that character stands for.

  predicate PieceFits(c: char, piece: string) {
    c == '*' || (|piece| == 1 && (c == '?' || piece[0] == c))
  }

  function Joined(pieces: seq<string>): string {
    if pieces == [] then [] else pieces[0] + Joined(pieces[1..])
  }

  ghost predicate Segmentation(p: string, t: string, pieces: seq<string>) {
    |pieces| == |p| && Joined(pieces) == t && forall i :: 0 <= i < |p| ==> PieceFits(p[i], pieces[i])
  }

  ghost predicate InLanguage(p: string, t: string) {
    exists pieces :: Segmentation(p, t, pieces)
  }

  lemma {:induction false} MatchCuts(p: string, t: string) returns (pieces: seq<string>)
    requires GlobMatch(p, t)
    ensures Segmentation(p, t, pieces)
    decreases |p| + |t|
  {
    if p == [] {
      pieces := [];
    } else if p[0] == '*' && !GlobMatch(p[1..], t) {
      var rest := MatchCuts(p, t[1..]);
      pieces := [[t[0]] + rest[0]] + rest[1..];
      assert t == [t[0]] + t[1..];
      assert Joined(pieces) == ([t[0]] + rest[0]) + Joined(rest[1..]) == [t[0]] + Joined(rest);
    } else {
      var first := if p[0] == '*' then [] else [t[0]];
      var rest := MatchCuts(p[1..], t[|first|..]);
      pieces := [first] + rest;
      assert t == first + t[|first|..];
    }
  }

  lemma {:induction false} StarSkips(p: string, a: string, t: string)
    requires p != [] && p[0] == '*' && GlobMatch(p[1..], t)
    ensures GlobMatch(p, a + t)
  {
    if a == [] {
      assert a + t == t;
    } else {
      StarSkips(p, a[1..], t);
      assert (a + t)[1..] == a[1..] + t;
    }
  }

  lemma {:induction false} CutsMatch(p: string, t: string, pieces: seq<string>)
    requires Segmentation(p, t, pieces)
    ensures GlobMatch(p, t)
  {
    if p != [] {
      var rest := Joined(pieces[1..]);
      CutsMatch(p[1..], rest, pieces[1..]);
      assert PieceFits(p[0], pieces[0]);
      if p[0] == '*' {
        StarSkips(p, pieces[0], rest);
      } else {
        assert t[1..] == rest;
      }
    }
  }

  /** The matcher accepts exactly the pattern's language. */
  lemma MatchIsLanguage(p: string, t: string)
    ensures GlobMatch(p, t) <==> InLanguage(p, t)
  {
    if GlobMatch(p, t) { var pieces := MatchCuts(p, t); }
    if InLanguage(p, t) {
      var pieces :| Segmentation(p, t, pieces);
      CutsMatch(p, t, pieces);
    }
  }

  lemma {:induction false} JoinedParts(a: seq<string>, b: seq<string>)
    ensures Joined(a + b) == Joined(a) + Joined(b)
  {
    if a == [] {
      assert a + b == b;
    } else {
      JoinedParts(a[1..], b);
      assert (a + b)[1..] == a[1..] + b;
    }
  }

  lemma PartsOfMatch(p: string, q: string, t: string) returns (k: nat)
    requires GlobMatch(p + q, t)
    ensures k <= |t| && GlobMatch(p, t[..k]) && GlobMatch(q, t[k..])
  {
    var pieces := MatchCuts(p + q, t);
    var a, b := pieces[..|p|], pieces[|p|..];
    assert a + b == pieces;
    JoinedParts(a, b);
    k := |Joined(a)|;
    assert t[..k] == Joined(a) && t[k..] == Joined(b);
    forall i | 0 <= i < |p| ensures PieceFits(p[i], a[i]) {
      assert (p + q)[i] == p[i] && pieces[i] == a[i];
    }
    forall i | 0 <= i < |q| ensures PieceFits(q[i], b[i]) {
      assert (p + q)[|p| + i] == q[i] && pieces[|p| + i] == b[i];
    }
    CutsMatch(p, t[..k], a);
    CutsMatch(q, t[k..], b);
  }

  lemma MatchOfParts(p: string, s: string, q: string, t: string)
    requires GlobMatch(p, s) && GlobMatch(q, t)
    ensures GlobMatch(p + q, s + t)
  {
    var a := MatchCuts(p, s);
    var b := MatchCuts(q, t);
    JoinedParts(a, b);
    CutsMatch(p + q, s + t, a + b);
  }

  /** Matching is compositional: a pattern written after another matches a
      text that splits between them, and nothing else. */
  lemma MatchConcatenation(p: string, q: string, t: string)
    ensures GlobMatch(p + q, t) <==>
            exists k :: 0 <= k <= |t| && GlobMatch(p, t[..k]) && GlobMatch(q, t[k..])
  {
    if GlobMatch(p + q, t) { var k := PartsOfMatch(p, q, t); }
    forall k | 0 <= k <= |t| && GlobMatch(p, t[..k]) && GlobMatch(q, t[k..]) ensures GlobMatch(p + q, t) {
      MatchOfParts(p, t[..k], q, t[k..]);
      assert t[..k] + t[k..] == t;
    }
  }

  // ---------------------------------------------------------------------
  // Exclusion.

  /** The entry name of a volume's top level. */
  const TOP_LEVEL := "."

  /** The one pattern that keeps the top level out. */
  const TOP_LEVEL_EXCLUDE := "/"

  /** Where the last `/` of `s` is, as Rust's `rfind`. */
  function LastSlash(s: string): (r: Option<nat>)
    ensures r.Some? ==> r.value < |s| && s[r.value] == '/' && forall i :: r.value < i < |s| ==> s[i] != '/'
    ensures r.None? ==> forall i :: 0 <= i < |s| ==> s[i] != '/'
  {
    if s == [] then None
    else if s[|s| - 1] == '/' then Some(|s| - 1)
    else LastSlash(s[..|s| - 1])
  }

  /** The path itself and each ancestor: `a/b/c`, `a/b`, `a`. */
  ghost predicate AtOrAbove(candidate: string, path: string) {
    candidate == path || exists i :: 0 <= i < |path| && path[i] == '/' && candidate == path[..i]
  }

  /** `pattern` matches the path or one of its ancestors. */
  ghost predicate KeepsOut(pattern: string, path: string) {
    exists c :: AtOrAbove(c, path) && GlobMatch(pattern, c)
  }

  /** What keeps `path` out, pattern by pattern. The top level is matched by
      name, never by a glob. */
  ghost predicate Excludes(pattern: string, path: string) {
    if path == TOP_LEVEL then pattern == TOP_LEVEL_EXCLUDE else KeepsOut(pattern, path)
  }

  /** The walk from a path to its ancestors. */
  method MatchesPathOrAncestor(pattern: string, path: string) returns (b: bool)
    ensures b <==> KeepsOut(pattern, path)
  {
    var candidate := path;
    while true
      invariant AtOrAbove(candidate, path)
      invariant candidate <= path
      invariant forall c :: AtOrAbove(c, path) && |c| > |candidate| ==> !GlobMatch(pattern, c)
      decreases |candidate|
    {
      if GlobMatch(pattern, candidate) { return true; }
      match LastSlash(candidate) {
        case Some(cut) =>
          forall c | AtOrAbove(c, path) && |c| > cut ensures !GlobMatch(pattern, c) {
            CandidatesAreCuts(path, candidate, c, cut);
          }
          assert candidate[..cut] == path[..cut];
          candidate := candidate[..cut];
        case None =>
          forall c | AtOrAbove(c, path) ensures !GlobMatch(pattern, c) {
            if |c| <= |candidate| { NoShorterCandidate(path, candidate, c); }
          }
          return false;
      }
    }
  }

  lemma CandidatesAreCuts(path: string, candidate: string, c: string, cut: nat)
    requires AtOrAbove(c, path) && candidate <= path && |c| > cut
    requires LastSlash(candidate) == Some(cut)
    ensures c == candidate || |c| > |candidate|
  {
    assert forall i :: 0 <= i < |candidate| ==> candidate[i] == path[i];
    if c != path && |c| <= |candidate| {
      assert c == path[..|c|] && path[|c|] == '/';
    }
  }

  lemma NoShorterCandidate(path: string, candidate: string, c: string)
    requires AtOrAbove(c, path) && candidate <= path && |c| <= |candidate|
    requires LastSlash(candidate).None?
    ensures c == candidate
  {
    assert forall i :: 0 <= i < |candidate| ==> candidate[i] == path[i];
    if c != path {
      assert c == path[..|c|] && path[|c|] == '/';
    }
  }

  /** The first pattern that excludes `path`, if any. */
  ghost function ExcludedBy(path: string, patterns: seq<string>): (r: Option<string>)
    ensures r.None? <==> forall i :: 0 <= i < |patterns| ==> !Excludes(patterns[i], path)
    ensures r.Some? ==> r.value in patterns && Excludes(r.value, path)
  {
    if patterns == [] then None
    else if Excludes(patterns[0], path) then Some(patterns[0])
    else ExcludedBy(path, patterns[1..])
  }

  method ExcludingPattern(path: string, patterns: seq<string>) returns (r: Option<string>)
    ensures r == ExcludedBy(path, patterns)
  {
    for i := 0 to |patterns|
      invariant ExcludedBy(path, patterns) == ExcludedBy(path, patterns[i..])
    {
      var hit: bool;
      if path == TOP_LEVEL {
        hit := patterns[i] == TOP_LEVEL_EXCLUDE;
      } else {
        hit := MatchesPathOrAncestor(patterns[i], path);
      }
      if hit { return Some(patterns[i]); }
    }
    return None;
  }

  /** `child` lies below `parent`. */
  predicate NestedUnder(child: string, parent: string) {
    parent <= child && |parent| < |child| && child[|parent|] == '/'
  }

  lemma AncestorsOfNested(c: string, parent: string, child: string)
    requires NestedUnder(child, parent) && AtOrAbove(c, parent)
    ensures AtOrAbove(c, child)
  {
    if c == parent {
      assert c == child[..|parent|];
    } else {
      var i :| 0 <= i < |parent| && parent[i] == '/' && c == parent[..i];
      assert child[i] == '/' && c == child[..i];
    }
  }

  ghost function IndexOfExcluder(path: string, patterns: seq<string>): (i: nat)
    requires ExcludedBy(path, patterns).Some?
    ensures i < |patterns| && patterns[i] == ExcludedBy(path, patterns).value && Excludes(patterns[i], path)
    ensures forall j :: 0 <= j < i ==> !Excludes(patterns[j], path)
  {
    if Excludes(patterns[0], path) then 0 else 1 + IndexOfExcluder(path, patterns[1..])
  }

  /** An excluded path excludes everything nested under it, by the same
      pattern or an earlier one. */
  lemma ExclusionIsInherited(child: string, parent: string, patterns: seq<string>)
    requires NestedUnder(child, parent) && parent != TOP_LEVEL
    requires ExcludedBy(parent, patterns).Some?
    ensures ExcludedBy(child, patterns).Some?
    ensures IndexOfExcluder(child, patterns) <= IndexOfExcluder(parent, patterns)
  {
    var i := IndexOfExcluder(parent, patterns);
    var c :| AtOrAbove(c, parent) && GlobMatch(patterns[i], c);
    AncestorsOfNested(c, parent, child);
    assert '/' in child && '/' !in TOP_LEVEL;
    assert Excludes(patterns[i], child);
  }

  lemma SlashMatchesOnlySlash(t: string)
    ensures GlobMatch(TOP_LEVEL_EXCLUDE, t) <==> t == TOP_LEVEL_EXCLUDE
  {
    assert TOP_LEVEL_EXCLUDE[1..] == [];
    if t != [] { assert t == [t[0]] + t[1..]; }
  }

  /** Whatever excludes `path` excludes everything below it, by the same
      pattern or an earlier one. */
  ghost predicate PassesDown(path: string) {
    forall child, patterns :: NestedUnder(child, path) && ExcludedBy(path, patterns).Some? ==>
      ExcludedBy(child, patterns).Some? && IndexOfExcluder(child, patterns) <= IndexOfExcluder(path, patterns)
  }

  /** Exclusion passes down from every path but the top level, and from that
      one it does not: `/` excludes it, and nothing spelled below it. */
  lemma ExclusionPassesDownExactly(path: string)
    ensures PassesDown(path) <==> path != TOP_LEVEL
  {
    if path == TOP_LEVEL {
      assert ExcludedBy("./x", [TOP_LEVEL_EXCLUDE]).None? by {
        forall c | AtOrAbove(c, "./x") ensures !GlobMatch(TOP_LEVEL_EXCLUDE, c) { SlashMatchesOnlySlash(c); }
      }
      assert NestedUnder("./x", TOP_LEVEL) && ExcludedBy(TOP_LEVEL, [TOP_LEVEL_EXCLUDE]).Some?;
    } else {
      forall child, patterns | NestedUnder(child, path) && ExcludedBy(path, patterns).Some?
        ensures ExcludedBy(child, patterns).Some?
        ensures IndexOfExcluder(child, patterns) <= IndexOfExcluder(path, patterns)
      {
        ExclusionIsInherited(child, path, patterns);
      }
    }
  }

  /** Only `/` keeps the top level out, and `/` keeps out nothing else that is
      a relative path. */
  lemma OnlySlashExcludesTopLevel(patterns: seq<string>)
    ensures ExcludedBy(TOP_LEVEL, patterns) ==
            if TOP_LEVEL_EXCLUDE in patterns then Some(TOP_LEVEL_EXCLUDE) else None
    ensures forall path: string :: path != TOP_LEVEL && !("/" <= path) ==> !Excludes(TOP_LEVEL_EXCLUDE, path)
  {
    if TOP_LEVEL_EXCLUDE in patterns {
      var i :| 0 <= i < |patterns| && patterns[i] == TOP_LEVEL_EXCLUDE;
      assert Excludes(patterns[i], TOP_LEVEL);
    }
    forall path: string | path != TOP_LEVEL && !("/" <= path) ensures !Excludes(TOP_LEVEL_EXCLUDE, path) {
      forall c | AtOrAbove(c, path) ensures !GlobMatch(TOP_LEVEL_EXCLUDE, c) {
        SlashMatchesOnlySlash(c);
        assert c <= path;
      }
    }
  }
}
