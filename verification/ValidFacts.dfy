// What a valid configuration is, in terms of its fields alone
// (`validate`, indexer/src/config.rs).
module ValidFacts {
  import opened Config
  import opened Glob
  import opened Names
  import opened Sync
  import opened SyncFacts
  import opened Validate

  // ---------------------------------------------------------------------
  // Two live entries that would write one series.

  ghost predicate LiveAt(sources: seq<Source>, i: nat, k: nat) {
    i < |sources| && k < |sources[i].subvolumes| && sources[i].subvolumes[k].retired.None?
  }

  /** Same volume, same snapshot directory, same resolved name. */
  ghost predicate Alike(sources: seq<Source>, i: nat, k: nat, j: nat, l: nat)
    requires LiveAt(sources, i, k) && LiveAt(sources, j, l)
  {
    sources[i].volume == sources[j].volume && sources[i].snapshotDir == sources[j].snapshotDir &&
    ResolvedName(sources[i].subvolumes, k) == ResolvedName(sources[j].subvolumes, l)
  }

  ghost predicate NoTwoAlike(sources: seq<Source>) {
    forall i: nat, k: nat, j: nat, l: nat ::
      LiveAt(sources, i, k) && LiveAt(sources, j, l) && (i != j || k != l) ==> !Alike(sources, i, k, j, l)
  }

  function KeyAt(sources: seq<Source>, i: nat, k: nat): SeriesKey
    requires i < |sources| && k < |sources[i].subvolumes|
  {
    SeriesKey(sources[i].volume, sources[i].snapshotDir, ResolvedName(sources[i].subvolumes, k))
  }

  ghost predicate HasKey(series: seq<Series>, key: SeriesKey) { exists m :: 0 <= m < |series| && series[m].key == key }

  lemma DistinctParts(a: seq<Series>, b: seq<Series>)
    ensures DistinctKeys(a + b) <==>
            DistinctKeys(a) && DistinctKeys(b) && forall x :: x in a ==> !HasKey(b, x.key)
    ensures forall key :: HasKey(a + b, key) <==> HasKey(a, key) || HasKey(b, key)
  {
    var all := a + b;
    if DistinctKeys(all) {
      assert forall i :: 0 <= i < |a| ==> all[i] == a[i];
      assert forall i :: 0 <= i < |b| ==> all[|a| + i] == b[i];
      forall x | x in a ensures !HasKey(b, x.key) {
        var i :| 0 <= i < |a| && a[i] == x;
        forall m | 0 <= m < |b| ensures b[m].key != x.key { assert all[|a| + m] == b[m]; }
      }
    }
    if DistinctKeys(a) && DistinctKeys(b) && forall x :: x in a ==> !HasKey(b, x.key) {
      forall i, j | 0 <= i < j < |all| ensures all[i].key != all[j].key {
        if i < |a| <= j { assert a[i] in a && all[j] == b[j - |a|]; }
      }
    }
    forall key ensures HasKey(all, key) <==> HasKey(a, key) || HasKey(b, key) {
      if HasKey(a, key) {
        var m :| 0 <= m < |a| && a[m].key == key;
        assert all[m].key == key;
      }
      if HasKey(b, key) {
        var m :| 0 <= m < |b| && b[m].key == key;
        assert all[|a| + m].key == key;
      }
    }
  }

  /** One source's series, from entry `n` on. */
  lemma {:induction false} SeriesOfSource(s: Source, n: nat)
    requires n <= |s.subvolumes|
    ensures var series := SeriesFrom(s, s.subvolumes[n..], Resolve(s.subvolumes)[n..]);
            (forall key :: HasKey(series, key) <==>
               exists k: nat :: n <= k && LiveAt([s], 0, k) && key == KeyAt([s], 0, k)) &&
            (DistinctKeys(series) <==>
             forall k: nat, l: nat :: n <= k < l && LiveAt([s], 0, k) && LiveAt([s], 0, l) ==>
               KeyAt([s], 0, k) != KeyAt([s], 0, l))
    decreases |s.subvolumes| - n
  {
    hide ResolvedName;
    var names := Resolve(s.subvolumes);
    if n < |s.subvolumes| {
      SeriesOfSource(s, n + 1);
      var rest := SeriesFrom(s, s.subvolumes[n + 1..], names[n + 1..]);
      assert s.subvolumes[n..][1..] == s.subvolumes[n + 1..] && names[n..][1..] == names[n + 1..];
      var first := if s.subvolumes[n].Live() then [Series(KeyAt([s], 0, n), s.subvolumes[n].name)] else [];
      assert SeriesFrom(s, s.subvolumes[n..], names[n..]) == first + rest;
      DistinctParts(first, rest);
      hide SeriesFrom, DistinctKeys;
      assert DistinctKeys(first) by { OneIsDistinct(first); }
      if s.subvolumes[n].Live() {
        assert LiveAt([s], 0, n);
        assert first[0] in first;
        assert HasKey(first, KeyAt([s], 0, n));
      }
    } else {
      assert s.subvolumes[n..] == [];
    }
  }

  lemma OneIsDistinct(series: seq<Series>)
    requires |series| <= 1
    ensures DistinctKeys(series)
  {
  }

  ghost predicate KeyIn(sources: seq<Source>, key: SeriesKey) {
    exists i: nat, k: nat :: LiveAt(sources, i, k) && key == KeyAt(sources, i, k)
  }

  ghost predicate KeysApart(sources: seq<Source>) {
    forall i: nat, k: nat, j: nat, l: nat ::
      LiveAt(sources, i, k) && LiveAt(sources, j, l) && (i != j || k != l) ==>
      KeyAt(sources, i, k) != KeyAt(sources, j, l)
  }

  lemma FirstSource(sources: seq<Source>)
    requires sources != []
    ensures forall k: nat :: LiveAt(sources, 0, k) <==> LiveAt([sources[0]], 0, k)
    ensures forall k: nat :: LiveAt(sources, 0, k) ==> KeyAt(sources, 0, k) == KeyAt([sources[0]], 0, k)
    ensures forall i: nat, k: nat :: LiveAt(sources[1..], i, k) <==> LiveAt(sources, i + 1, k)
    ensures forall i: nat, k: nat :: LiveAt(sources[1..], i, k) ==>
              KeyAt(sources[1..], i, k) == KeyAt(sources, i + 1, k)
  {
    hide ResolvedName;
  }

  lemma OnlyFirst(s: Source, i: nat, k: nat)
    requires LiveAt([s], i, k)
    ensures i == 0
  {
  }

  lemma Positive(sources: seq<Source>, i: nat, k: nat)
    requires LiveAt(sources, i, k) && i > 0
    ensures LiveAt(sources[1..], i - 1, k) && KeyAt(sources[1..], i - 1, k) == KeyAt(sources, i, k)
  {
    hide ResolvedName;
  }

  lemma KeyOfParts(sources: seq<Source>, key: SeriesKey)
    requires sources != []
    ensures KeyIn(sources, key) <==> KeyIn([sources[0]], key) || KeyIn(sources[1..], key)
  {
    FirstSource(sources);
    hide LiveAt, KeyAt;
    if KeyIn(sources, key) {
      var i: nat, k: nat :| LiveAt(sources, i, k) && key == KeyAt(sources, i, k);
      if i > 0 { Positive(sources, i, k); }
    }
    if KeyIn([sources[0]], key) {
      var i: nat, k: nat :| LiveAt([sources[0]], i, k) && key == KeyAt([sources[0]], i, k);
      OnlyFirst(sources[0], i, k);
    }
    if KeyIn(sources[1..], key) {
      var i: nat, k: nat :| LiveAt(sources[1..], i, k) && key == KeyAt(sources[1..], i, k);
      assert LiveAt(sources, i + 1, k);
    }
  }

  lemma ApartParts(sources: seq<Source>)
    requires sources != [] && KeysApart(sources)
    ensures KeysApart([sources[0]]) && KeysApart(sources[1..])
    ensures forall key :: KeyIn([sources[0]], key) ==> !KeyIn(sources[1..], key)
  {
    FirstSource(sources);
    hide LiveAt, KeyAt;
    var one, rest := [sources[0]], sources[1..];
    forall i: nat, k: nat, j: nat, l: nat | LiveAt(one, i, k) && LiveAt(one, j, l) && (i != j || k != l)
      ensures KeyAt(one, i, k) != KeyAt(one, j, l)
    {
      OnlyFirst(sources[0], i, k);
      OnlyFirst(sources[0], j, l);
    }
    forall i: nat, k: nat, j: nat, l: nat | LiveAt(rest, i, k) && LiveAt(rest, j, l) && (i != j || k != l)
      ensures KeyAt(rest, i, k) != KeyAt(rest, j, l)
    {
      assert LiveAt(sources, i + 1, k) && LiveAt(sources, j + 1, l);
    }
    forall key | KeyIn(one, key) ensures !KeyIn(rest, key) {
      var i: nat, k: nat :| LiveAt(one, i, k) && key == KeyAt(one, i, k);
      OnlyFirst(sources[0], i, k);
      forall j: nat, l: nat | LiveAt(rest, j, l) ensures KeyAt(rest, j, l) != key {
        assert LiveAt(sources, 0, k) && LiveAt(sources, j + 1, l);
      }
    }
  }

  lemma ApartTogether(sources: seq<Source>)
    requires sources != [] && KeysApart([sources[0]]) && KeysApart(sources[1..])
    requires forall key :: KeyIn([sources[0]], key) ==> !KeyIn(sources[1..], key)
    ensures KeysApart(sources)
  {
    FirstSource(sources);
    hide LiveAt, KeyAt;
    var one, rest := [sources[0]], sources[1..];
    forall i: nat, k: nat, j: nat, l: nat | LiveAt(sources, i, k) && LiveAt(sources, j, l) && (i != j || k != l)
      ensures KeyAt(sources, i, k) != KeyAt(sources, j, l)
    {
      if i > 0 { Positive(sources, i, k); }
      if j > 0 { Positive(sources, j, l); }
      if i == 0 && j > 0 { assert KeyIn(one, KeyAt(sources, i, k)); }
      if j == 0 && i > 0 { assert KeyIn(one, KeyAt(sources, j, l)); }
    }
  }

  lemma {:induction false} SeriesKeys(sources: seq<Source>)
    ensures forall key :: HasKey(AllSeries(sources), key) <==> KeyIn(sources, key)
    ensures DistinctKeys(AllSeries(sources)) <==> KeysApart(sources)
  {
    if sources != [] {
      SeriesKeys(sources[1..]);
      var s := sources[0];
      var first, rest := SeriesFrom(s, s.subvolumes, Resolve(s.subvolumes)), AllSeries(sources[1..]);
      FirstSeries(s);
      hide AllSeries, SeriesFrom, Resolve, DistinctKeys, HasKey, KeysApart, KeyIn;
      assert AllSeries(sources) == first + rest by { SeriesParts(sources); }
      DistinctParts(first, rest);
      forall key ensures KeyIn(sources, key) <==> KeyIn([s], key) || KeyIn(sources[1..], key) {
        KeyOfParts(sources, key);
      }
      KeysAcross(first, rest, sources);
      if KeysApart(sources) {
        ApartParts(sources);
      } else if KeysApart([s]) && KeysApart(sources[1..]) &&
                forall key :: KeyIn([s], key) ==> !KeyIn(sources[1..], key) {
        ApartTogether(sources);
      }
    }
  }

  lemma KeysAcross(first: seq<Series>, rest: seq<Series>, sources: seq<Source>)
    requires sources != []
    requires forall key :: HasKey(first, key) <==> KeyIn([sources[0]], key)
    requires forall key :: HasKey(rest, key) <==> KeyIn(sources[1..], key)
    ensures (forall x :: x in first ==> !HasKey(rest, x.key)) <==>
            forall key :: KeyIn([sources[0]], key) ==> !KeyIn(sources[1..], key)
  {
    hide KeyIn;
    forall x | x in first ensures HasKey(first, x.key) {
      var m :| 0 <= m < |first| && first[m] == x;
    }
    forall key | HasKey(first, key) ensures exists x :: x in first && x.key == key {
      var m :| 0 <= m < |first| && first[m].key == key;
      assert first[m] in first;
    }
  }

  lemma SeriesParts(sources: seq<Source>)
    requires sources != []
    ensures AllSeries(sources) ==
            SeriesFrom(sources[0], sources[0].subvolumes, Resolve(sources[0].subvolumes)) + AllSeries(sources[1..])
  {
  }

  lemma FirstSeries(s: Source)
    ensures var series := SeriesFrom(s, s.subvolumes, Resolve(s.subvolumes));
            (forall key :: HasKey(series, key) <==> KeyIn([s], key)) && (DistinctKeys(series) <==> KeysApart([s]))
  {
    SeriesOfSource(s, 0);
    assert s.subvolumes[0..] == s.subvolumes && Resolve(s.subvolumes)[0..] == Resolve(s.subvolumes);
    hide SeriesFrom, DistinctKeys, HasKey, KeyAt, Resolve;
    forall i: nat, k: nat | LiveAt([s], i, k) ensures i == 0 { OnlyFirst(s, i, k); }
    hide LiveAt;
    var series := SeriesFrom(s, s.subvolumes, Resolve(s.subvolumes));
    if DistinctKeys(series) {
      forall i: nat, k: nat, j: nat, l: nat | LiveAt([s], i, k) && LiveAt([s], j, l) && (i != j || k != l)
        ensures KeyAt([s], i, k) != KeyAt([s], j, l)
      {
        if k < l {
          assert KeyAt([s], 0, k) != KeyAt([s], 0, l);
        } else {
          assert KeyAt([s], 0, l) != KeyAt([s], 0, k);
        }
      }
    }
  }

  /** The duplicate check finds nothing exactly when no two live entries share
      volume, snapshot directory and name. */
  lemma NoClashExactly(c: Config)
    ensures SeriesErrors(map[], AllSeries(c.sources)) == [] <==> NoTwoAlike(c.sources)
  {
    SeriesErrorsMeans(map[], AllSeries(c.sources));
    SeriesKeys(c.sources);
    hide AllSeries, SeriesErrors, DistinctKeys, ResolvedName;
  }

  // ---------------------------------------------------------------------
  // Paths.

  /** `part` stands in `s` between two slashes, or an end of it. */
  ghost predicate PartOf(s: string, before: string, part: string, after: string) {
    s == before + part + after && '/' !in part &&
    (before != [] ==> before[|before| - 1] == '/') && (after != [] ==> after[0] == '/')
  }

  ghost predicate HasPart(s: string, part: string) {
    exists before: string, after: string :: PartOf(s, before, part, after)
  }

  ghost predicate FirstPart(s: string, part: string) { exists after: string :: PartOf(s, [], part, after) }

  ghost predicate LaterPart(s: string, part: string) {
    exists before: string, after: string :: before != [] && PartOf(s, before, part, after)
  }

  lemma OneFirstPart(s: string, p: string, a: string, q: string, b: string)
    requires PartOf(s, [], p, a) && PartOf(s, [], q, b)
    ensures |p| <= |q|
  {
    assert |q| < |s| ==> b != [] && s[|q|] == b[0];
    assert forall i :: 0 <= i < |p| ==> s[i] == p[i] && p[i] in p;
  }

  lemma LaterOfTail(s: string, part: string)
    requires s != []
    ensures LaterPart(s, part) <==> LaterPart(s[1..], part) || (s[0] == '/' && FirstPart(s[1..], part))
  {
    var t := s[1..];
    if LaterPart(s, part) {
      var before, after :| before != [] && PartOf(s, before, part, after);
      assert t == before[1..] + part + after;
      assert PartOf(t, before[1..], part, after);
      assert before[0] == s[0];
      if before[1..] == [] { assert FirstPart(t, part); }
    }
    if LaterPart(t, part) {
      var before, after :| before != [] && PartOf(t, before, part, after);
      assert s == ([s[0]] + before) + part + after;
      assert PartOf(s, [s[0]] + before, part, after);
    }
    if s[0] == '/' && FirstPart(t, part) {
      var after :| PartOf(t, [], part, after);
      assert s == "/" + part + after;
      assert PartOf(s, "/", part, after);
    }
  }

  lemma {:induction false} ComponentsAreParts(s: string)
    ensures forall part :: FirstPart(s, part) <==> part == Components(s)[0]
    ensures forall part :: LaterPart(s, part) <==> part in Components(s)[1..]
  {
    if s == [] {
      assert PartOf([], [], [], []);
    } else {
      var t := s[1..];
      var rest := Components(t);
      ComponentsAreParts(t);
      forall part ensures LaterPart(s, part) <==> part in Components(s)[1..] {
        LaterOfTail(s, part);
        assert rest == [rest[0]] + rest[1..];
        if s[0] == '/' { assert Components(s)[1..] == rest; } else { assert Components(s)[1..] == rest[1..]; }
      }
      FirstOfComponents(s);
      hide LaterPart;
      forall part | FirstPart(s, part) ensures part == Components(s)[0] {
        var a :| PartOf(s, [], part, a);
        var b :| PartOf(s, [], Components(s)[0], b);
        OneFirstPart(s, part, a, Components(s)[0], b);
        OneFirstPart(s, Components(s)[0], b, part, a);
        assert part == s[..|part|] && Components(s)[0] == s[..|part|];
      }
    }
  }

  lemma FirstOfComponents(s: string)
    requires s != [] && FirstPart(s[1..], Components(s[1..])[0])
    ensures FirstPart(s, Components(s)[0])
  {
    var f := Components(s[1..])[0];
    var after :| PartOf(s[1..], [], f, after);
    if s[0] == '/' {
      assert PartOf(s, [], [], s);
    } else {
      assert [] + f == f;
      OneMoreLetter(s, f, after);
    }
  }

  lemma OneMoreLetter(s: string, f: string, after: string)
    requires s != [] && s[0] != '/' && s[1..] == f + after && '/' !in f && (after != [] ==> after[0] == '/')
    ensures FirstPart(s, [s[0]] + f)
  {
    var g := [s[0]] + f;
    assert s == g + after && [] + g == g;
    assert '/' !in g;
    assert PartOf(s, [], g, after);
  }

  /** The parts of a path are what stands between its slashes. */
  lemma PartsAreComponents(s: string)
    ensures forall part :: part in Components(s) <==> HasPart(s, part)
  {
    ComponentsAreParts(s);
    var parts := Components(s);
    assert parts == [parts[0]] + parts[1..];
    forall part ensures HasPart(s, part) <==> FirstPart(s, part) || LaterPart(s, part) {
      if HasPart(s, part) {
        var before, after :| PartOf(s, before, part, after);
        if before == [] { assert FirstPart(s, part); }
      }
    }
    hide FirstPart, LaterPart, HasPart, Components;
  }

  /** A path no component of which is empty, `.` or `..`. */
  ghost predicate Straight(path: string) {
    !HasPart(path, "") && !HasPart(path, ".") && !HasPart(path, "..")
  }

  lemma StraightMeans(path: string)
    ensures HasBadComponent(path) <==> !Straight(path)
  {
    hide HasPart, Components;
    PartsAreComponents(path);
  }

  /** What no plan adopts: a path with one of these parts. */
  lemma SnapshotTreeMeans(path: string)
    ensures InSnapshotTree(path) <==> HasPart(path, ".snapshots") || HasPart(path, ".btrbk-snapshots")
  {
    hide HasPart, Components;
    PartsAreComponents(path);
  }

  // ---------------------------------------------------------------------
  // The other complaints.

  lemma {:induction false} SourceErrorsMean(sources: seq<Source>)
    ensures SourceErrors(sources) == [] <==>
            forall i :: 0 <= i < |sources| ==> sources[i].subvolumes != [] && sources[i].device != ""
  {
    if sources != [] {
      SourceErrorsMean(sources[1..]);
      assert forall i :: 0 < i < |sources| ==> sources[1..][i - 1] == sources[i];
      assert forall i :: 0 <= i < |sources| - 1 ==> sources[1..][i] == sources[i + 1];
    }
  }

  /** Relative, and straight but for one trailing slash. */
  ghost predicate GoodDir(dir: string) {
    (dir != [] ==> dir[0] != '/') &&
    if dir != [] && dir[|dir| - 1] == '/' then Straight(dir[..|dir| - 1]) else Straight(dir)
  }

  lemma {:induction false} DirErrorsMean(sources: seq<Source>)
    ensures DirErrors(sources) == [] <==> forall i :: 0 <= i < |sources| ==> GoodDir(sources[i].snapshotDir)
  {
    hide Straight, HasBadComponent;
    if sources != [] {
      DirErrorsMean(sources[1..]);
      var dir := sources[0].snapshotDir;
      StraightMeans(WithoutOneSlash(dir));
      assert "/" <= dir <==> dir != [] && dir[0] == '/';
      assert forall i :: 0 < i < |sources| ==> sources[1..][i - 1] == sources[i];
      assert forall i :: 0 <= i < |sources| - 1 ==> sources[1..][i] == sources[i + 1];
    }
  }

  lemma {:induction false} PatternErrorsMean(patterns: seq<string>)
    ensures PatternErrors(patterns) == [] <==> forall p :: p in patterns ==> p != "" && p != "."
  {
    if patterns != [] {
      PatternErrorsMean(patterns[1..]);
      assert forall p :: p in patterns <==> p == patterns[0] || p in patterns[1..];
      assert patterns[0] in patterns;
    }
  }

  lemma {:induction false} WithoutRepeatsMeans(patterns: seq<string>, more: seq<string>)
    ensures forall p :: p in WithoutRepeats(patterns, more) <==> p in patterns || p in more
    ensures patterns <= WithoutRepeats(patterns, more)
    ensures Distinct(patterns) ==> Distinct(WithoutRepeats(patterns, more))
    decreases |more|
  {
    if more != [] {
      WithoutRepeatsMeans(if more[0] in patterns then patterns else patterns + [more[0]], more[1..]);
      assert more == [more[0]] + more[1..];
      if more[0] !in patterns {
        if Distinct(patterns) { OneMoreDistinct(patterns, more[0]); }
        assert patterns <= patterns + [more[0]];
      }
    }
  }

  /** The patterns that keep subvolumes out: the two built-in ones first, then
      those of `[subvolumes]` and `[doctor]`, each once. */
  lemma PatternsMean(c: Config)
    ensures forall p :: p in ExcludePatterns(c) <==>
              p == "@tmp" || p == "@var-tmp" || p in c.subvolumeExcludes || p in c.doctorExcludes
    ensures Distinct(ExcludePatterns(c)) && ["@tmp", "@var-tmp"] <= ExcludePatterns(c)
  {
    var more := c.subvolumeExcludes + c.doctorExcludes;
    assert DEFAULT_EXCLUDES + c.subvolumeExcludes + c.doctorExcludes == DEFAULT_EXCLUDES + more;
    BuiltInFirst();
    WithoutRepeatsParts([], DEFAULT_EXCLUDES, more);
    WithoutRepeatsMeans(DEFAULT_EXCLUDES, more);
    hide WithoutRepeats;
    assert Distinct(DEFAULT_EXCLUDES) by { assert "@tmp"[1] != "@var-tmp"[1]; }
  }

  lemma BuiltInFirst()
    ensures WithoutRepeats([], DEFAULT_EXCLUDES) == DEFAULT_EXCLUDES
  {
    assert "@tmp"[1] != "@var-tmp"[1];
    assert DEFAULT_EXCLUDES == ["@tmp"] + ["@var-tmp"];
    assert DEFAULT_EXCLUDES[1..] == ["@var-tmp"] && DEFAULT_EXCLUDES[1..][1..] == [];
    assert WithoutRepeats(["@tmp"], ["@var-tmp"]) == ["@tmp", "@var-tmp"];
  }

  lemma {:induction false} WithoutRepeatsParts(patterns: seq<string>, a: seq<string>, b: seq<string>)
    ensures WithoutRepeats(patterns, a + b) == WithoutRepeats(WithoutRepeats(patterns, a), b)
    decreases |a|
  {
    if a == [] {
      assert a + b == b;
    } else {
      assert (a + b)[0] == a[0] && (a + b)[1..] == a[1..] + b;
      WithoutRepeatsParts(if a[0] in patterns then patterns else patterns + [a[0]], a[1..], b);
    }
  }

  // ---------------------------------------------------------------------
  // Names of entries.

  ghost predicate InRange(sources: seq<Source>, i: nat, k: nat) { i < |sources| && k < |sources[i].subvolumes| }

  /** Every entry but a top level has a straight name; every top level has a
      name of its own, and no volume has two. */
  ghost predicate GoodNames(sources: seq<Source>) {
    (forall i: nat, k: nat :: InRange(sources, i, k) ==>
       if sources[i].subvolumes[k].name != "." then Straight(sources[i].subvolumes[k].name)
       else sources[i].subvolumes[k].snapshotName.Some?) &&
    forall i: nat, k: nat, j: nat, l: nat ::
      InRange(sources, i, k) && InRange(sources, j, l) && (i != j || k != l) &&
      sources[i].subvolumes[k].name == "." && sources[j].subvolumes[l].name == "." ==>
      sources[i].volume != sources[j].volume
  }

  /** The same of a list of pairs, beside the volumes seen. */
  ghost predicate GoodPairs(seen: set<string>, pairs: seq<(Source, Entry)>) {
    (forall m :: 0 <= m < |pairs| ==> GoodPair(pairs[m]) && (pairs[m].1.name == "." ==> pairs[m].0.volume !in seen)) &&
    forall m, n :: 0 <= m < n < |pairs| && pairs[m].1.name == "." && pairs[n].1.name == "." ==>
      pairs[m].0.volume != pairs[n].0.volume
  }

  ghost predicate GoodPair(p: (Source, Entry)) {
    if p.1.name != "." then Straight(p.1.name) else p.1.snapshotName.Some?
  }

  lemma {:induction false} NameErrorsMean(seen: set<string>, pairs: seq<(Source, Entry)>)
    ensures NameErrors(seen, pairs) == [] <==> GoodPairs(seen, pairs)
    decreases |pairs|
  {
    if pairs != [] {
      var v := pairs[0].0.volume;
      StraightMeans(pairs[0].1.name);
      NameErrorsMean(seen, pairs[1..]);
      NameErrorsMean(seen + {v}, pairs[1..]);
      FirstPair(seen, pairs);
      hide GoodPairs, Straight, HasBadComponent;
    }
  }

  lemma FirstPair(seen: set<string>, pairs: seq<(Source, Entry)>)
    requires pairs != []
    ensures pairs[0].1.name != "." ==>
              (GoodPairs(seen, pairs) <==> GoodPair(pairs[0]) && GoodPairs(seen, pairs[1..]))
    ensures pairs[0].1.name == "." ==>
              (GoodPairs(seen, pairs) <==> GoodPair(pairs[0]) && pairs[0].0.volume !in seen &&
                                           GoodPairs(seen + {pairs[0].0.volume}, pairs[1..]))
  {
    hide GoodPair;
    assert forall m :: 0 < m < |pairs| ==> pairs[1..][m - 1] == pairs[m];
    assert forall m :: 0 <= m < |pairs| - 1 ==> pairs[1..][m] == pairs[m + 1];
  }

  /** `places` tells where each pair is from: every entry once. */
  ghost predicate PlacesOf(sources: seq<Source>, pairs: seq<(Source, Entry)>, places: seq<(nat, nat)>) {
    |places| == |pairs| &&
    (forall m :: 0 <= m < |pairs| ==>
       InRange(sources, places[m].0, places[m].1) && pairs[m].0 == sources[places[m].0] &&
       pairs[m].1 == sources[places[m].0].subvolumes[places[m].1]) &&
    (forall m, n :: 0 <= m < n < |places| ==> places[m] != places[n]) &&
    forall i: nat, k: nat :: InRange(sources, i, k) ==> (i, k) in places
  }

  lemma {:induction false} PairsOfAt(s: Source, entries: seq<Entry>)
    ensures |PairsOf(s, entries)| == |entries|
    ensures forall k :: 0 <= k < |entries| ==> PairsOf(s, entries)[k] == (s, entries[k])
  {
    if entries != [] { PairsOfAt(s, entries[1..]); }
  }

  lemma {:induction false} Places(sources: seq<Source>) returns (places: seq<(nat, nat)>)
    ensures PlacesOf(sources, Pairs(sources), places)
  {
    if sources == [] {
      places := [];
    } else {
      var before, s := sources[..|sources| - 1], sources[|sources| - 1];
      places := Places(before);
      assert sources == before + [s];
      PairsParts(before, [s]);
      assert [s][1..] == [] && Pairs([s]) == PairsOf(s, s.subvolumes);
      PairsOfAt(s, s.subvolumes);
      OneMoreSource(before, s, Pairs(before), places);
      places := places + FromOne(|before|, |s.subvolumes|);
      hide PlacesOf;
    }
  }

  function FromOne(i: nat, n: nat): (places: seq<(nat, nat)>)
    ensures |places| == n && forall k :: 0 <= k < n ==> places[k] == (i, k)
  {
    seq(n, k requires 0 <= k < n => (i, k))
  }

  lemma OneMoreSource(before: seq<Source>, s: Source, pairs: seq<(Source, Entry)>, places: seq<(nat, nat)>)
    requires PlacesOf(before, pairs, places) && |PairsOf(s, s.subvolumes)| == |s.subvolumes|
    requires forall k :: 0 <= k < |s.subvolumes| ==> PairsOf(s, s.subvolumes)[k] == (s, s.subvolumes[k])
    ensures PlacesOf(before + [s], pairs + PairsOf(s, s.subvolumes),
                     places + FromOne(|before|, |s.subvolumes|))
  {
    hide PairsOf, FromOne;
    var all, sources := places + FromOne(|before|, |s.subvolumes|), before + [s];
    forall i: nat, k: nat | InRange(sources, i, k) ensures (i, k) in all {
      if i < |before| {
        assert InRange(before, i, k);
      } else {
        assert all[|places| + k] == (i, k);
      }
    }
  }

  lemma PlacesGood(sources: seq<Source>, pairs: seq<(Source, Entry)>, places: seq<(nat, nat)>)
    requires PlacesOf(sources, pairs, places)
    ensures GoodPairs({}, pairs) <==> GoodNames(sources)
  {
    hide Straight;
    if GoodPairs({}, pairs) {
      forall i: nat, k: nat | InRange(sources, i, k)
        ensures if sources[i].subvolumes[k].name != "." then Straight(sources[i].subvolumes[k].name)
                else sources[i].subvolumes[k].snapshotName.Some?
      {
        var m :| 0 <= m < |places| && places[m] == (i, k);
        assert GoodPair(pairs[m]);
      }
      forall i: nat, k: nat, j: nat, l: nat |
        InRange(sources, i, k) && InRange(sources, j, l) && (i != j || k != l) &&
        sources[i].subvolumes[k].name == "." && sources[j].subvolumes[l].name == "."
        ensures sources[i].volume != sources[j].volume
      {
        var m :| 0 <= m < |places| && places[m] == (i, k);
        var n :| 0 <= n < |places| && places[n] == (j, l);
        assert pairs[m].0.volume != pairs[n].0.volume;
      }
    }
    if GoodNames(sources) {
      forall m, n | 0 <= m < n < |pairs| && pairs[m].1.name == "." && pairs[n].1.name == "."
        ensures pairs[m].0.volume != pairs[n].0.volume
      {
        assert places[m] != places[n];
      }
    }
  }

  // ---------------------------------------------------------------------
  // All of it.

  /** No live top level is sent to a mirror. */
  ghost predicate TopsAtHome(c: Config) {
    forall i: nat, k: nat, t: nat ::
      InRange(c.sources, i, k) && t < |c.targets| && c.sources[i].subvolumes[k].name == "." &&
      c.sources[i].subvolumes[k].retired.None? && c.targets[t].role.Mirror? ==>
      c.sources[i].targetLabels != [] && c.targets[t].tag !in c.sources[i].targetLabels
  }

  lemma {:induction false} MirrorsMean(targets: seq<Target>, s: Source)
    ensures MirrorLabels(targets, s) == [] <==>
            forall t :: 0 <= t < |targets| && targets[t].role.Mirror? ==>
              s.targetLabels != [] && targets[t].tag !in s.targetLabels
  {
    if targets != [] {
      MirrorsMean(targets[1..], s);
      assert forall t :: 0 < t < |targets| ==> targets[1..][t - 1] == targets[t];
      assert forall t :: 0 <= t < |targets| - 1 ==> targets[1..][t] == targets[t + 1];
    }
  }

  lemma ScopeMeans(c: Config)
    ensures ScopeErrors(c, c.sources) == [] <==> TopsAtHome(c)
  {
    ScopeErrorsMeans(c, c.sources);
    forall s: Source ensures MirrorLabels(c.targets, s) == [] <==>
      forall t :: 0 <= t < |c.targets| && c.targets[t].role.Mirror? ==>
        s.targetLabels != [] && c.targets[t].tag !in s.targetLabels
    {
      MirrorsMean(c.targets, s);
    }
    hide ScopeErrors, MirrorLabels;
    if TopsAtHome(c) {
      forall i | 0 <= i < |c.sources| && HasLiveTop(c.sources[i].subvolumes)
        ensures MirrorsReached(c, c.sources[i]) == []
      {
        var k :| 0 <= k < |c.sources[i].subvolumes| && c.sources[i].subvolumes[k].name == TOP_LEVEL &&
                 c.sources[i].subvolumes[k].Live();
        assert InRange(c.sources, i, k);
      }
    }
    if ScopeErrors(c, c.sources) == [] {
      forall i: nat, k: nat, t: nat | InRange(c.sources, i, k) && t < |c.targets| &&
        c.sources[i].subvolumes[k].name == "." && c.sources[i].subvolumes[k].retired.None? && c.targets[t].role.Mirror?
        ensures c.sources[i].targetLabels != [] && c.targets[t].tag !in c.sources[i].targetLabels
      {
        assert HasLiveTop(c.sources[i].subvolumes);
        assert MirrorsReached(c, c.sources[i]) == [];
      }
    }
  }

  /** What `validate` asks, field by field. */
  ghost predicate Valid(c: Config) {
    (c.sources != [] || c.recoveryDrive) && c.targets != [] &&
    (forall i :: 0 <= i < |c.sources| ==>
       c.sources[i].subvolumes != [] && c.sources[i].device != "" && GoodDir(c.sources[i].snapshotDir)) &&
    (forall i, j :: 0 <= i < j < |c.targets| ==>
       c.targets[i].tag != c.targets[j].tag && c.targets[i].mount != c.targets[j].mount) &&
    GoodNames(c.sources) && TopsAtHome(c) &&
    (forall p :: p in c.subvolumeExcludes || p in c.doctorExcludes ==> p != "" && p != ".") &&
    NoTwoAlike(c.sources) && c.otherErrors == []
  }

  lemma NoOtherErrors(texts: seq<string>)
    ensures OtherErrors(texts) == [] <==> texts == []
  {
  }

  lemma AllEmpty(a: seq<ConfigError>, b: seq<ConfigError>)
    ensures a + b == [] <==> a == [] && b == []
  {
    assert |a + b| == |a| + |b|;
  }

  lemma ErrorsAreParts(c: Config)
    ensures Errors(c) == [] <==>
            (c.sources != [] || c.recoveryDrive) && c.targets != [] && SourceErrors(c.sources) == [] &&
            TargetErrors({}, {}, c.targets) == [] && NameErrors({}, Pairs(c.sources)) == [] &&
            ScopeErrors(c, c.sources) == [] && DirErrors(c.sources) == [] && PatternErrors(ExcludePatterns(c)) == [] &&
            SeriesErrors(map[], AllSeries(c.sources)) == [] && OtherErrors(c.otherErrors) == []
  {
    hide SourceErrors, TargetErrors, NameErrors, Pairs, ScopeErrors, DirErrors, PatternErrors, ExcludePatterns,
         SeriesErrors, AllSeries, OtherErrors;
    var a := if c.sources == [] && !c.recoveryDrive then [NoSources] else [];
    var b := if c.targets == [] then [NoTargets] else [];
    var d, e, f := SourceErrors(c.sources), TargetErrors({}, {}, c.targets), NameErrors({}, Pairs(c.sources));
    var g, h, i := ScopeErrors(c, c.sources), DirErrors(c.sources), PatternErrors(ExcludePatterns(c));
    var j, k := SeriesErrors(map[], AllSeries(c.sources)), OtherErrors(c.otherErrors);
    assert |Errors(c)| == |a| + |b| + |d| + |e| + |f| + |g| + |h| + |i| + |j| + |k|;
  }

  lemma ListsMean(c: Config)
    ensures NameErrors({}, Pairs(c.sources)) == [] <==> GoodNames(c.sources)
    ensures PatternErrors(ExcludePatterns(c)) == [] <==>
            forall p :: p in c.subvolumeExcludes || p in c.doctorExcludes ==> p != "" && p != "."
  {
    hide GoodNames, GoodPairs, PlacesOf, NameErrors, Pairs, PatternErrors, ExcludePatterns;
    NameErrorsMean({}, Pairs(c.sources));
    var places := Places(c.sources);
    PlacesGood(c.sources, Pairs(c.sources), places);
    PatternErrorsMean(ExcludePatterns(c));
    PatternsMean(c);
  }

  lemma TargetsMean(c: Config)
    ensures TargetErrors({}, {}, c.targets) == [] <==>
            forall i, j :: 0 <= i < j < |c.targets| ==>
              c.targets[i].tag != c.targets[j].tag && c.targets[i].mount != c.targets[j].mount
  {
    hide TargetErrors;
    TargetErrorsMeans({}, {}, c.targets);
  }

  /** `validate` has nothing to say exactly of a valid configuration. */
  lemma ValidExactly(c: Config)
    ensures Errors(c) == [] <==> Valid(c)
  {
    hide Errors, SourceErrors, TargetErrors, NameErrors, Pairs, ScopeErrors, DirErrors, PatternErrors, ExcludePatterns,
         SeriesErrors, AllSeries, OtherErrors, GoodNames, TopsAtHome, NoTwoAlike, GoodDir;
    ErrorsAreParts(c);
    SourceErrorsMean(c.sources);
    DirErrorsMean(c.sources);
    TargetsMean(c);
    ListsMean(c);
    ScopeMeans(c);
    NoClashExactly(c);
    NoOtherErrors(c.otherErrors);
  }
}
