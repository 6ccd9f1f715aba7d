// A save writes derived snapshot names out. What that leaves as it was: the
// plan, the validation, and both printed files
// (indexer/src/config.rs, indexer/src/adopt.rs, indexer/src/btrbk_conf.rs).
module PinnedPlans {
  import opened Config
  import opened Glob
  import opened Names
  import opened Sync
  import opened SyncFacts
  import opened Validate
  import opened Render
  import opened Runs

  // ---------------------------------------------------------------------
  // Planning never looks at a snapshot name.

  predicate EntryAlike(e: Entry, f: Entry) { f == e.(snapshotName := f.snapshotName) }

  ghost predicate SourceAlike(s: Source, t: Source) {
    t == s.(subvolumes := t.subvolumes) && |t.subvolumes| == |s.subvolumes| &&
    forall k :: 0 <= k < |s.subvolumes| ==> EntryAlike(s.subvolumes[k], t.subvolumes[k])
  }

  ghost predicate Alike(a: seq<Source>, b: seq<Source>) {
    |a| == |b| && forall i :: 0 <= i < |a| ==> SourceAlike(a[i], b[i])
  }

  ghost predicate PairAlike(p: (Source, Entry), q: (Source, Entry)) {
    SourceAlike(p.0, q.0) && EntryAlike(p.1, q.1)
  }

  ghost predicate PairsAlike(a: seq<(Source, Entry)>, b: seq<(Source, Entry)>) {
    |a| == |b| && forall i :: 0 <= i < |a| ==> PairAlike(a[i], b[i])
  }

  lemma {:induction false} AlikePairsOf(s: Source, t: Source, a: seq<Entry>, b: seq<Entry>)
    requires SourceAlike(s, t) && |a| == |b| && forall k :: 0 <= k < |a| ==> EntryAlike(a[k], b[k])
    ensures PairsAlike(PairsOf(s, a), PairsOf(t, b))
  {
    hide SourceAlike, EntryAlike;
    if a != [] { AlikePairsOf(s, t, a[1..], b[1..]); }
  }

  lemma {:induction false} AlikePairs(a: seq<Source>, b: seq<Source>)
    requires Alike(a, b)
    ensures PairsAlike(Pairs(a), Pairs(b))
  {
    hide PairAlike, EntryAlike;
    if a != [] {
      assert SourceAlike(a[0], b[0]);
      AlikePairsOf(a[0], b[0], a[0].subvolumes, b[0].subvolumes);
      AlikePairs(a[1..], b[1..]);
    }
  }

  lemma {:induction false} AlikeSourcesOn(a: seq<Source>, b: seq<Source>, v: string)
    requires Alike(a, b)
    ensures Alike(SourcesOn(a, v), SourcesOn(b, v))
  {
    if a != [] {
      assert SourceAlike(a[0], b[0]);
      AlikeSourcesOn(a[1..], b[1..], v);
    }
  }

  lemma {:induction false} AlikeVolumes(seen: seq<string>, a: seq<Source>, b: seq<Source>)
    requires Alike(a, b)
    ensures VolumesFrom(seen, a) == VolumesFrom(seen, b)
    decreases |a|
  {
    if a != [] {
      assert SourceAlike(a[0], b[0]);
      AlikeVolumes(if a[0].volume in seen then seen else seen + [a[0].volume], a[1..], b[1..]);
    }
  }

  lemma {:induction false} AlikeMirrors(targets: seq<Target>, s: Source, t: Source)
    requires SourceAlike(s, t)
    ensures MirrorLabels(targets, s) == MirrorLabels(targets, t)
    ensures TargetsOf(targets, s) == TargetsOf(targets, t)
  {
    if targets != [] { AlikeMirrors(targets[1..], s, t); }
  }

  lemma {:induction false} AlikeKnown(c: Config, d: Config, v: string, found: seq<string>,
                                      a: seq<(Source, Entry)>, b: seq<(Source, Entry)>)
    requires c.targets == d.targets && PairsAlike(a, b)
    ensures KnownPlan(c, v, found, a) == KnownPlan(d, v, found, b)
  {
    hide Join;
    if a != [] {
      assert PairAlike(a[0], b[0]);
      AlikeMirrors(c.targets, a[0].0, b[0].0);
      AlikeKnown(c, d, v, found, a[1..], b[1..]);
    }
  }

  lemma AlikeConfigured(a: seq<Source>, b: seq<Source>, name: string)
    requires Alike(a, b)
    ensures Configured(a, name) <==> Configured(b, name)
  {
    forall i | 0 <= i < |a| ensures HasEntry(a[i].subvolumes, name) <==> HasEntry(b[i].subvolumes, name) {
      assert SourceAlike(a[i], b[i]);
      assert forall k :: 0 <= k < |a[i].subvolumes| ==> EntryAlike(a[i].subvolumes[k], b[i].subvolumes[k]);
    }
  }

  lemma {:induction false} AlikeUnknown(found: seq<string>, a: seq<Source>, b: seq<Source>)
    requires Alike(a, b)
    ensures NotConfigured(found, a) == NotConfigured(found, b)
  {
    hide Configured, Alike;
    if found != [] {
      AlikeConfigured(a, b, found[0]);
      AlikeUnknown(found[1..], a, b);
    }
  }

  lemma {:induction false} AlikeAncestor(a: seq<(Source, Entry)>, b: seq<(Source, Entry)>, name: string)
    requires PairsAlike(a, b)
    ensures Ancestor(a, name).None? <==> Ancestor(b, name).None?
    ensures Ancestor(a, name).Some? ==> PairAlike(Ancestor(a, name).value, Ancestor(b, name).value)
  {
    hide SourceAlike, NestedUnder;
    if a != [] {
      assert PairAlike(a[|a| - 1], b[|b| - 1]);
      AlikeAncestor(a[..|a| - 1], b[..|b| - 1], name);
    }
  }

  lemma {:induction false} AlikeAdoptionTag(a: seq<Source>, b: seq<Source>, v: string)
    requires Alike(a, b)
    ensures AdoptionTag(a, v) == AdoptionTag(b, v)
  {
    if a != [] {
      assert SourceAlike(a[0], b[0]);
      AlikeAdoptionTag(a[1..], b[1..], v);
    }
  }

  lemma {:induction false} AlikeFindSource(a: seq<Source>, b: seq<Source>, tag: string)
    requires Alike(a, b)
    ensures FindSource(a, tag).None? <==> FindSource(b, tag).None?
    ensures FindSource(a, tag).Some? ==> SourceAlike(FindSource(a, tag).value, FindSource(b, tag).value)
  {
    if a != [] {
      assert SourceAlike(a[0], b[0]);
      AlikeFindSource(a[1..], b[1..], tag);
    }
  }

  lemma AlikeFields(s: Source, t: Source)
    requires SourceAlike(s, t)
    ensures t.tag == s.tag && t.volume == s.volume && t.targetLabels == s.targetLabels
  {
  }

  lemma AlikePlace(c: Config, d: Config, v: string, a: seq<Source>, b: seq<Source>, name: string)
    requires d == c.(sources := d.sources) && Alike(c.sources, d.sources) && Alike(a, b) && a != []
    ensures Place(c, v, a, name) == Place(d, v, b, name)
  {
    hide Ancestor, AdoptionTag, FindSource, Pairs, MirrorLabels, TargetsOf, Alike, SourceAlike;
    AlikePairs(a, b);
    AlikeAncestor(Pairs(a), Pairs(b), name);
    AlikeAdoptionTag(c.sources, d.sources, v);
    AlikeLength(a, b);
    AlikeAt(a, b, 0);
    AlikeFields(a[0], b[0]);
    var tag := HomeTag(c, v, a);
    assert tag == HomeTag(d, v, b);
    AlikeFindSource(a, b, tag);
    if Ancestor(Pairs(a), name).Some? {
      AlikeFields(Ancestor(Pairs(a), name).value.0, Ancestor(Pairs(b), name).value.0);
    } else if FindSource(a, tag).Some? {
      AlikeMirrors(c.targets, FindSource(a, tag).value, FindSource(b, tag).value);
    }
  }

  lemma AlikeAt(a: seq<Source>, b: seq<Source>, i: nat)
    requires Alike(a, b) && i < |a|
    ensures SourceAlike(a[i], b[i])
  {
  }

  lemma {:induction false} AlikeUnknownPlan(c: Config, d: Config, v: string, a: seq<Source>, b: seq<Source>,
                                            names: seq<string>)
    requires d == c.(sources := d.sources) && Alike(c.sources, d.sources) && Alike(a, b) && a != []
    ensures UnknownPlan(c, v, a, names) == UnknownPlan(d, v, b, names)
  {
    hide Place, Alike, Join, InSnapshotTree, ExcludedBy;
    assert b != [] by { AlikeLength(a, b); }
    if names != [] {
      assert ExcludePatterns(c) == ExcludePatterns(d);
      AlikePlace(c, d, v, a, b, names[0]);
      AlikeUnknownPlan(c, d, v, a, b, names[1..]);
    }
  }

  lemma AlikeLength(a: seq<Source>, b: seq<Source>)
    requires Alike(a, b)
    ensures |a| == |b|
  {
  }

  lemma {:induction false} AlikeVolumePlans(c: Config, d: Config, ls: seq<Listing>, vs: seq<string>)
    requires d == c.(sources := d.sources) && Alike(c.sources, d.sources)
    ensures VolumesPlan(c, ls, vs) == VolumesPlan(d, ls, vs)
  {
    hide Alike, Join, KnownPlan, UnknownPlan, OnDisk, SourcesOn, Pairs, NotConfigured;
    if vs != [] {
      var v := vs[0];
      var a, b := SourcesOn(c.sources, v), SourcesOn(d.sources, v);
      AlikeSourcesOn(c.sources, d.sources, v);
      AlikeLength(a, b);
      if a != [] && OnDisk(ls, v).Ok? {
        var found := OnDisk(ls, v).value;
        AlikePairs(a, b);
        AlikeKnown(c, d, v, found, Pairs(a), Pairs(b));
        AlikeUnknown(found, a, b);
        AlikeUnknownPlan(c, d, v, a, b, Unknown(found, a));
      }
      AlikeVolumePlans(c, d, ls, vs[1..]);
    }
  }

  /** Two configurations that differ only in snapshot names are planned alike,
      item by item and in the same order. */
  lemma PlanIgnoresSnapshotNames(c: Config, d: Config, ls: seq<Listing>)
    requires d == c.(sources := d.sources) && Alike(c.sources, d.sources)
    ensures PlanFor(c, ls) == PlanFor(d, ls)
  {
    hide Alike;
    AlikeVolumes([], c.sources, d.sources);
    AlikeVolumePlans(c, d, ls, Volumes(c));
  }

  lemma PinnedIsAlike(c: Config)
    ensures Pinned(c) == c.(sources := Pinned(c).sources) && Alike(c.sources, Pinned(c).sources)
  {
    hide ResolvedName;
    var d := Pinned(c);
    forall i | 0 <= i < |c.sources| ensures SourceAlike(c.sources[i], d.sources[i]) {
      assert d.sources[i] == c.sources[i].(subvolumes := PinnedEntries(c.sources[i].subvolumes));
    }
  }

  /** Saving changes no plan. */
  lemma PinningChangesNoPlan(c: Config, ls: seq<Listing>)
    ensures PlanFor(Pinned(c), ls) == PlanFor(c, ls)
  {
    hide Alike, PlanFor;
    PinnedIsAlike(c);
    PlanIgnoresSnapshotNames(c, Pinned(c), ls);
  }

  // ---------------------------------------------------------------------
  // Where every top level names itself, pinning changes no printed line.

  /** `t` is `s` with other snapshot names written, all resolving as before. */
  ghost predicate SamePrint(s: Source, t: Source) {
    SourceAlike(s, t) && Resolve(t.subvolumes) == Resolve(s.subvolumes)
  }

  lemma PinnedSamePrint(c: Config, i: nat)
    requires i < |c.sources| && TopLevelsNamed(c.sources[i].subvolumes)
    ensures SamePrint(c.sources[i], Pinned(c).sources[i])
  {
    hide ResolvedName;
    PinnedIsAlike(c);
    PinningKeepsNames(c.sources[i].subvolumes);
  }

  lemma {:induction false} SameKept(conf: Conf, a: seq<Entry>, b: seq<Entry>, names: seq<string>)
    requires |a| == |b| == |names| && forall k :: 0 <= k < |a| ==> EntryAlike(a[k], b[k])
    ensures KeptOf(conf, a, names) == KeptOf(conf, b, names)
  {
    if a != [] {
      assert EntryAlike(a[0], b[0]);
      SameKept(conf, a[1..], b[1..], names[1..]);
    }
  }

  lemma {:induction false} SameTargetLines(c: Config, d: Config, s: Source, t: Source, targets: seq<Target>)
    requires SourceAlike(s, t) && c.targets == d.targets
    ensures TargetLines(c, s, targets) == TargetLines(d, t, targets)
  {
    hide FormatRetention, PrimaryOf;
    if targets != [] { SameTargetLines(c, d, s, t, targets[1..]); }
  }

  lemma SameBlock(c: Config, d: Config, conf: Conf, s: Source, t: Source)
    requires SamePrint(s, t) && c.targets == d.targets
    ensures Block(c, conf, s) == Block(d, conf, t)
  {
    hide TargetLines, SubvolumeLines, KeptOf, TargetsOf, Resolve;
    AlikeMirrors(c.targets, s, t);
    SameKept(conf, s.subvolumes, t.subvolumes, Resolve(s.subvolumes));
    SameTargetLines(c, d, s, t, TargetsOf(c.targets, s));
  }

  lemma {:induction false} SameBlocks(c: Config, d: Config, conf: Conf, a: seq<Source>, b: seq<Source>)
    requires c.targets == d.targets && |a| == |b| && forall i :: 0 <= i < |a| ==> SamePrint(a[i], b[i])
    ensures Blocks(c, conf, a) == Blocks(d, conf, b)
  {
    hide SamePrint, Block;
    if a != [] {
      SameBlock(c, d, conf, a[0], b[0]);
      SameBlocks(c, d, conf, a[1..], b[1..]);
    }
  }

  lemma SameTops(s: Source, t: Source)
    requires SourceAlike(s, t)
    ensures HasLiveTop(s.subvolumes) <==> HasLiveTop(t.subvolumes)
    ensures HasAfterIndex(s.subvolumes) <==> HasAfterIndex(t.subvolumes)
  {
    assert forall k :: 0 <= k < |s.subvolumes| ==> EntryAlike(s.subvolumes[k], t.subvolumes[k]);
  }

  lemma {:induction false} SameScope(c: Config, d: Config, a: seq<Source>, b: seq<Source>)
    requires c.targets == d.targets && |a| == |b| && forall i :: 0 <= i < |a| ==> SourceAlike(a[i], b[i])
    ensures ScopeErrors(c, a) == ScopeErrors(d, b)
  {
    hide HasLiveTop, MirrorLabels, SourceAlike;
    if a != [] {
      SameTops(a[0], b[0]);
      AlikeMirrors(c.targets, a[0], b[0]);
      AlikeFields(a[0], b[0]);
      SameScope(c, d, a[1..], b[1..]);
    }
  }

  lemma SameAfterIndex(c: Config, d: Config)
    requires Alike(c.sources, d.sources)
    ensures AnyAfterIndex(c) <==> AnyAfterIndex(d)
  {
    hide SourceAlike, Keeps;
    forall i | 0 <= i < |c.sources|
      ensures HasAfterIndex(c.sources[i].subvolumes) <==> HasAfterIndex(d.sources[i].subvolumes) {
      SameTops(c.sources[i], d.sources[i]);
    }
  }

  /** Saving leaves both files due the text they had. */
  lemma PinningChangesNoPrint(c: Config)
    requires TopsNamed(c.sources)
    ensures forall conf :: RenderConf(Pinned(c), conf) == RenderConf(c, conf)
    ensures RenderState(Pinned(c)) == RenderState(c)
  {
    hide Printed, Preamble, Blocks, Alike, AnyAfterIndex, TopLevelsNamed, ScopeErrors, SamePrint, Pinned;
    var d := Pinned(c);
    PinnedIsAlike(c);
    AlikeLength(c.sources, d.sources);
    forall i | 0 <= i < |c.sources|
        ensures SamePrint(c.sources[i], d.sources[i]) && SourceAlike(c.sources[i], d.sources[i]) {
      PinnedSamePrint(c, i);
      AlikeAt(c.sources, d.sources, i);
    }
    SameScope(c, d, c.sources, d.sources);
    SameAfterIndex(c, d);
    assert Preamble(d) == Preamble(c) by { SamePreamble(c, d); }
    forall conf ensures RenderConf(d, conf) == RenderConf(c, conf) {
      SameBlocks(c, d, conf, c.sources, d.sources);
    }
  }

  lemma SamePreamble(c: Config, d: Config)
    requires c.targets == d.targets
    ensures Preamble(d) == Preamble(c)
  {
  }

  // ---------------------------------------------------------------------
  // ... and no complaint.

  /** As `EntryAlike`, and a top level is left exactly as it is. */
  predicate PinAlike(e: Entry, f: Entry) { EntryAlike(e, f) && (e.name == TOP_LEVEL ==> f == e) }

  ghost predicate PinPairs(a: seq<(Source, Entry)>, b: seq<(Source, Entry)>) {
    |a| == |b| && forall i :: 0 <= i < |a| ==> SourceAlike(a[i].0, b[i].0) && PinAlike(a[i].1, b[i].1)
  }

  lemma {:induction false} PinPairsOf(s: Source, t: Source, a: seq<Entry>, b: seq<Entry>)
    requires SourceAlike(s, t) && |a| == |b| && forall k :: 0 <= k < |a| ==> PinAlike(a[k], b[k])
    ensures PinPairs(PairsOf(s, a), PairsOf(t, b))
  {
    hide SourceAlike, PinAlike;
    if a != [] { PinPairsOf(s, t, a[1..], b[1..]); }
  }

  ghost predicate PinSource(s: Source, t: Source) {
    SamePrint(s, t) && forall k :: 0 <= k < |s.subvolumes| ==> PinAlike(s.subvolumes[k], t.subvolumes[k])
  }

  lemma {:induction false} PinAllPairs(a: seq<Source>, b: seq<Source>)
    requires |a| == |b| && forall i :: 0 <= i < |a| ==> PinSource(a[i], b[i])
    ensures PinPairs(Pairs(a), Pairs(b))
  {
    hide Resolve, PinAlike;
    if a != [] {
      assert PinSource(a[0], b[0]);
      PinPairsOf(a[0], b[0], a[0].subvolumes, b[0].subvolumes);
      PinAllPairs(a[1..], b[1..]);
    }
  }

  lemma {:induction false} SameNameErrors(tops: set<string>, a: seq<(Source, Entry)>, b: seq<(Source, Entry)>)
    requires PinPairs(a, b)
    ensures NameErrors(tops, a) == NameErrors(tops, b)
    decreases |a|
  {
    hide HasBadComponent;
    if a != [] {
      var s, e := a[0].0, a[0].1;
      assert SourceAlike(s, b[0].0) && PinAlike(e, b[0].1);
      SameNameErrors(if e.name == TOP_LEVEL then tops + {s.volume} else tops, a[1..], b[1..]);
    }
  }

  lemma {:induction false} SamePlainErrors(a: seq<Source>, b: seq<Source>)
    requires |a| == |b| && forall i :: 0 <= i < |a| ==> SourceAlike(a[i], b[i])
    ensures SourceErrors(a) == SourceErrors(b) && DirErrors(a) == DirErrors(b)
  {
    hide HasBadComponent;
    if a != [] {
      assert SourceAlike(a[0], b[0]);
      SamePlainErrors(a[1..], b[1..]);
    }
  }

  lemma {:induction false} SameSeriesFrom(s: Source, t: Source, a: seq<Entry>, b: seq<Entry>, names: seq<string>)
    requires SourceAlike(s, t) && |a| == |b| == |names| && forall k :: 0 <= k < |a| ==> EntryAlike(a[k], b[k])
    ensures SeriesFrom(s, a, names) == SeriesFrom(t, b, names)
  {
    if a != [] {
      assert EntryAlike(a[0], b[0]);
      SameSeriesFrom(s, t, a[1..], b[1..], names[1..]);
    }
  }

  lemma {:induction false} SameAllSeries(a: seq<Source>, b: seq<Source>)
    requires |a| == |b| && forall i :: 0 <= i < |a| ==> SamePrint(a[i], b[i])
    ensures AllSeries(a) == AllSeries(b)
  {
    hide Resolve, SeriesFrom;
    if a != [] {
      assert SamePrint(a[0], b[0]);
      SameSeriesFrom(a[0], b[0], a[0].subvolumes, b[0].subvolumes, Resolve(a[0].subvolumes));
      SameAllSeries(a[1..], b[1..]);
    }
  }

  lemma PinnedSource(c: Config, i: nat)
    requires i < |c.sources| && TopLevelsNamed(c.sources[i].subvolumes)
    ensures PinSource(c.sources[i], Pinned(c).sources[i])
  {
    hide ResolvedName, Resolve;
    PinnedSamePrint(c, i);
  }

  lemma PinningChangesNoError(c: Config)
    requires TopsNamed(c.sources)
    ensures Errors(Pinned(c)) == Errors(c)
  {
    hide Alike, TopLevelsNamed, SourceErrors, DirErrors, ScopeErrors, SamePrint, Pinned, NameErrors, Pairs,
         PatternErrors,
         TargetErrors, AllSeries, SeriesErrors, WithoutRepeats, SourceAlike, PinPairs;
    var d := Pinned(c);
    PinnedIsAlike(c);
    AlikeLength(c.sources, d.sources);
    forall i | 0 <= i < |c.sources|
      ensures PinSource(c.sources[i], d.sources[i]) && SamePrint(c.sources[i], d.sources[i]) &&
              SourceAlike(c.sources[i], d.sources[i]) {
      PinnedSource(c, i);
      AlikeAt(c.sources, d.sources, i);
    }
    PinAllPairs(c.sources, d.sources);
    SameNameErrors({}, Pairs(c.sources), Pairs(d.sources));
    SamePlainErrors(c.sources, d.sources);
    SameScope(c, d, c.sources, d.sources);
    SameAllSeries(c.sources, d.sources);
  }

  // ---------------------------------------------------------------------

  lemma {:induction false} NameErrorsMean(tops: set<string>, pairs: seq<(Source, Entry)>)
    requires NameErrors(tops, pairs) == []
    ensures forall i :: 0 <= i < |pairs| && pairs[i].1.name == TOP_LEVEL ==> pairs[i].1.snapshotName.Some?
    decreases |pairs|
  {
    hide HasBadComponent;
    if pairs != [] {
      var s, e := pairs[0].0, pairs[0].1;
      NameErrorsMean(if e.name == TOP_LEVEL then tops + {s.volume} else tops, pairs[1..]);
      forall i | 0 < i < |pairs| ensures pairs[i] == pairs[1..][i - 1] {}
    }
  }

  lemma NothingInParts<T>(a: seq<T>, b: seq<T>, c: seq<T>)
    requires a + b + c == []
    ensures a == [] && b == [] && c == []
  {
    assert |a + b + c| == |a| + |b| + |c|;
  }

  lemma ValidParts(c: Config)
    requires Errors(c) == []
    ensures NameErrors({}, Pairs(c.sources)) == [] && TopLevelScopeErrors(c) == [] &&
            TargetErrors({}, {}, c.targets) == []
  {
    hide NameErrors, Pairs, SourceErrors, TargetErrors, ScopeErrors, DirErrors, PatternErrors, SeriesErrors, AllSeries;
    var first := (if c.sources == [] && !c.recoveryDrive then [NoSources] else []) +
                 (if c.targets == [] then [NoTargets] else []) + SourceErrors(c.sources);
    var last := DirErrors(c.sources) + PatternErrors(ExcludePatterns(c)) +
                SeriesErrors(map[], AllSeries(c.sources)) + OtherErrors(c.otherErrors);
    var targets, names, scope := TargetErrors({}, {}, c.targets), NameErrors({}, Pairs(c.sources)),
        TopLevelScopeErrors(c);
    assert Errors(c) == first + (targets + names + scope) + last;
    NothingInParts(first, targets + names + scope, last);
    NothingInParts(targets, names, scope);
  }

  /** A valid configuration names every top level. */
  lemma ValidNamesTops(c: Config)
    requires Errors(c) == []
    ensures TopsNamed(c.sources)
  {
    hide NameErrors, Pairs, Errors;
    ValidParts(c);
    NameErrorsMean({}, Pairs(c.sources));
    PairsHold(c.sources);
    forall i, k | 0 <= i < |c.sources| && 0 <= k < |c.sources[i].subvolumes| &&
                  c.sources[i].subvolumes[k].name == TOP_LEVEL
      ensures c.sources[i].subvolumes[k].snapshotName.Some?
    {
      var p := (c.sources[i], c.sources[i].subvolumes[k]);
      assert p in Pairs(c.sources);
      var j :| 0 <= j < |Pairs(c.sources)| && Pairs(c.sources)[j] == p;
    }
  }
}
