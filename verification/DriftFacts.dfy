// What the drift report says, in terms of the configuration and the listings
// alone (indexer/src/doctor.rs).
module DriftFacts {
  import opened Base
  import opened Config
  import opened Glob
  import opened Sync
  import opened SyncFacts
  import opened Drift
  import opened DriftAgrees
  import opened PlanFacts

  /** The labels of the sources on a volume, in order. */
  function LabelsOn(sources: seq<Source>, volume: string): seq<string> {
    if sources == [] then []
    else
      var last := sources[|sources| - 1];
      LabelsOn(sources[..|sources| - 1], volume) + (if last.volume == volume then [last.tag] else [])
  }

  // ---------------------------------------------------------------------
  // The groups.

  ghost predicate Labelled(groups: seq<Group>, seen: seq<Source>) {
    (forall i, j :: 0 <= i < j < |groups| ==> groups[i].volume != groups[j].volume) &&
    (forall i :: 0 <= i < |groups| ==> groups[i].sourceTags == LabelsOn(seen, groups[i].volume)) &&
    forall v :: (forall i :: 0 <= i < |groups| ==> groups[i].volume != v) ==> LabelsOn(seen, v) == []
  }

  lemma OneMoreLabel(seen: seq<Source>, s: Source, v: string)
    ensures LabelsOn(seen + [s], v) == LabelsOn(seen, v) + if s.volume == v then [s.tag] else []
  {
    assert (seen + [s])[..|seen + [s]| - 1] == seen;
  }

  /** What one more source makes of the groups, its names aside. */
  lemma WithSourceIs(groups: seq<Group>, c: Config, s: Source) returns (at: nat, g: Group)
    ensures g.volume == s.volume && at <= |groups|
    ensures at < |groups| ==> groups[at].volume == s.volume && g.sourceTags == groups[at].sourceTags + [s.tag] &&
                              WithSource(groups, c, s) == groups[at := g]
    ensures at == |groups| ==> (forall i :: 0 <= i < |groups| ==> groups[i].volume != s.volume) &&
                               g.sourceTags == [s.tag] && WithSource(groups, c, s) == groups + [g]
  {
    hide WithNames;
    at := GroupIndex(groups, s.volume);
    g := WithSource(groups, c, s)[at];
  }

  lemma OldGroupLabelled(groups: seq<Group>, seen: seq<Source>, s: Source, at: nat, g: Group)
    requires Labelled(groups, seen) && at < |groups| && groups[at].volume == s.volume == g.volume
    requires g.sourceTags == groups[at].sourceTags + [s.tag]
    ensures Labelled(groups[at := g], seen + [s])
  {
    forall v ensures LabelsOn(seen + [s], v) == LabelsOn(seen, v) + if s.volume == v then [s.tag] else [] {
      OneMoreLabel(seen, s, v);
    }
    hide LabelsOn;
    var after := groups[at := g];
    forall i | 0 <= i < |groups| ensures after[i].volume == groups[i].volume {}
    forall v | forall i :: 0 <= i < |after| ==> after[i].volume != v ensures LabelsOn(seen + [s], v) == [] {
      assert after[at].volume == s.volume;
      forall i | 0 <= i < |groups| ensures groups[i].volume != v { assert after[i].volume == groups[i].volume; }
    }
  }

  lemma NewGroupLabelled(groups: seq<Group>, seen: seq<Source>, s: Source, g: Group)
    requires Labelled(groups, seen) && forall i :: 0 <= i < |groups| ==> groups[i].volume != s.volume
    requires g.volume == s.volume && g.sourceTags == [s.tag]
    ensures Labelled(groups + [g], seen + [s])
  {
    forall v ensures LabelsOn(seen + [s], v) == LabelsOn(seen, v) + if s.volume == v then [s.tag] else [] {
      OneMoreLabel(seen, s, v);
    }
    hide LabelsOn;
    var after := groups + [g];
    forall v | forall i :: 0 <= i < |after| ==> after[i].volume != v ensures LabelsOn(seen + [s], v) == [] {
      assert after[|groups|].volume == s.volume;
      forall i | 0 <= i < |groups| ensures groups[i].volume != v { assert after[i].volume == groups[i].volume; }
    }
  }

  lemma WithSourceLabelled(groups: seq<Group>, c: Config, seen: seq<Source>, s: Source)
    requires Labelled(groups, seen)
    ensures Labelled(WithSource(groups, c, s), seen + [s])
  {
    hide Labelled, WithSource;
    var at, g := WithSourceIs(groups, c, s);
    if at < |groups| {
      OldGroupLabelled(groups, seen, s, at, g);
    } else {
      NewGroupLabelled(groups, seen, s, g);
    }
  }

  lemma {:induction false} GroupsLabelled(groups: seq<Group>, c: Config, seen: seq<Source>, sources: seq<Source>)
    requires Labelled(groups, seen)
    ensures Labelled(GroupsFrom(groups, c, sources), seen + sources)
    decreases |sources|
  {
    hide Labelled, WithSource;
    if sources == [] {
      assert seen + sources == seen;
    } else {
      WithSourceLabelled(groups, c, seen, sources[0]);
      GroupsLabelled(WithSource(groups, c, sources[0]), c, seen + [sources[0]], sources[1..]);
      assert seen + [sources[0]] + sources[1..] == seen + sources;
    }
  }

  // ---------------------------------------------------------------------
  // The report.

  /** Some live entry on the volume has that name, and is not a top level in a
      source that sends to a mirror. */
  ghost predicate Backed(c: Config, volume: string, name: string) {
    exists s, e :: s in c.sources && s.volume == volume && e in s.subvolumes && e.name == name &&
                   e.retired == None && !TopAtMirror(c, s, e)
  }

  lemma BackedMeans(c: Config, v: string, n: string)
    ensures BackedUpOn(c, v, n) <==> Backed(c, v, n)
  {
    hide RefusedTop, TopAtMirror;
    forall s, e ensures RefusedTop(c, s, e) <==> TopAtMirror(c, s, e) { RefusedTopMeans(c, s, e); }
  }

  ghost predicate OfConfig(c: Config, volume: string) { exists s :: s in c.sources && s.volume == volume }

  lemma OfConfigMeans(c: Config, v: string)
    ensures SourcesOn(c.sources, v) != [] <==> OfConfig(c, v)
  {
    SourcesOnHolds(c.sources, v);
    var on := SourcesOn(c.sources, v);
    if on != [] { assert on[0] in on; }
  }

  lemma IsMissingMeans(c: Config, ls: seq<Listing>, v: string, n: string)
    ensures IsMissing(c, ls, v, n) <==>
            OfConfig(c, v) && Lists(ls, v, n) && !KeptOut(c, n) && !Backed(c, v, n)
  {
    OfConfigMeans(c, v);
    ListingMeans(ls, v);
    SkippedMeans(c, v, n);
    BackedMeans(c, v, n);
    hide SourcesOn, OnDisk, Lists, Skipped, SkipFor, KeptOut, KeptOutBy, BackedUpOn, Backed, OfConfig;
  }

  lemma MissingHasTags(c: Config, ls: seq<Listing>, m: Missing)
    requires m in DriftFor(c, ls).missing
    ensures m.sourceTags == LabelsOn(c.sources, m.volume)
  {
    hide InSnapshotTree, ExcludedBy, OnDisk, MissingIn, GroupsFrom, ExcludePatterns, LabelsOn;
    EmptyLabelled();
    GroupsLabelled([], c, [], c.sources);
    assert [] + c.sources == c.sources;
    MissingInHolds(ls, Groups(c), ExcludePatterns(c));
    var g :| g in Groups(c) && MissingFrom(ls, g, ExcludePatterns(c), m);
    var i :| 0 <= i < |Groups(c)| && Groups(c)[i] == g;
  }

  lemma EmptyLabelled()
    ensures Labelled([], [])
  {
  }

  /** What is reported missing, exactly, with every source of its volume. */
  lemma MissingExactly(c: Config, ls: seq<Listing>)
    ensures forall m :: m in DriftFor(c, ls).missing <==>
              OfConfig(c, m.volume) && Lists(ls, m.volume, m.name) && !KeptOut(c, m.name) &&
              !Backed(c, m.volume, m.name) && m.sourceTags == LabelsOn(c.sources, m.volume)
  {
    hide DriftFor, IsMissing, OfConfig, Lists, KeptOut, Backed, LabelsOn;
    MissingMeans(c, ls);
    forall v, n
      ensures IsMissing(c, ls, v, n) <==> OfConfig(c, v) && Lists(ls, v, n) && !KeptOut(c, n) && !Backed(c, v, n)
    {
      IsMissingMeans(c, ls, v, n);
    }
    forall m | m in DriftFor(c, ls).missing ensures m.sourceTags == LabelsOn(c.sources, m.volume) {
      MissingHasTags(c, ls, m);
    }
    forall m: Missing | IsMissing(c, ls, m.volume, m.name) && m.sourceTags == LabelsOn(c.sources, m.volume)
      ensures m in DriftFor(c, ls).missing
    {
      var x :| x in DriftFor(c, ls).missing && x.volume == m.volume && x.name == m.name;
      assert x == m;
    }
  }

  /** A live entry whose subvolume is gone; a top level never is. */
  ghost predicate Gone(c: Config, ls: seq<Listing>, s: Source, e: Entry) {
    s in c.sources && e in s.subvolumes && e.retired == None && e.name != "." && ReadOn(ls, s.volume) &&
    !Lists(ls, s.volume, e.name)
  }

  lemma GoneMeans(c: Config, ls: seq<Listing>, s: Source, e: Entry)
    ensures s in c.sources && GoneIn(ls, s, e) <==> Gone(c, ls, s, e)
  {
    hide OnDisk, ReadOn, Lists, Read, Found;
    ListingMeans(ls, s.volume);
  }

  /** What is reported stale, exactly. */
  lemma StaleExactly(c: Config, ls: seq<Listing>)
    ensures forall t :: t in DriftFor(c, ls).stale <==>
              exists s, e :: Gone(c, ls, s, e) && t.volume == s.volume && t.sourceTag == s.tag && t.name == e.name
  {
    hide MissingIn, FailedIn, CheckedIn, GroupsFrom, StaleIn, GoneIn, Gone;
    StaleInHolds(ls, c.sources);
    forall s, e ensures s in c.sources && GoneIn(ls, s, e) <==> Gone(c, ls, s, e) { GoneMeans(c, ls, s, e); }
    forall t: Stale, s: Source, e: Entry
      ensures t == Stale(s.volume, s.tag, e.name) <==>
              t.volume == s.volume && t.sourceTag == s.tag && t.name == e.name {}
  }

  lemma {:induction false} CheckedOrFailed(ls: seq<Listing>, groups: seq<Group>)
    ensures CheckedIn(ls, groups) + |FailedIn(ls, groups)| == |GroupVolumesOf(groups)|
  {
    hide OnDisk;
    if groups != [] { CheckedOrFailed(ls, groups[1..]); }
  }

  /** Every volume is either counted as checked or named as failed, with the
      reason; none is counted twice. */
  lemma VolumesAccountedFor(c: Config, ls: seq<Listing>)
    ensures var r := DriftFor(c, ls);
            r.checked + |r.failed| == |Volumes(c)| &&
            forall v, why :: (v, why) in r.failed <==> OfConfig(c, v) && NotListed(ls, v, why)
    ensures Distinct(Volumes(c)) && forall v :: v in Volumes(c) <==> OfConfig(c, v)
  {
    SameFailures(c, ls);
    FailedMean(c, ls);
    CheckedOrFailed(ls, Groups(c));
    GroupVolumes(c);
    VolumesFromDistinct([], c.sources);
    forall v: string ensures v in Volumes(c) <==> OfConfig(c, v) {
      VolumeHasSources(c, v);
      OfConfigMeans(c, v);
    }
    hide MissingIn, StaleIn, GroupsFrom, VolumesFrom, NotListed, OfConfig, PlanFor, Distinct;
  }

  // ---------------------------------------------------------------------
  // In what order.

  function MissingNames(missing: seq<Missing>): seq<(string, string)> {
    seq(|missing|, i requires 0 <= i < |missing| => (missing[i].volume, missing[i].name))
  }

  lemma {:induction false} GroupInOrder(g: Group, names: seq<string>)
    requires Ascending(names)
    ensures var s := MissingNames(MissingOf(g, names));
            |s| == |names| && Only(s, g.volume) && InOrder(s) && forall i :: 0 <= i < |s| ==> s[i].1 == names[i]
  {
    if names != [] {
      assert forall i :: 0 < i < |names| ==> names[i] == names[1..][i - 1];
      GroupInOrder(g, names[1..]);
      var first, rest := [Missing(g.volume, g.sourceTags, names[0])], MissingOf(g, names[1..]);
      assert MissingNames(first + rest) == MissingNames(first) + MissingNames(rest);
    }
  }

  lemma {:induction false} GroupsInOrder(ls: seq<Listing>, groups: seq<Group>, patterns: seq<string>)
    requires Distinct(GroupVolumesOf(groups))
    ensures var s := MissingNames(MissingIn(ls, groups, patterns));
            InOrder(s) && forall i :: 0 <= i < |s| ==> s[i].0 in GroupVolumesOf(groups)
  {
    hide OnDisk, NotBackedUp, MissingOf, Sorted;
    if groups != [] {
      var g, vs := groups[0], GroupVolumesOf(groups);
      assert vs[1..] == GroupVolumesOf(groups[1..]);
      assert forall i :: 0 < i < |vs| ==> vs[i] == vs[1..][i - 1];
      assert vs[0] !in vs[1..];
      GroupsInOrder(ls, groups[1..], patterns);
      if OnDisk(ls, g.volume).Ok? {
        var names := NotBackedUp(OnDisk(ls, g.volume).value, g.configured, patterns);
        SortedMeans(names);
        GroupInOrder(g, Sorted(names));
        var first, rest := MissingOf(g, Sorted(names)), MissingIn(ls, groups[1..], patterns);
        assert MissingNames(first + rest) == MissingNames(first) + MissingNames(rest);
        OrderTogether(MissingNames(first), MissingNames(rest), g.volume);
      }
    }
  }

  /** One volume's missing subvolumes are listed in the order of their names. */
  lemma MissingInOrder(c: Config, ls: seq<Listing>)
    ensures InOrder(MissingNames(DriftFor(c, ls).missing))
  {
    GroupVolumes(c);
    VolumesFromDistinct([], c.sources);
    hide GroupsFrom, MissingIn, StaleIn, VolumesFrom, GroupVolumesOf, InOrder;
    GroupsInOrder(ls, Groups(c), ExcludePatterns(c));
  }
}
