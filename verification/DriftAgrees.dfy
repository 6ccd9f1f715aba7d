// The planner and the drift detector, written apart, agree
// (indexer/src/adopt.rs, indexer/src/doctor.rs).
module DriftAgrees {
  import opened Base
  import opened Config
  import opened Glob
  import opened Sync
  import opened SyncFacts
  import opened Adopting
  import opened Settle
  import opened Settled
  import opened Fixpoint
  import opened Drift

  // ---------------------------------------------------------------------
  // What the report holds.

  ghost predicate NamedIn(c: Config, sources: seq<Source>, v: string, n: string) {
    exists s, e :: s in sources && e in s.subvolumes && s.volume == v && BackedUp(c, s, e) && e.name == n
  }

  ghost predicate Describe(groups: seq<Group>, c: Config, seen: seq<Source>) {
    (forall i, j :: 0 <= i < j < |groups| ==> groups[i].volume != groups[j].volume) &&
    (forall s :: s in seen ==> exists i :: 0 <= i < |groups| && groups[i].volume == s.volume) &&
    (forall i, n :: 0 <= i < |groups| ==> (n in groups[i].configured <==> NamedIn(c, seen, groups[i].volume, n)))
  }

  lemma {:induction false} WithNamesHolds(configured: seq<string>, c: Config, s: Source, entries: seq<Entry>)
    ensures forall n :: n in WithNames(configured, c, s, entries) <==>
              n in configured || exists e :: e in entries && BackedUp(c, s, e) && e.name == n
    decreases |entries|
  {
    hide BackedUp;
    if entries != [] {
      assert entries == [entries[0]] + entries[1..];
      if BackedUp(c, s, entries[0]) && entries[0].name !in configured {
        WithNamesHolds(configured + [entries[0].name], c, s, entries[1..]);
      } else {
        WithNamesHolds(configured, c, s, entries[1..]);
      }
    }
  }

  lemma WithSourceDescribes(groups: seq<Group>, c: Config, seen: seq<Source>, s: Source)
    requires Describe(groups, c, seen)
    ensures Describe(WithSource(groups, c, s), c, seen + [s])
  {
    hide BackedUp, WithNames;
    var at := GroupIndex(groups, s.volume);
    var widened := if at < |groups| then groups else groups + [Group(s.volume, [], [])];
    var after := WithSource(groups, c, s);
    WithNamesHolds(widened[at].configured, c, s, s.subvolumes);
    forall i, n | 0 <= i < |after|
      ensures n in after[i].configured <==> NamedIn(c, seen + [s], after[i].volume, n)
    {
      OneMoreNamed(c, seen, s, after[i].volume, n);
      if i != at {
        assert after[i] == groups[i] && groups[i].volume != s.volume;
      } else if at == |groups| {
        assert !NamedIn(c, seen, s.volume, n);
      }
    }
    forall t | t in seen + [s] ensures exists i :: 0 <= i < |after| && after[i].volume == t.volume {
      if t in seen {
        var i :| 0 <= i < |groups| && groups[i].volume == t.volume;
        assert after[i].volume == t.volume;
      } else {
        assert after[at].volume == s.volume;
      }
    }
  }

  lemma OneMoreNamed(c: Config, seen: seq<Source>, s: Source, v: string, n: string)
    ensures NamedIn(c, seen + [s], v, n) <==>
            NamedIn(c, seen, v, n) ||
            (s.volume == v && exists e :: e in s.subvolumes && BackedUp(c, s, e) && e.name == n)
  {
    hide BackedUp;
  }

  lemma {:induction false} GroupsDescribe(groups: seq<Group>, c: Config, seen: seq<Source>, sources: seq<Source>)
    requires Describe(groups, c, seen)
    ensures Describe(GroupsFrom(groups, c, sources), c, seen + sources)
    decreases |sources|
  {
    hide Describe, WithSource;
    if sources == [] {
      assert seen + sources == seen;
    } else {
      WithSourceDescribes(groups, c, seen, sources[0]);
      GroupsDescribe(WithSource(groups, c, sources[0]), c, seen + [sources[0]], sources[1..]);
      assert seen + [sources[0]] + sources[1..] == seen + sources;
    }
  }

  ghost predicate BackedUpOn(c: Config, v: string, n: string) {
    exists s, e :: Has(c, s, e) && s.volume == v && BackedUp(c, s, e) && e.name == n
  }

  lemma {:induction false} NotBackedUpHolds(found: seq<string>, configured: seq<string>, patterns: seq<string>)
    ensures forall n :: n in NotBackedUp(found, configured, patterns) <==>
              n in found && !InSnapshotTree(n) && ExcludedBy(n, patterns).None? && n !in configured
  {
    hide InSnapshotTree, ExcludedBy;
    if found != [] {
      NotBackedUpHolds(found[1..], configured, patterns);
      assert found == [found[0]] + found[1..];
    }
  }

  lemma {:induction false} MissingOfHolds(g: Group, names: seq<string>)
    ensures forall m :: m in MissingOf(g, names) <==> m.name in names && m == Missing(g.volume, g.sourceTags, m.name)
  {
    if names != [] {
      MissingOfHolds(g, names[1..]);
      assert names == [names[0]] + names[1..];
    }
  }

  ghost predicate MissingFrom(ls: seq<Listing>, g: Group, patterns: seq<string>, m: Missing) {
    Read(ls, g.volume) && m == Missing(g.volume, g.sourceTags, m.name) && m.name in Found(ls, g.volume) &&
    !InSnapshotTree(m.name) && ExcludedBy(m.name, patterns).None? && m.name !in g.configured
  }

  lemma {:induction false} MissingInHolds(ls: seq<Listing>, groups: seq<Group>, patterns: seq<string>)
    ensures forall m :: m in MissingIn(ls, groups, patterns) <==>
              exists g :: g in groups && MissingFrom(ls, g, patterns, m)
  {
    hide InSnapshotTree, ExcludedBy, OnDisk, NotBackedUp, MissingOf;
    if groups != [] {
      var g := groups[0];
      assert groups == [g] + groups[1..];
      MissingInHolds(ls, groups[1..], patterns);
      if Read(ls, g.volume) {
        var names := NotBackedUp(Found(ls, g.volume), g.configured, patterns);
        NotBackedUpHolds(Found(ls, g.volume), g.configured, patterns);
        SortedMeans(names);
        MissingOfHolds(g, Sorted(names));
        assert forall m :: m in MissingOf(g, Sorted(names)) <==> MissingFrom(ls, g, patterns, m);
      }
    }
  }

  ghost predicate IsMissing(c: Config, ls: seq<Listing>, v: string, n: string) {
    SourcesOn(c.sources, v) != [] && Read(ls, v) && n in Found(ls, v) && !Skipped(c, n) && !BackedUpOn(c, v, n)
  }

  /** The missing list is exactly what is on a read volume, not left out on
      purpose, and backed up by no entry of it. */
  lemma MissingMeans(c: Config, ls: seq<Listing>)
    ensures forall m :: m in DriftFor(c, ls).missing ==> IsMissing(c, ls, m.volume, m.name)
    ensures forall v, n :: IsMissing(c, ls, v, n) ==>
              exists m :: m in DriftFor(c, ls).missing && m.volume == v && m.name == n
  {
    hide InSnapshotTree, ExcludedBy, OnDisk, MissingIn, GroupsFrom, BackedUp, SourcesOn, VolumesFrom, ExcludePatterns;
    var groups := Groups(c);
    GroupsDescribe([], c, [], c.sources);
    assert [] + c.sources == c.sources;
    MissingInHolds(ls, groups, ExcludePatterns(c));
    GroupVolumes(c);
    forall m | m in DriftFor(c, ls).missing ensures IsMissing(c, ls, m.volume, m.name) {
      var g :| g in groups && MissingFrom(ls, g, ExcludePatterns(c), m);
      var i :| 0 <= i < |groups| && groups[i] == g;
      GroupOfVolume(groups, g.volume);
      VolumeHasSources(c, g.volume);
      assert NamedIn(c, c.sources, g.volume, m.name) <==> BackedUpOn(c, g.volume, m.name);
    }
    forall v, n | IsMissing(c, ls, v, n)
        ensures exists m :: m in DriftFor(c, ls).missing && m.volume == v && m.name == n {
      VolumeHasSources(c, v);
      GroupOfVolume(groups, v);
      var i :| 0 <= i < |groups| && groups[i].volume == v;
      assert NamedIn(c, c.sources, v, n) <==> BackedUpOn(c, v, n);
      var m := Missing(v, groups[i].sourceTags, n);
      assert MissingFrom(ls, groups[i], ExcludePatterns(c), m);
      assert groups[i] in groups;
    }
  }

  lemma {:induction false} LiveNamesHolds(entries: seq<Entry>)
    ensures forall n :: n in LiveNames(entries) <==> exists e :: e in entries && e.Live() && e.name == n
  {
    if entries != [] {
      LiveNamesHolds(entries[1..]);
      assert entries == [entries[0]] + entries[1..];
    }
  }

  lemma {:induction false} NotOnDiskHolds(found: seq<string>, configured: seq<string>)
    ensures forall n :: n in NotOnDisk(found, configured) <==> n in configured && n != TOP_LEVEL && n !in found
  {
    if configured != [] {
      NotOnDiskHolds(found, configured[1..]);
      assert configured == [configured[0]] + configured[1..];
    }
  }

  lemma {:induction false} StaleOfHolds(s: Source, names: seq<string>)
    ensures forall t :: t in StaleOf(s, names) <==> t.name in names && t == Stale(s.volume, s.tag, t.name)
  {
    if names != [] {
      StaleOfHolds(s, names[1..]);
      assert names == [names[0]] + names[1..];
    }
  }

  ghost predicate GoneIn(ls: seq<Listing>, s: Source, e: Entry) {
    e in s.subvolumes && Read(ls, s.volume) && e.Live() && e.name != TOP_LEVEL && e.name !in Found(ls, s.volume)
  }

  ghost predicate StaleFrom(ls: seq<Listing>, s: Source, t: Stale) {
    exists e :: GoneIn(ls, s, e) && t == Stale(s.volume, s.tag, e.name)
  }

  lemma StaleOfSource(ls: seq<Listing>, s: Source)
    requires Read(ls, s.volume)
    ensures forall t :: t in StaleOf(s, ComputeStale(Found(ls, s.volume), LiveNames(s.subvolumes))) <==>
            StaleFrom(ls, s, t)
  {
    hide OnDisk;
    var live := LiveNames(s.subvolumes);
    var found := Found(ls, s.volume);
    LiveNamesHolds(s.subvolumes);
    NotOnDiskHolds(found, live);
    SortedMeans(NotOnDisk(found, live));
    StaleOfHolds(s, ComputeStale(found, live));
  }

  lemma {:induction false} StaleInHolds(ls: seq<Listing>, sources: seq<Source>)
    ensures forall t :: t in StaleIn(ls, sources) <==> exists s :: s in sources && StaleFrom(ls, s, t)
  {
    hide OnDisk, ComputeStale, StaleOf, LiveNames, StaleFrom;
    if sources != [] {
      assert sources == [sources[0]] + sources[1..];
      StaleInHolds(ls, sources[1..]);
      NoneStaleUnread(ls, sources[0]);
      if Read(ls, sources[0].volume) {
        StaleOfSource(ls, sources[0]);
        var first := StaleOf(sources[0], ComputeStale(Found(ls, sources[0].volume), LiveNames(sources[0].subvolumes)));
        assert StaleIn(ls, sources) == first + StaleIn(ls, sources[1..]);
        assert forall t :: t in StaleIn(ls, sources) <==> t in first || t in StaleIn(ls, sources[1..]);
      }
    }
  }

  lemma NoneStaleUnread(ls: seq<Listing>, s: Source)
    ensures !Read(ls, s.volume) ==> forall t :: !StaleFrom(ls, s, t)
  {
  }

  lemma {:induction false} FailedInIsVolumes(c: Config, ls: seq<Listing>, groups: seq<Group>)
    requires forall i :: 0 <= i < |groups| ==> SourcesOn(c.sources, groups[i].volume) != []
    ensures FailedIn(ls, groups) == VolumesPlan(c, ls, GroupVolumesOf(groups)).failed
  {
    hide KnownPlan, UnknownPlan, Unknown, Pairs, SourcesOn;
    if groups != [] {
      FailedInIsVolumes(c, ls, groups[1..]);
      var v := groups[0].volume;
      var sources := SourcesOn(c.sources, v);
      if Read(ls, v) {
        KnownPlanLists(c, v, Found(ls, v), Pairs(sources));
        UnknownPlanLists(c, v, sources, Unknown(Found(ls, v), sources));
      }
    }
  }

  lemma GroupsHaveSources(c: Config)
    ensures forall i :: 0 <= i < |Groups(c)| ==> SourcesOn(c.sources, Groups(c)[i].volume) != []
  {
    hide GroupsFrom, SourcesOn, VolumesFrom;
    GroupVolumes(c);
    forall i | 0 <= i < |Groups(c)| ensures SourcesOn(c.sources, Groups(c)[i].volume) != [] {
      GroupOfVolume(Groups(c), Groups(c)[i].volume);
      VolumeHasSources(c, Groups(c)[i].volume);
    }
  }

  // ---------------------------------------------------------------------
  // Agreement on one configuration.

  ghost predicate AdoptsName(p: Plan, v: string, n: string) { exists a :: a in p.adopt && a.volume == v && a.name == n }

  ghost predicate RevivesName(c: Config, p: Plan, v: string, n: string) {
    exists s, e :: Has(c, s, e) && s.volume == v && e.name == n && RefOf(s, e) in p.revive
  }

  ghost predicate Reports(p: Plan, v: string, n: string) {
    exists u :: u in p.unplaceable && u.volume == v && u.name == n
  }

  ghost predicate ReportsMissing(r: Report, v: string, n: string) {
    exists m :: m in r.missing && m.volume == v && m.name == n
  }

  lemma ReportsMissingMeans(c: Config, ls: seq<Listing>, v: string, n: string)
    ensures ReportsMissing(DriftFor(c, ls), v, n) <==> IsMissing(c, ls, v, n)
  {
    hide DriftFor, IsMissing;
    MissingMeans(c, ls);
  }

  lemma AdoptsNameMeans(c: Config, ls: seq<Listing>, v: string, n: string)
    ensures AdoptsName(PlanFor(c, ls), v, n) <==> AdoptsIn(c, ls, v, n)
  {
    hide PlanFor, Place, Skipped, SourcesOn, OnDisk, Configured;
    PlanAdoptions(c, ls);
    if AdoptsName(PlanFor(c, ls), v, n) {
      var a :| a in PlanFor(c, ls).adopt && a.volume == v && a.name == n;
      var w :| AdoptionOn(c, ls, w, a);
      var m :| AdoptsIn(c, ls, w, m) && PlaceIn(c, w, m) == Ok(a);
      UnknownHasSources(c, ls, w, m);
      PlacedName(c, w, SourcesOn(c.sources, w), m);
    }
    if AdoptsIn(c, ls, v, n) {
      UnknownHasSources(c, ls, v, n);
      PlacedName(c, v, SourcesOn(c.sources, v), n);
      var a := PlaceIn(c, v, n).value;
      assert AdoptionOn(c, ls, v, a);
    }
  }

  lemma NotBackedUpIfUnknown(c: Config, ls: seq<Listing>, v: string, n: string)
    requires UnknownIn(c, ls, v, n)
    ensures !BackedUpOn(c, v, n)
  {
    hide OnDisk, BackedUpOn, SourcesOn, Configured;
    if BackedUpOn(c, v, n) { BackedUpIsConfigured(c, v, n); }
  }

  lemma BackedUpIsConfigured(c: Config, v: string, n: string)
    requires BackedUpOn(c, v, n)
    ensures Configured(SourcesOn(c.sources, v), n)
  {
    hide BackedUp, SourcesOn, Configured;
    var s, e :| Has(c, s, e) && s.volume == v && BackedUp(c, s, e) && e.name == n;
    EntryConfigures(c, s, e);
  }

  lemma EntryConfigures(c: Config, s: Source, e: Entry)
    requires Has(c, s, e)
    ensures Configured(SourcesOn(c.sources, s.volume), e.name)
  {
    var i :| 0 <= i < |c.sources| && c.sources[i] == s;
    var k :| 0 <= k < |s.subvolumes| && s.subvolumes[k] == e;
    ConfiguredBy(c, i, k);
  }

  /** What is missing and known to some entry is revived, or is a top level
      reported with its mirrors. */
  lemma MissingKnown(c: Config, ls: seq<Listing>, v: string, n: string)
    requires IsMissing(c, ls, v, n) && Configured(SourcesOn(c.sources, v), n)
    ensures RevivesName(c, PlanFor(c, ls), v, n) || Reports(PlanFor(c, ls), v, n)
  {
    hide PlanFor, OnDisk, Skipped, MirrorLabels;
    SourcesOnHolds(c.sources, v);
    var on := SourcesOn(c.sources, v);
    var i :| 0 <= i < |on| && HasEntry(on[i].subvolumes, n);
    var s := on[i];
    assert s in on;
    var k :| 0 <= k < |s.subvolumes| && s.subvolumes[k].name == n;
    var e := s.subvolumes[k];
    assert Has(c, s, e);
    if RefusedTop(c, s, e) {
      PlanRefusals(c, ls);
      assert RefusedIn(c, ls, s, e);
      var u := RefusalOf(c, v, s, e);
      assert RefusalOn(c, ls, v, u);
      assert u in PlanFor(c, ls).unplaceable;
    } else {
      assert !BackedUp(c, s, e);
      PlanMarks(c, ls);
      assert RevivesIn(c, ls, s, e);
      assert RefOf(s, e) in PlanFor(c, ls).revive;
    }
  }

  lemma MissingUnknown(c: Config, ls: seq<Listing>, v: string, n: string)
    requires IsMissing(c, ls, v, n) && !Configured(SourcesOn(c.sources, v), n)
    ensures AdoptsName(PlanFor(c, ls), v, n) || Reports(PlanFor(c, ls), v, n)
  {
    hide PlanFor, OnDisk, Skipped, Place, SourcesOn, Configured;
    assert UnknownIn(c, ls, v, n);
    AdoptsNameMeans(c, ls, v, n);
    if PlaceIn(c, v, n).Err? {
      PlanRefusals(c, ls);
      var u := Unplaceable(v, n, PlaceIn(c, v, n).error);
      assert RefusalOn(c, ls, v, u);
      assert u in PlanFor(c, ls).unplaceable;
    }
  }

  /** Planner and detector agree: what is adopted was missing; what is missing
      is adopted, revived or reported unplaceable; stale is retired, the top
      level aside; and the same volumes failed, for the same reasons. */
  lemma PlannerAndDetectorAgree(c: Config, ls: seq<Listing>)
    ensures forall v, n :: AdoptsName(PlanFor(c, ls), v, n) ==> ReportsMissing(DriftFor(c, ls), v, n)
    ensures forall v, n :: ReportsMissing(DriftFor(c, ls), v, n) ==>
              AdoptsName(PlanFor(c, ls), v, n) || RevivesName(c, PlanFor(c, ls), v, n) || Reports(PlanFor(c, ls), v, n)
    ensures forall r: EntryRef :: r.name != TOP_LEVEL ==>
              (r in PlanFor(c, ls).retire <==>
               exists t :: t in DriftFor(c, ls).stale && t.sourceTag == r.sourceTag && t.name == r.name)
    ensures forall t :: t in DriftFor(c, ls).stale ==> t.name != TOP_LEVEL
    ensures DriftFor(c, ls).failed == PlanFor(c, ls).failed
  {
    hide PlanFor, DriftFor, IsMissing, AdoptsName, RevivesName, Reports, ReportsMissing;
    forall v, n | AdoptsName(PlanFor(c, ls), v, n) ensures ReportsMissing(DriftFor(c, ls), v, n) {
      AdoptedWasMissing(c, ls, v, n);
    }
    forall v, n | ReportsMissing(DriftFor(c, ls), v, n)
      ensures AdoptsName(PlanFor(c, ls), v, n) || RevivesName(c, PlanFor(c, ls), v, n) || Reports(PlanFor(c, ls), v, n)
    {
      ReportsMissingMeans(c, ls, v, n);
      if Configured(SourcesOn(c.sources, v), n) {
        MissingKnown(c, ls, v, n);
      } else {
        MissingUnknown(c, ls, v, n);
      }
    }
    StaleIsRetired(c, ls);
    SameFailures(c, ls);
  }

  lemma AdoptedWasMissing(c: Config, ls: seq<Listing>, v: string, n: string)
    requires AdoptsName(PlanFor(c, ls), v, n)
    ensures ReportsMissing(DriftFor(c, ls), v, n)
  {
    hide PlanFor, DriftFor, SourcesOn, OnDisk, Skipped, Place, Configured, BackedUpOn, ReportsMissing, AdoptsName;
    AdoptsNameMeans(c, ls, v, n);
    NotBackedUpIfUnknown(c, ls, v, n);
    ReportsMissingMeans(c, ls, v, n);
  }

  lemma StaleIsRetired(c: Config, ls: seq<Listing>)
    ensures forall r: EntryRef :: r.name != TOP_LEVEL ==>
              (r in PlanFor(c, ls).retire <==>
               exists t :: t in DriftFor(c, ls).stale && t.sourceTag == r.sourceTag && t.name == r.name)
    ensures forall t :: t in DriftFor(c, ls).stale ==>
              t.name != TOP_LEVEL && EntryRef(t.sourceTag, t.name) in PlanFor(c, ls).retire
  {
    hide PlanFor, OnDisk, StaleIn, MissingIn, GroupsFrom, MirrorLabels;
    PlanMarks(c, ls);
    StaleInHolds(ls, c.sources);
    forall r: EntryRef | r.name != TOP_LEVEL
      ensures r in PlanFor(c, ls).retire <==>
              exists t :: t in DriftFor(c, ls).stale && t.sourceTag == r.sourceTag && t.name == r.name
    {
      if r in PlanFor(c, ls).retire {
        var s, e :| RetiresIn(c, ls, s, e) && r == RefOf(s, e);
        assert GoneIn(ls, s, e);
        assert StaleFrom(ls, s, Stale(s.volume, s.tag, e.name));
      }
      if exists t :: t in DriftFor(c, ls).stale && t.sourceTag == r.sourceTag && t.name == r.name {
        var t :| t in DriftFor(c, ls).stale && t.sourceTag == r.sourceTag && t.name == r.name;
        var s :| s in c.sources && StaleFrom(ls, s, t);
        var e :| GoneIn(ls, s, e) && t == Stale(s.volume, s.tag, e.name);
        assert RetiresIn(c, ls, s, e);
      }
    }
  }

  lemma SameFailures(c: Config, ls: seq<Listing>)
    ensures DriftFor(c, ls).failed == PlanFor(c, ls).failed
  {
    hide GroupsFrom, FailedIn, VolumesPlan, VolumesFrom, SourcesOn, MissingIn, StaleIn, CheckedIn;
    GroupsHaveSources(c);
    FailedInIsVolumes(c, ls, Groups(c));
    GroupVolumes(c);
  }

  // ---------------------------------------------------------------------
  // Agreement after the plan is carried out.

  lemma AdoptedIsBackedUp(c: Config, ls: seq<Listing>, p: Plan, today: string, out: Config, v: string, n: string)
    requires Outcome(c, ls, p, today, out) && AdoptsIn(c, ls, v, n)
    ensures BackedUpOn(out, v, n)
  {
    hide PlanFor, Outcome, UnknownIn, Skipped, Place, MirrorLabels, SourcesOn, LikeFirst, IsCandidate;
    AdoptsNameMeans(c, ls, v, n);
    var a :| a in PlanFor(c, ls).adopt && a.volume == v && a.name == n;
    var i, k := AdoptedEntries(c, ls, p, today, out, a);
    var t, f := out.sources[i], out.sources[i].subvolumes[k];
    if n == TOP_LEVEL { AdoptedTopHome(c, ls, p, today, out, i, k, a); }
    assert Has(out, t, f) && BackedUp(out, t, f);
  }

  /** An entry whose subvolume is there is backed up afterwards, unless it is
      a top level reported with its mirrors. */
  lemma PresentIsBackedUp(c: Config, ls: seq<Listing>, p: Plan, today: string, out: Config, s: Source, e: Entry)
    requires Outcome(c, ls, p, today, out) && Has(c, s, e) && Read(ls, s.volume)
    requires e.name in Found(ls, s.volume) && !RefusedTop(c, s, e)
    ensures BackedUpOn(out, s.volume, e.name)
  {
    hide PlanFor, WellNamed, Grown, OnDisk, MirrorLabels;
    MarkedExactly(c, ls, s, e);
    OldEntries(c, ls, p, today, out);
    var i :| 0 <= i < |c.sources| && c.sources[i] == s;
    var k :| 0 <= k < |s.subvolumes| && s.subvolumes[k] == e;
    assert IsOld(c, i, k);
    var t, f := out.sources[i], out.sources[i].subvolumes[k];
    assert Same(s, t);
    SameMirrors(c.targets, s, t);
    assert f.Live();
    assert Has(out, t, f) && BackedUp(out, t, f);
  }

  lemma StillMissingWasReported(c: Config, ls: seq<Listing>, p: Plan, today: string, out: Config, v: string, n: string)
    requires Outcome(c, ls, p, today, out) && IsMissing(out, ls, v, n)
    ensures Reports(PlanFor(c, ls), v, n)
  {
    hide PlanFor, Outcome, OnDisk, Skipped, Place, SourcesOn, BackedUpOn, ReportsMissing;
    OutcomeFollows(c, ls, p, today, out);
    OnVolumeBoth(c, out, v);
    OutcomeIs(c, ls, p, today, out);
    SamePatterns(c, out);
    var on := SourcesOn(c.sources, v);
    if Configured(on, n) {
      SourcesOnHolds(c.sources, v);
      var i :| 0 <= i < |on| && HasEntry(on[i].subvolumes, n);
      var s := on[i];
      assert s in on;
      var k :| 0 <= k < |s.subvolumes| && s.subvolumes[k].name == n;
      var e := s.subvolumes[k];
      assert e in s.subvolumes;
      if !RefusedTop(c, s, e) {
        PresentIsBackedUp(c, ls, p, today, out, s, e);
      } else {
        RefusedIsReported(c, ls, s, e);
      }
    } else {
      if AdoptsIn(c, ls, v, n) {
        AdoptedIsBackedUp(c, ls, p, today, out, v, n);
      } else {
        UnplacedIsReported(c, ls, v, n);
      }
    }
  }

  lemma RefusedIsReported(c: Config, ls: seq<Listing>, s: Source, e: Entry)
    requires Has(c, s, e) && Read(ls, s.volume) && RefusedTop(c, s, e)
    ensures Reports(PlanFor(c, ls), s.volume, e.name)
  {
    hide PlanFor, OnDisk, RefusedTop;
    PlanRefusals(c, ls);
    var u := RefusalOf(c, s.volume, s, e);
    assert RefusedIn(c, ls, s, e);
    assert RefusalOn(c, ls, s.volume, u);
    assert u in PlanFor(c, ls).unplaceable;
  }

  lemma UnplacedIsReported(c: Config, ls: seq<Listing>, v: string, n: string)
    requires UnknownIn(c, ls, v, n) && !Skipped(c, n) && PlaceIn(c, v, n).Err?
    ensures Reports(PlanFor(c, ls), v, n)
  {
    hide PlanFor, OnDisk, Skipped, Place, SourcesOn, Configured;
    PlanRefusals(c, ls);
    var u := Unplaceable(v, n, PlaceIn(c, v, n).error);
    assert RefusalOn(c, ls, v, u);
    assert u in PlanFor(c, ls).unplaceable;
  }

  /** After the plan is carried out nothing is stale, and whatever the
      detector still misses, the plan had reported as unplaceable. */
  lemma DetectorQuietAfterPlan(c: Config, ls: seq<Listing>, today: string, out: Config)
    requires Outcome(c, ls, PlanFor(c, ls), today, out)
    ensures DriftFor(out, ls).stale == []
    ensures forall v, n :: ReportsMissing(DriftFor(out, ls), v, n) ==> Reports(PlanFor(c, ls), v, n)
  {
    hide PlanFor, DriftFor, Outcome, IsMissing, Reports, ReportsMissing;
    NoMarksAgain(c, ls, PlanFor(c, ls), today, out);
    StaleIsRetired(out, ls);
    HeadIsMember(DriftFor(out, ls).stale);
    forall v, n | ReportsMissing(DriftFor(out, ls), v, n) ensures Reports(PlanFor(c, ls), v, n) {
      ReportsMissingMeans(out, ls, v, n);
      StillMissingWasReported(c, ls, PlanFor(c, ls), today, out, v, n);
    }
  }
}
