// The independent drift detector (indexer/src/doctor.rs): what is on disk and
// not backed up, what is configured and gone.
module Drift {
  import opened Base
  import opened Config
  import opened Glob
  import opened Sync

  /** All sources of one volume, with the names some live entry backs up. */
  datatype Group = Group(volume: string, sourceTags: seq<string>, configured: seq<string>)

  datatype Missing = Missing(volume: string, sourceTags: seq<string>, name: string)

  datatype Stale = Stale(volume: string, sourceTag: string, name: string)

  datatype Report = Report(checked: nat, failed: seq<(string, string)>, missing: seq<Missing>, stale: seq<Stale>)

  // ---------------------------------------------------------------------
  // The two computations on one volume.

  ghost function NotBackedUp(found: seq<string>, configured: seq<string>, patterns: seq<string>): seq<string> {
    if found == [] then []
    else if !InSnapshotTree(found[0]) && ExcludedBy(found[0], patterns).None? && found[0] !in configured
      then [found[0]] + NotBackedUp(found[1..], configured, patterns)
    else NotBackedUp(found[1..], configured, patterns)
  }

  method ComputeMissing(found: seq<string>, configured: seq<string>, patterns: seq<string>) returns (r: seq<string>)
    ensures r == Sorted(NotBackedUp(found, configured, patterns))
  {
    var missing := [];
    for i := 0 to |found|
      invariant NotBackedUp(found, configured, patterns) == missing + NotBackedUp(found[i..], configured, patterns)
    {
      var pattern := ExcludingPattern(found[i], patterns);
      if !InSnapshotTree(found[i]) && pattern.None? && found[i] !in configured {
        missing := missing + [found[i]];
      }
    }
    assert missing == NotBackedUp(found, configured, patterns);
    r := Sorted(missing);
  }

  function NotOnDisk(found: seq<string>, configured: seq<string>): seq<string> {
    if configured == [] then []
    else if configured[0] != TOP_LEVEL && configured[0] !in found
      then [configured[0]] + NotOnDisk(found, configured[1..])
    else NotOnDisk(found, configured[1..])
  }

  function ComputeStale(found: seq<string>, configured: seq<string>): seq<string> {
    Sorted(NotOnDisk(found, configured))
  }

  // ---------------------------------------------------------------------
  // Grouping.

  /** Backed up: live, and not a top level the renderer refuses. */
  predicate BackedUp(c: Config, s: Source, e: Entry) { e.Live() && !RefusedTop(c, s, e) }

  function WithNames(configured: seq<string>, c: Config, s: Source, entries: seq<Entry>): seq<string>
    decreases |entries|
  {
    if entries == [] then configured
    else if BackedUp(c, s, entries[0]) && entries[0].name !in configured
      then WithNames(configured + [entries[0].name], c, s, entries[1..])
    else WithNames(configured, c, s, entries[1..])
  }

  function GroupIndex(groups: seq<Group>, volume: string): (i: nat)
    ensures i <= |groups|
    ensures i < |groups| ==> groups[i].volume == volume
    ensures forall j :: 0 <= j < i ==> groups[j].volume != volume
  {
    if groups == [] || groups[0].volume == volume then 0 else 1 + GroupIndex(groups[1..], volume)
  }

  function WithSource(groups: seq<Group>, c: Config, s: Source): seq<Group> {
    var i := GroupIndex(groups, s.volume);
    var widened := if i < |groups| then groups else groups + [Group(s.volume, [], [])];
    var g := widened[i];
    widened[i := Group(g.volume, g.sourceTags + [s.tag], WithNames(g.configured, c, s, s.subvolumes))]
  }

  function GroupsFrom(groups: seq<Group>, c: Config, sources: seq<Source>): seq<Group>
    decreases |sources|
  {
    if sources == [] then groups else GroupsFrom(WithSource(groups, c, sources[0]), c, sources[1..])
  }

  function Groups(c: Config): seq<Group> { GroupsFrom([], c, c.sources) }

  method GroupSourcesByVolume(c: Config) returns (groups: seq<Group>)
    ensures groups == Groups(c)
  {
    groups := [];
    for i := 0 to |c.sources|
      invariant GroupsFrom(groups, c, c.sources[i..]) == Groups(c)
    {
      var s := c.sources[i];
      var at := GroupIndex(groups, s.volume);
      var widened := groups;
      if at == |groups| { widened := groups + [Group(s.volume, [], [])]; }
      var configured := widened[at].configured;
      for k := 0 to |s.subvolumes|
        invariant WithNames(configured, c, s, s.subvolumes[k..]) ==
                  WithNames(widened[at].configured, c, s, s.subvolumes)
      {
        var e := s.subvolumes[k];
        if BackedUp(c, s, e) && e.name !in configured { configured := configured + [e.name]; }
      }
      groups := widened[at := Group(widened[at].volume, widened[at].sourceTags + [s.tag], configured)];
    }
  }

  // ---------------------------------------------------------------------
  // The report.

  function MissingOf(g: Group, names: seq<string>): seq<Missing> {
    if names == [] then [] else [Missing(g.volume, g.sourceTags, names[0])] + MissingOf(g, names[1..])
  }

  ghost function MissingIn(ls: seq<Listing>, groups: seq<Group>, patterns: seq<string>): seq<Missing> {
    if groups == [] then []
    else match OnDisk(ls, groups[0].volume)
      case Err(_) => MissingIn(ls, groups[1..], patterns)
      case Ok(found) =>
        MissingOf(groups[0], Sorted(NotBackedUp(found, groups[0].configured, patterns))) +
        MissingIn(ls, groups[1..], patterns)
  }

  function FailedIn(ls: seq<Listing>, groups: seq<Group>): seq<(string, string)> {
    if groups == [] then []
    else match OnDisk(ls, groups[0].volume)
      case Err(why) => [(groups[0].volume, why)] + FailedIn(ls, groups[1..])
      case Ok(_) => FailedIn(ls, groups[1..])
  }

  function CheckedIn(ls: seq<Listing>, groups: seq<Group>): nat {
    if groups == [] then 0
    else (if OnDisk(ls, groups[0].volume).Ok? then 1 else 0) + CheckedIn(ls, groups[1..])
  }

  function LiveNames(entries: seq<Entry>): seq<string> {
    if entries == [] then []
    else if entries[0].Live() then [entries[0].name] + LiveNames(entries[1..])
    else LiveNames(entries[1..])
  }

  function StaleOf(s: Source, names: seq<string>): seq<Stale> {
    if names == [] then [] else [Stale(s.volume, s.tag, names[0])] + StaleOf(s, names[1..])
  }

  function StaleIn(ls: seq<Listing>, sources: seq<Source>): seq<Stale> {
    if sources == [] then []
    else match OnDisk(ls, sources[0].volume)
      case Err(_) => StaleIn(ls, sources[1..])
      case Ok(found) =>
        StaleOf(sources[0], ComputeStale(found, LiveNames(sources[0].subvolumes))) + StaleIn(ls, sources[1..])
  }

  ghost function DriftFor(c: Config, ls: seq<Listing>): Report {
    Report(CheckedIn(ls, Groups(c)), FailedIn(ls, Groups(c)),
           MissingIn(ls, Groups(c), ExcludePatterns(c)), StaleIn(ls, c.sources))
  }

  function Lookup(readable: seq<(string, seq<string>)>, volume: string): (r: Option<seq<string>>)
    ensures r.Some? ==> exists k :: 0 <= k < |readable| && readable[k] == (volume, r.value)
    ensures r.None? ==> forall k :: 0 <= k < |readable| ==> readable[k].0 != volume
  {
    if readable == [] then None
    else if readable[0].0 == volume then Some(readable[0].1)
    else Lookup(readable[1..], volume)
  }

  lemma LookupAfterMore(readable: seq<(string, seq<string>)>, more: (string, seq<string>))
    ensures forall v :: Lookup(readable, v).Some? || v == more.0 ==> Lookup(readable + [more], v).Some?
  {
    forall v | Lookup(readable, v).Some? || v == more.0 ensures Lookup(readable + [more], v).Some? {
      var all := readable + [more];
      if Lookup(readable, v).Some? {
        var k :| 0 <= k < |readable| && readable[k] == (v, Lookup(readable, v).value);
        assert all[k].0 == v;
      } else {
        assert all[|readable|].0 == v;
      }
    }
  }

  function GroupVolumesOf(groups: seq<Group>): seq<string> {
    if groups == [] then [] else [groups[0].volume] + GroupVolumesOf(groups[1..])
  }

  lemma {:induction false} GroupOfVolume(groups: seq<Group>, v: string)
    ensures v in GroupVolumesOf(groups) <==> exists i :: 0 <= i < |groups| && groups[i].volume == v
  {
    if groups != [] {
      GroupOfVolume(groups[1..], v);
      if v in GroupVolumesOf(groups[1..]) {
        var i :| 0 <= i < |groups[1..]| && groups[1..][i].volume == v;
        assert groups[i + 1].volume == v;
      }
      if exists i :: 0 <= i < |groups| && groups[i].volume == v {
        var i :| 0 <= i < |groups| && groups[i].volume == v;
        if i > 0 { assert groups[1..][i - 1].volume == v; }
      }
    }
  }

  lemma {:induction false} GroupVolumesAppend(groups: seq<Group>, g: Group)
    ensures GroupVolumesOf(groups + [g]) == GroupVolumesOf(groups) + [g.volume]
  {
    if groups == [] {
      assert groups + [g] == [g];
    } else {
      GroupVolumesAppend(groups[1..], g);
      assert (groups + [g])[1..] == groups[1..] + [g];
    }
  }

  lemma {:induction false} GroupVolumesUpdate(groups: seq<Group>, i: nat, g: Group)
    requires i < |groups| && g.volume == groups[i].volume
    ensures GroupVolumesOf(groups[i := g]) == GroupVolumesOf(groups)
  {
    if i > 0 {
      GroupVolumesUpdate(groups[1..], i - 1, g);
      assert groups[i := g][1..] == groups[1..][i - 1 := g];
    }
  }

  lemma WithSourceVolumes(groups: seq<Group>, c: Config, s: Source)
    ensures GroupVolumesOf(WithSource(groups, c, s)) ==
            if s.volume in GroupVolumesOf(groups) then GroupVolumesOf(groups) else GroupVolumesOf(groups) + [s.volume]
  {
    hide WithNames;
    GroupOfVolume(groups, s.volume);
    var i := GroupIndex(groups, s.volume);
    var widened := if i < |groups| then groups else groups + [Group(s.volume, [], [])];
    if i == |groups| { GroupVolumesAppend(groups, Group(s.volume, [], [])); }
    GroupVolumesUpdate(widened, i, WithSource(groups, c, s)[i]);
  }

  lemma {:induction false} GroupVolumesFrom(groups: seq<Group>, c: Config, sources: seq<Source>)
    ensures GroupVolumesOf(GroupsFrom(groups, c, sources)) == VolumesFrom(GroupVolumesOf(groups), sources)
    decreases |sources|
  {
    hide WithSource;
    if sources != [] {
      WithSourceVolumes(groups, c, sources[0]);
      GroupVolumesFrom(WithSource(groups, c, sources[0]), c, sources[1..]);
    }
  }

  /** One group for each volume, in the planner's order. */
  lemma GroupVolumes(c: Config)
    ensures GroupVolumesOf(Groups(c)) == Volumes(c)
    ensures forall i :: 0 <= i < |c.sources| ==> c.sources[i].volume in GroupVolumesOf(Groups(c))
  {
    GroupVolumesFrom([], c, c.sources);
    VolumesFromHolds([], c.sources);
  }

  /** `readable` holds what the listings say of every readable group. */
  ghost predicate Remembers(readable: seq<(string, seq<string>)>, ls: seq<Listing>, groups: seq<Group>) {
    (forall k :: 0 <= k < |readable| ==> OnDisk(ls, readable[k].0) == Ok(readable[k].1)) &&
    (forall j :: 0 <= j < |groups| && OnDisk(ls, groups[j].volume).Ok? ==> Lookup(readable, groups[j].volume).Some?)
  }

  lemma NothingRemembered(ls: seq<Listing>)
    ensures Remembers([], ls, [])
  {
  }

  lemma RemembersOneMore(readable: seq<(string, seq<string>)>, ls: seq<Listing>, groups: seq<Group>, g: Group)
    requires Remembers(readable, ls, groups)
    ensures OnDisk(ls, g.volume).Ok? ==>
              Remembers(readable + [(g.volume, OnDisk(ls, g.volume).value)], ls, groups + [g])
    ensures OnDisk(ls, g.volume).Err? ==> Remembers(readable, ls, groups + [g])
  {
    hide OnDisk;
    if OnDisk(ls, g.volume).Ok? { LookupAfterMore(readable, (g.volume, OnDisk(ls, g.volume).value)); }
  }

  /** What one group adds to the report. */
  lemma OneGroup(ls: seq<Listing>, groups: seq<Group>, patterns: seq<string>)
    requires groups != []
    ensures var g := groups[0];
            var on := OnDisk(ls, g.volume);
            CheckedIn(ls, groups) == (if on.Ok? then 1 else 0) + CheckedIn(ls, groups[1..]) &&
            FailedIn(ls, groups) == (if on.Err? then [(g.volume, on.error)] else []) + FailedIn(ls, groups[1..]) &&
            MissingIn(ls, groups, patterns) ==
            (if on.Ok? then MissingOf(g, Sorted(NotBackedUp(on.value, g.configured, patterns))) else []) +
            MissingIn(ls, groups[1..], patterns)
  {
    hide OnDisk, MissingOf, NotBackedUp, Sorted;
  }

  method CheckGroups(ls: seq<Listing>, groups: seq<Group>, patterns: seq<string>)
    returns (report: Report, readable: seq<(string, seq<string>)>)
    ensures report == Report(CheckedIn(ls, groups), FailedIn(ls, groups), MissingIn(ls, groups, patterns), [])
    ensures Remembers(readable, ls, groups)
  {
    hide OnDisk, MissingOf, NotBackedUp, Remembers, CheckedIn, FailedIn, MissingIn, Sorted;
    NothingRemembered(ls);
    assert groups[0..] == groups;
    report := Report(0, [], [], []);
    readable := [];
    for i := 0 to |groups|
      invariant report.stale == []
      invariant CheckedIn(ls, groups) == report.checked + CheckedIn(ls, groups[i..])
      invariant FailedIn(ls, groups) == report.failed + FailedIn(ls, groups[i..])
      invariant MissingIn(ls, groups, patterns) == report.missing + MissingIn(ls, groups[i..], patterns)
      invariant Remembers(readable, ls, groups[..i])
    {
      assert groups[..i + 1] == groups[..i] + [groups[i]];
      assert groups[i..][0] == groups[i] && groups[i..][1..] == groups[i + 1..];
      RemembersOneMore(readable, ls, groups[..i], groups[i]);
      OneGroup(ls, groups[i..], patterns);
      match OnDisk(ls, groups[i].volume) {
        case Ok(found) =>
          var names := ComputeMissing(found, groups[i].configured, patterns);
          report := report.(checked := report.checked + 1, missing := report.missing + MissingOf(groups[i], names));
          readable := readable + [(groups[i].volume, found)];
        case Err(why) =>
          report := report.(failed := report.failed + [(groups[i].volume, why)]);
      }
    }
    assert groups[..|groups|] == groups;
    NoGroup(ls, patterns);
  }

  lemma NoGroup(ls: seq<Listing>, patterns: seq<string>)
    ensures CheckedIn(ls, []) == 0 && FailedIn(ls, []) == [] && MissingIn(ls, [], patterns) == []
  {
  }

  method CheckSources(ls: seq<Listing>, sources: seq<Source>, groups: seq<Group>, readable: seq<(string, seq<string>)>)
    returns (stale: seq<Stale>)
    requires Remembers(readable, ls, groups)
    requires forall i :: 0 <= i < |sources| ==> sources[i].volume in GroupVolumesOf(groups)
    ensures stale == StaleIn(ls, sources)
  {
    hide OnDisk, StaleOf, ComputeStale, LiveNames, GroupVolumesOf;
    stale := [];
    for i := 0 to |sources|
      invariant StaleIn(ls, sources) == stale + StaleIn(ls, sources[i..])
    {
      GroupOfVolume(groups, sources[i].volume);
      match Lookup(readable, sources[i].volume) {
        case Some(found) =>
          var names := ComputeStale(found, LiveNames(sources[i].subvolumes));
          stale := stale + StaleOf(sources[i], names);
        case None =>
      }
    }
  }

  method DriftFromListings(c: Config, ls: seq<Listing>) returns (report: Report)
    ensures report == DriftFor(c, ls)
  {
    var groups := GroupSourcesByVolume(c);
    var readable;
    report, readable := CheckGroups(ls, groups, ExcludePatterns(c));
    GroupVolumes(c);
    var stale := CheckSources(ls, c.sources, groups, readable);
    report := report.(stale := stale);
  }
}
