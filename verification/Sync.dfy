// Comparing the configuration with what each source volume holds
// (`plan_sync`, indexer/src/adopt.rs).
module Sync {
  import opened Base
  import opened Config
  import opened Glob

  /** What was found on one volume; `Err` means nothing may be concluded. */
  datatype Listing = Listing(volume: string, subvolumes: Result<seq<string>, string>)

  datatype SkipReason = SnapshotTree | Excluded(pattern: string)

  /** What a report says of where an adopted entry is sent. */
  datatype Scope =
    | AsParent(name: string)
    | PrimaryOnly
    | Primaries(tags: seq<string>)
    | Tags(tags: seq<string>)
    | NoTarget

  datatype Adoption = Adoption(volume: string, name: string, sourceTag: string,
                               nestedUnder: Option<string>, manualOnly: bool, scope: Scope)

  datatype EntryRef = EntryRef(sourceTag: string, name: string)

  datatype Skip = Skip(volume: string, name: string, reason: SkipReason)

  datatype TopState = NotAdopted | RetiredNow | RetiredOn(date: string)

  datatype Why = ReachesMirrors(state: TopState, sourceTag: string, mirrors: seq<string>) | NoPrimary

  datatype Unplaceable = Unplaceable(volume: string, name: string, why: Why)

  datatype Plan = Plan(adopt: seq<Adoption>, retire: seq<EntryRef>, revive: seq<EntryRef>,
                       skipped: seq<Skip>, unplaceable: seq<Unplaceable>, failed: seq<(string, string)>)
  {
    predicate ChangesConfig() { adopt != [] || retire != [] || revive != [] }

    predicate Failed() { failed != [] || unplaceable != [] }
  }

  const EMPTY := Plan([], [], [], [], [], [])

  function Join(p: Plan, q: Plan): Plan {
    Plan(p.adopt + q.adopt, p.retire + q.retire, p.revive + q.revive,
         p.skipped + q.skipped, p.unplaceable + q.unplaceable, p.failed + q.failed)
  }

  lemma JoinAssociates(p: Plan, q: Plan, r: Plan)
    ensures Join(Join(p, q), r) == Join(p, Join(q, r))
    ensures Join(p, EMPTY) == p && Join(EMPTY, p) == p
  {
  }

  // ---------------------------------------------------------------------
  // Volumes and listings.

  /** The distinct volumes of `sources`, after `seen`, in first-seen order. */
  function VolumesFrom(seen: seq<string>, sources: seq<Source>): seq<string>
    decreases |sources|
  {
    if sources == [] then seen
    else if sources[0].volume in seen then VolumesFrom(seen, sources[1..])
    else VolumesFrom(seen + [sources[0].volume], sources[1..])
  }

  function Volumes(c: Config): seq<string> { VolumesFrom([], c.sources) }

  /** The first listing of a volume decides. */
  function OnDisk(listings: seq<Listing>, volume: string): Result<seq<string>, string> {
    if listings == [] then Err("volume was not listed")
    else if listings[0].volume == volume then listings[0].subvolumes
    else OnDisk(listings[1..], volume)
  }

  function SourcesOn(sources: seq<Source>, volume: string): seq<Source> {
    if sources == [] then []
    else if sources[0].volume == volume then [sources[0]] + SourcesOn(sources[1..], volume)
    else SourcesOn(sources[1..], volume)
  }

  function PairsOf(source: Source, entries: seq<Entry>): seq<(Source, Entry)> {
    if entries == [] then [] else [(source, entries[0])] + PairsOf(source, entries[1..])
  }

  /** Every source with each of its entries, in order. */
  function Pairs(sources: seq<Source>): seq<(Source, Entry)> {
    if sources == [] then [] else PairsOf(sources[0], sources[0].subvolumes) + Pairs(sources[1..])
  }

  // ---------------------------------------------------------------------
  // Entries the configuration has.

  function RefOf(source: Source, e: Entry): EntryRef { EntryRef(source.tag, e.name) }

  /** A top level whose source reaches a mirror: not backed up, never revived. */
  predicate RefusedTop(c: Config, source: Source, e: Entry) {
    e.name == TOP_LEVEL && MirrorsReached(c, source) != []
  }

  predicate Present(found: seq<string>, e: Entry) { e.name == TOP_LEVEL || e.name in found }

  predicate Retires(c: Config, found: seq<string>, source: Source, e: Entry) {
    e.Live() && (RefusedTop(c, source, e) || !Present(found, e))
  }

  predicate Revives(c: Config, found: seq<string>, source: Source, e: Entry) {
    !e.Live() && !RefusedTop(c, source, e) && Present(found, e)
  }

  function EntryStep(c: Config, volume: string, found: seq<string>, source: Source, e: Entry): Plan {
    if RefusedTop(c, source, e) then
      var state := match e.retired case None => RetiredNow case Some(date) => RetiredOn(date);
      EMPTY.(retire := if e.Live() then [RefOf(source, e)] else [],
             unplaceable := [Unplaceable(volume, e.name, ReachesMirrors(state, source.tag, MirrorsReached(c, source)))])
    else if !Present(found, e) && e.Live() then EMPTY.(retire := [RefOf(source, e)])
    else if Present(found, e) && !e.Live() then EMPTY.(revive := [RefOf(source, e)])
    else EMPTY
  }

  function KnownPlan(c: Config, volume: string, found: seq<string>, pairs: seq<(Source, Entry)>): Plan {
    if pairs == [] then EMPTY
    else Join(EntryStep(c, volume, found, pairs[0].0, pairs[0].1), KnownPlan(c, volume, found, pairs[1..]))
  }

  // ---------------------------------------------------------------------
  // Subvolumes no entry names.

  predicate Configured(sources: seq<Source>, name: string) {
    exists i :: 0 <= i < |sources| && HasEntry(sources[i].subvolumes, name)
  }

  predicate HasEntry(entries: seq<Entry>, name: string) {
    exists k :: 0 <= k < |entries| && entries[k].name == name
  }

  function NotConfigured(found: seq<string>, sources: seq<Source>): seq<string> {
    if found == [] then []
    else if Configured(sources, found[0]) then NotConfigured(found[1..], sources)
    else [found[0]] + NotConfigured(found[1..], sources)
  }

  function Unknown(found: seq<string>, sources: seq<Source>): seq<string> {
    Sorted(NotConfigured(found, sources))
  }

  /** `s` cut at every `/`. */
  function Components(s: string): (r: seq<string>)
    ensures r != []
  {
    if s == [] then [[]]
    else
      var rest := Components(s[1..]);
      if s[0] == '/' then [[]] + rest else [[s[0]] + rest[0]] + rest[1..]
  }

  /** The path lies in Snapper's or btrbk's snapshot tree, at any depth. */
  predicate InSnapshotTree(path: string) {
    ".snapshots" in Components(path) || ".btrbk-snapshots" in Components(path)
  }

  /** The nearest configured, live ancestor: the longest name above `name`,
      the last declared of several equally long. */
  function Ancestor(pairs: seq<(Source, Entry)>, name: string): Option<(Source, Entry)> {
    if pairs == [] then None
    else
      var last := pairs[|pairs| - 1];
      var before := Ancestor(pairs[..|pairs| - 1], name);
      if last.1.Live() && NestedUnder(name, last.1.name) &&
         (before.None? || |before.value.1.name| <= |last.1.name|)
      then Some(last) else before
  }

  /** The label of the source that holds adopted subvolumes with no ancestor:
      the volume's first ordinary source's, with `-adopted`. */
  function AdoptionTag(sources: seq<Source>, volume: string): Option<string> {
    if sources == [] then None
    else if sources[0].volume == volume && !IsAdoptionTag(sources[0].tag) then Some(sources[0].tag + ADOPTED_SUFFIX)
    else AdoptionTag(sources[1..], volume)
  }

  function FindSource(sources: seq<Source>, tag: string): Option<Source> {
    if sources == [] then None
    else if sources[0].tag == tag then Some(sources[0])
    else FindSource(sources[1..], tag)
  }

  function TagsOf(targets: seq<Target>): seq<string> {
    if targets == [] then [] else [targets[0].tag] + TagsOf(targets[1..])
  }

  function ScopeOf(c: Config, source: Source): Scope {
    var reached := SourceTargets(c, source);
    if reached == [] then NoTarget
    else if exists i :: 0 <= i < |reached| && !reached[i].role.Primary? then Tags(TagsOf(reached))
    else if |reached| == 1 then PrimaryOnly
    else Primaries(TagsOf(reached))
  }

  /** Where a subvolume with no configured ancestor goes. */
  function HomeTag(c: Config, volume: string, sources: seq<Source>): string
    requires sources != []
  {
    match AdoptionTag(c.sources, volume)
    case Some(tag) => tag
    case None => sources[0].tag
  }

  ghost predicate Skipped(c: Config, name: string) {
    InSnapshotTree(name) || ExcludedBy(name, ExcludePatterns(c)).Some?
  }

  ghost function SkipFor(c: Config, volume: string, name: string): Skip
    requires Skipped(c, name)
  {
    if InSnapshotTree(name) then Skip(volume, name, SnapshotTree)
    else Skip(volume, name, Excluded(ExcludedBy(name, ExcludePatterns(c)).value))
  }

  /** Adopted, or why it cannot be. */
  function Place(c: Config, volume: string, sources: seq<Source>, name: string): Result<Adoption, Why>
    requires sources != []
  {
    match Ancestor(Pairs(sources), name)
    case Some((source, e)) => Ok(Adoption(volume, name, source.tag, Some(e.name), e.manualOnly, AsParent(e.name)))
    case None =>
      if HasPrimary(c) then
        var tag := HomeTag(c, volume, sources);
        match FindSource(sources, tag)
        case None => Ok(Adoption(volume, name, tag, None, false, PrimaryOnly))
        case Some(home) =>
          var mirrors := MirrorsReached(c, home);
          if name == TOP_LEVEL && mirrors != [] then Err(ReachesMirrors(NotAdopted, tag, mirrors))
          else Ok(Adoption(volume, name, tag, None, false, ScopeOf(c, home)))
      else Err(NoPrimary)
  }

  ghost function NameStep(c: Config, volume: string, sources: seq<Source>, name: string): Plan
    requires sources != []
  {
    if Skipped(c, name) then EMPTY.(skipped := [SkipFor(c, volume, name)])
    else match Place(c, volume, sources, name)
      case Ok(a) => EMPTY.(adopt := [a])
      case Err(why) => EMPTY.(unplaceable := [Unplaceable(volume, name, why)])
  }

  ghost function UnknownPlan(c: Config, volume: string, sources: seq<Source>, names: seq<string>): Plan
    requires sources != []
  {
    if names == [] then EMPTY
    else Join(NameStep(c, volume, sources, names[0]), UnknownPlan(c, volume, sources, names[1..]))
  }

  // ---------------------------------------------------------------------

  ghost function VolumePlan(c: Config, listings: seq<Listing>, volume: string): Plan {
    var sources := SourcesOn(c.sources, volume);
    if sources == [] then EMPTY
    else match OnDisk(listings, volume)
      case Err(why) => EMPTY.(failed := [(volume, why)])
      case Ok(found) =>
        Join(KnownPlan(c, volume, found, Pairs(sources)),
             UnknownPlan(c, volume, sources, Unknown(found, sources)))
  }

  ghost function VolumesPlan(c: Config, listings: seq<Listing>, volumes: seq<string>): Plan {
    if volumes == [] then EMPTY
    else Join(VolumePlan(c, listings, volumes[0]), VolumesPlan(c, listings, volumes[1..]))
  }

  ghost function PlanFor(c: Config, listings: seq<Listing>): Plan { VolumesPlan(c, listings, Volumes(c)) }

  // ---------------------------------------------------------------------
  // The program's loops.

  method DistinctVolumes(c: Config) returns (volumes: seq<string>)
    ensures volumes == Volumes(c)
  {
    volumes := [];
    for i := 0 to |c.sources|
      invariant VolumesFrom(volumes, c.sources[i..]) == Volumes(c)
    {
      if c.sources[i].volume !in volumes { volumes := volumes + [c.sources[i].volume]; }
    }
  }

  lemma {:induction false} SourcesOnHolds(sources: seq<Source>, volume: string)
    ensures forall s :: s in SourcesOn(sources, volume) <==> s in sources && s.volume == volume
  {
    if sources != [] {
      SourcesOnHolds(sources[1..], volume);
      assert sources == [sources[0]] + sources[1..];
    }
  }

  lemma {:induction false} VolumesFromHolds(seen: seq<string>, sources: seq<Source>)
    ensures forall v :: v in VolumesFrom(seen, sources) <==>
                        v in seen || exists i :: 0 <= i < |sources| && sources[i].volume == v
    decreases |sources|
  {
    if sources != [] {
      var seen' := if sources[0].volume in seen then seen else seen + [sources[0].volume];
      VolumesFromHolds(seen', sources[1..]);
      forall v ensures v in VolumesFrom(seen, sources) <==>
                       v in seen || exists i :: 0 <= i < |sources| && sources[i].volume == v {
        if exists i :: 0 <= i < |sources| && sources[i].volume == v {
          var i :| 0 <= i < |sources| && sources[i].volume == v;
          if i > 0 { assert sources[1..][i - 1].volume == v; }
        }
        if exists i :: 0 <= i < |sources[1..]| && sources[1..][i].volume == v {
          var i :| 0 <= i < |sources[1..]| && sources[1..][i].volume == v;
          assert sources[i + 1].volume == v;
        }
      }
    }
  }

  ghost predicate Distinct(s: seq<string>) { forall i, j :: 0 <= i < j < |s| ==> s[i] != s[j] }

  lemma OneMoreDistinct(s: seq<string>, x: string)
    requires Distinct(s) && x !in s
    ensures Distinct(s + [x])
  {
  }

  lemma {:induction false} VolumesFromDistinct(seen: seq<string>, sources: seq<Source>)
    requires Distinct(seen)
    ensures Distinct(VolumesFrom(seen, sources))
    decreases |sources|
  {
    hide Distinct;
    if sources != [] {
      var v := sources[0].volume;
      if v in seen {
        VolumesFromDistinct(seen, sources[1..]);
      } else {
        OneMoreDistinct(seen, v);
        VolumesFromDistinct(seen + [v], sources[1..]);
      }
    }
  }

  /** The program's inner loop body: `plan` with what one entry calls for. */
  method PlanEntry(c: Config, volume: string, found: seq<string>, source: Source, e: Entry, before: Plan)
    returns (plan: Plan)
    ensures plan == Join(before, EntryStep(c, volume, found, source, e))
  {
    plan := before;
    if e.name == TOP_LEVEL {
      var mirrors := MirrorsReached(c, source);
      if mirrors != [] {
        var state;
        match e.retired {
          case None =>
            plan := plan.(retire := plan.retire + [EntryRef(source.tag, e.name)]);
            state := RetiredNow;
          case Some(date) =>
            state := RetiredOn(date);
        }
        var why := ReachesMirrors(state, source.tag, mirrors);
        plan := plan.(unplaceable := plan.unplaceable + [Unplaceable(volume, e.name, why)]);
        return;
      }
    }
    var present := e.name == TOP_LEVEL || e.name in found;
    if !present && e.retired.None? {
      plan := plan.(retire := plan.retire + [EntryRef(source.tag, e.name)]);
    } else if present && e.retired.Some? {
      plan := plan.(revive := plan.revive + [EntryRef(source.tag, e.name)]);
    }
  }

  method PlanKnown(c: Config, volume: string, found: seq<string>, sources: seq<Source>) returns (plan: Plan)
    ensures plan == KnownPlan(c, volume, found, Pairs(sources))
  {
    hide EntryStep, KnownPlan;
    plan := EMPTY;
    ghost var whole := KnownPlan(c, volume, found, Pairs(sources));
    JoinAssociates(whole, EMPTY, EMPTY);
    for i := 0 to |sources|
      invariant whole == Join(plan, KnownPlan(c, volume, found, Pairs(sources[i..])))
    {
      var entries := sources[i].subvolumes;
      ghost var later := Pairs(sources[i + 1..]);
      assert sources[i..][1..] == sources[i + 1..];
      for k := 0 to |entries|
        invariant whole == Join(plan, KnownPlan(c, volume, found, PairsOf(sources[i], entries[k..]) + later))
      {
        KnownPlanStep(c, volume, found, sources[i], entries[k..], later, plan);
        assert entries[k..][1..] == entries[k + 1..];
        plan := PlanEntry(c, volume, found, sources[i], entries[k], plan);
      }
      assert PairsOf(sources[i], entries[|entries|..]) + later == later;
    }
    NoPairs(c, volume, found);
    JoinAssociates(plan, EMPTY, EMPTY);
  }

  lemma NoPairs(c: Config, volume: string, found: seq<string>)
    ensures KnownPlan(c, volume, found, Pairs([])) == EMPTY
  {
  }

  lemma KnownPlanStep(c: Config, volume: string, found: seq<string>, source: Source, entries: seq<Entry>,
                      later: seq<(Source, Entry)>, plan: Plan)
    requires entries != []
    ensures Join(plan, KnownPlan(c, volume, found, PairsOf(source, entries) + later)) ==
            Join(Join(plan, EntryStep(c, volume, found, source, entries[0])),
                 KnownPlan(c, volume, found, PairsOf(source, entries[1..]) + later))
  {
    var rest := PairsOf(source, entries[1..]) + later;
    var all := PairsOf(source, entries) + later;
    assert all == [(source, entries[0])] + rest;
    assert all[1..] == rest;
    JoinAssociates(plan, EntryStep(c, volume, found, source, entries[0]), KnownPlan(c, volume, found, rest));
  }

  method PlanUnknown(c: Config, volume: string, found: seq<string>, sources: seq<Source>) returns (plan: Plan)
    requires sources != []
    ensures plan == UnknownPlan(c, volume, sources, Unknown(found, sources))
  {
    plan := EMPTY;
    var patterns := ExcludePatterns(c);
    var names := Unknown(found, sources);
    ghost var whole := UnknownPlan(c, volume, sources, names);
    JoinAssociates(whole, EMPTY, EMPTY);
    for i := 0 to |names|
      invariant whole == Join(plan, UnknownPlan(c, volume, sources, names[i..]))
    {
      var name := names[i];
      JoinAssociates(plan, NameStep(c, volume, sources, name), UnknownPlan(c, volume, sources, names[i + 1..]));
      if InSnapshotTree(name) {
        plan := plan.(skipped := plan.skipped + [Skip(volume, name, SnapshotTree)]);
        continue;
      }
      var pattern := ExcludingPattern(name, patterns);
      if pattern.Some? {
        plan := plan.(skipped := plan.skipped + [Skip(volume, name, Excluded(pattern.value))]);
        continue;
      }
      match Place(c, volume, sources, name) {
        case Ok(a) => plan := plan.(adopt := plan.adopt + [a]);
        case Err(why) => plan := plan.(unplaceable := plan.unplaceable + [Unplaceable(volume, name, why)]);
      }
    }
    JoinAssociates(plan, EMPTY, EMPTY);
  }

  method PlanSync(c: Config, listings: seq<Listing>) returns (plan: Plan)
    ensures plan == PlanFor(c, listings)
  {
    plan := EMPTY;
    var volumes := DistinctVolumes(c);
    JoinAssociates(PlanFor(c, listings), EMPTY, EMPTY);
    for i := 0 to |volumes|
      invariant PlanFor(c, listings) == Join(plan, VolumesPlan(c, listings, volumes[i..]))
    {
      var volume := volumes[i];
      var sources := SourcesOn(c.sources, volume);
      VolumeHasSources(c, volume);
      JoinAssociates(plan, VolumePlan(c, listings, volume), VolumesPlan(c, listings, volumes[i + 1..]));
      match OnDisk(listings, volume) {
        case Err(why) =>
          plan := plan.(failed := plan.failed + [(volume, why)]);
        case Ok(found) =>
          var known := PlanKnown(c, volume, found, sources);
          var unknown := PlanUnknown(c, volume, found, sources);
          plan := Join(plan, Join(known, unknown));
      }
    }
    JoinAssociates(plan, EMPTY, EMPTY);
  }

  lemma VolumeHasSources(c: Config, volume: string)
    ensures volume in Volumes(c) <==> SourcesOn(c.sources, volume) != []
  {
    VolumesFromHolds([], c.sources);
    SourcesOnHolds(c.sources, volume);
    var on := SourcesOn(c.sources, volume);
    if volume in Volumes(c) {
      var i :| 0 <= i < |c.sources| && c.sources[i].volume == volume;
      assert c.sources[i] in on;
    }
    if on != [] {
      assert on[0] in on;
      var i :| 0 <= i < |c.sources| && c.sources[i] == on[0];
      assert c.sources[i].volume == volume;
    }
  }
}
