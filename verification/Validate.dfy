// The rules a configuration must meet before it is written
// (`validate`, indexer/src/config.rs). An error is kept as what it says, not
// as its wording.
module Validate {
  import opened Config
  import opened Glob
  import opened Names
  import opened Sync

  datatype ConfigError =
    | NoSources
    | NoTargets
    | NoSubvolumes(tag: string)
    | EmptyDevice(tag: string)
    | TargetLabelTwice(tag: string)
    | TargetMountTwice(mount: string)
    | BadName(name: string, tag: string)
    | TopLevelTwice(volume: string, tag: string)
    | TopLevelUnnamed(volume: string, tag: string)
    | TopLevelReachesMirrors(volume: string, tag: string, mirrors: seq<string>)
    | BadSnapshotDir(tag: string, dir: string)
    | BadPattern(pattern: string)
    | SameSeries(first: string, second: string, volume: string, snapshotName: string)
    | Other(text: string)

  function SourceErrors(sources: seq<Source>): seq<ConfigError> {
    if sources == [] then []
    else (if sources[0].subvolumes == [] then [NoSubvolumes(sources[0].tag)] else []) +
         (if sources[0].device == "" then [EmptyDevice(sources[0].tag)] else []) +
         SourceErrors(sources[1..])
  }

  function TargetErrors(labels: set<string>, mounts: set<string>, targets: seq<Target>): seq<ConfigError>
    decreases |targets|
  {
    if targets == [] then []
    else (if targets[0].tag in labels then [TargetLabelTwice(targets[0].tag)] else []) +
         (if targets[0].mount in mounts then [TargetMountTwice(targets[0].mount)] else []) +
         TargetErrors(labels + {targets[0].tag}, mounts + {targets[0].mount}, targets[1..])
  }

  /** A component no path may have: empty, `.` or `..`. */
  predicate HasBadComponent(path: string) {
    "" in Components(path) || "." in Components(path) || ".." in Components(path)
  }

  function NameErrors(topLevels: set<string>, pairs: seq<(Source, Entry)>): seq<ConfigError>
    decreases |pairs|
  {
    if pairs == [] then []
    else
      var s, e := pairs[0].0, pairs[0].1;
      if e.name != TOP_LEVEL then
        (if HasBadComponent(e.name) then [BadName(e.name, s.tag)] else []) + NameErrors(topLevels, pairs[1..])
      else
        (if s.volume in topLevels then [TopLevelTwice(s.volume, s.tag)] else []) +
        (if e.snapshotName.None? then [TopLevelUnnamed(s.volume, s.tag)] else []) +
        NameErrors(topLevels + {s.volume}, pairs[1..])
  }

  predicate HasLiveTop(entries: seq<Entry>) {
    exists k :: 0 <= k < |entries| && entries[k].name == TOP_LEVEL && entries[k].Live()
  }

  /** Checked by `validate` and by the renderer itself. */
  function ScopeErrors(c: Config, sources: seq<Source>): seq<ConfigError> {
    if sources == [] then []
    else
      var mirrors := MirrorsReached(c, sources[0]);
      (if HasLiveTop(sources[0].subvolumes) && mirrors != []
       then [TopLevelReachesMirrors(sources[0].volume, sources[0].tag, mirrors)] else []) +
      ScopeErrors(c, sources[1..])
  }

  function TopLevelScopeErrors(c: Config): seq<ConfigError> { ScopeErrors(c, c.sources) }

  function WithoutOneSlash(dir: string): string {
    if dir != [] && dir[|dir| - 1] == '/' then dir[..|dir| - 1] else dir
  }

  function DirErrors(sources: seq<Source>): seq<ConfigError> {
    if sources == [] then []
    else
      var dir := sources[0].snapshotDir;
      (if "/" <= dir || HasBadComponent(WithoutOneSlash(dir)) then [BadSnapshotDir(sources[0].tag, dir)] else []) +
      DirErrors(sources[1..])
  }

  function PatternErrors(patterns: seq<string>): seq<ConfigError> {
    if patterns == [] then []
    else (if patterns[0] == "" || patterns[0] == TOP_LEVEL then [BadPattern(patterns[0])] else []) +
         PatternErrors(patterns[1..])
  }

  function OtherErrors(texts: seq<string>): seq<ConfigError> {
    if texts == [] then [] else [Other(texts[0])] + OtherErrors(texts[1..])
  }

  // ---------------------------------------------------------------------
  // Two live entries that would write one series.

  datatype SeriesKey = SeriesKey(volume: string, dir: string, snapshotName: string)

  /** A live entry's key, and its name. */
  datatype Series = Series(key: SeriesKey, name: string)

  function SeriesFrom(s: Source, entries: seq<Entry>, names: seq<string>): seq<Series>
    requires |entries| == |names|
  {
    if entries == [] then []
    else (if entries[0].Live() then [Series(SeriesKey(s.volume, s.snapshotDir, names[0]), entries[0].name)] else []) +
         SeriesFrom(s, entries[1..], names[1..])
  }

  function AllSeries(sources: seq<Source>): seq<Series> {
    if sources == [] then []
    else SeriesFrom(sources[0], sources[0].subvolumes, Resolve(sources[0].subvolumes)) + AllSeries(sources[1..])
  }

  function SeriesErrors(seen: map<SeriesKey, string>, series: seq<Series>): seq<ConfigError>
    decreases |series|
  {
    if series == [] then []
    else
      var x := series[0];
      if x.key in seen then
        [SameSeries(seen[x.key], x.name, x.key.volume, x.key.snapshotName)] + SeriesErrors(seen, series[1..])
      else SeriesErrors(seen[x.key := x.name], series[1..])
  }

  function Errors(c: Config): seq<ConfigError> {
    (if c.sources == [] && !c.recoveryDrive then [NoSources] else []) +
    (if c.targets == [] then [NoTargets] else []) +
    SourceErrors(c.sources) + TargetErrors({}, {}, c.targets) + NameErrors({}, Pairs(c.sources)) +
    TopLevelScopeErrors(c) + DirErrors(c.sources) + PatternErrors(ExcludePatterns(c)) +
    SeriesErrors(map[], AllSeries(c.sources)) + OtherErrors(c.otherErrors)
  }

  /** The program's loop: the first entry seen under a key is kept and named
      in every later clash. */
  method DuplicateSeries(c: Config) returns (errors: seq<ConfigError>)
    ensures errors == SeriesErrors(map[], AllSeries(c.sources))
  {
    hide SeriesErrors, ResolvedName;
    var seen: map<SeriesKey, string> := map[];
    errors := [];
    for i := 0 to |c.sources|
      invariant SeriesErrors(map[], AllSeries(c.sources)) == errors + SeriesErrors(seen, AllSeries(c.sources[i..]))
    {
      var s := c.sources[i];
      var names := ResolveSnapshotNames(s.subvolumes);
      ghost var later := AllSeries(c.sources[i + 1..]);
      for k := 0 to |s.subvolumes|
        invariant SeriesErrors(map[], AllSeries(c.sources)) ==
                  errors + SeriesErrors(seen, SeriesFrom(s, s.subvolumes[k..], names[k..]) + later)
      {
        var e := s.subvolumes[k];
        ghost var rest := SeriesFrom(s, s.subvolumes[k + 1..], names[k + 1..]) + later;
        SeriesStep(s, s.subvolumes[k..], names[k..], later, seen);
        if e.retired.Some? { continue; }
        var key := SeriesKey(s.volume, s.snapshotDir, names[k]);
        if key in seen {
          errors := errors + [SameSeries(seen[key], e.name, s.volume, names[k])];
        } else {
          seen := seen[key := e.name];
        }
      }
      assert SeriesFrom(s, s.subvolumes[|s.subvolumes|..], names[|s.subvolumes|..]) + later == later;
    }
    NoSeries(seen);
  }

  lemma NoSeries(seen: map<SeriesKey, string>)
    ensures SeriesErrors(seen, AllSeries([])) == []
  {
  }

  lemma SeriesStep(s: Source, entries: seq<Entry>, names: seq<string>, later: seq<Series>, seen: map<SeriesKey, string>)
    requires entries != [] && |entries| == |names|
    ensures var rest := SeriesFrom(s, entries[1..], names[1..]) + later;
            var key := SeriesKey(s.volume, s.snapshotDir, names[0]);
            SeriesErrors(seen, SeriesFrom(s, entries, names) + later) ==
            if !entries[0].Live() then SeriesErrors(seen, rest)
            else if key in seen then
              [SameSeries(seen[key], entries[0].name, s.volume, names[0])] + SeriesErrors(seen, rest)
            else SeriesErrors(seen[key := entries[0].name], rest)
  {
    var all := SeriesFrom(s, entries, names) + later;
    var rest := SeriesFrom(s, entries[1..], names[1..]) + later;
    if entries[0].Live() {
      assert all == [Series(SeriesKey(s.volume, s.snapshotDir, names[0]), entries[0].name)] + rest;
      assert all[1..] == rest;
    } else {
      assert all == rest;
    }
  }

  ghost predicate DistinctKeys(series: seq<Series>) {
    forall i, j :: 0 <= i < j < |series| ==> series[i].key != series[j].key
  }

  lemma {:induction false} SeriesErrorsMeans(seen: map<SeriesKey, string>, series: seq<Series>)
    ensures SeriesErrors(seen, series) == [] <==>
            DistinctKeys(series) && forall i :: 0 <= i < |series| ==> series[i].key !in seen
    decreases |series|
  {
    if series != [] {
      var x := series[0];
      if x.key in seen {
        SeriesErrorsMeans(seen, series[1..]);
      } else {
        SeriesErrorsMeans(seen[x.key := x.name], series[1..]);
        if DistinctKeys(series) {
          assert forall i :: 0 <= i < |series[1..]| ==> series[1..][i] == series[i + 1];
        }
        if SeriesErrors(seen, series) == [] {
          assert forall i :: 0 < i < |series| ==> series[i] == series[1..][i - 1];
        }
      }
    }
  }

  /** `validate` finds no clash exactly when no two live entries share volume,
      snapshot directory and snapshot name. */
  lemma NoClashMeansDistinct(c: Config)
    ensures SeriesErrors(map[], AllSeries(c.sources)) == [] <==> DistinctKeys(AllSeries(c.sources))
  {
    SeriesErrorsMeans(map[], AllSeries(c.sources));
  }

  ghost predicate UniqueMounts(targets: seq<Target>) {
    forall i, j :: 0 <= i < j < |targets| ==> targets[i].mount != targets[j].mount
  }

  ghost predicate NoneSeen(labels: set<string>, mounts: set<string>, targets: seq<Target>) {
    forall i :: 0 <= i < |targets| ==> targets[i].tag !in labels && targets[i].mount !in mounts
  }

  lemma FirstAndRest(labels: set<string>, mounts: set<string>, targets: seq<Target>)
    requires targets != []
    ensures var t, rest := targets[0], targets[1..];
            UniqueTargets(targets) && UniqueMounts(targets) && NoneSeen(labels, mounts, targets) <==>
            t.tag !in labels && t.mount !in mounts && UniqueTargets(rest) && UniqueMounts(rest) &&
            NoneSeen(labels + {t.tag}, mounts + {t.mount}, rest)
  {
    assert forall i :: 0 < i < |targets| ==> targets[i] == targets[1..][i - 1];
    assert forall i :: 0 <= i < |targets[1..]| ==> targets[1..][i] == targets[i + 1];
  }

  /** No complaint about targets exactly when no label and no mount is used
      twice. */
  lemma {:induction false} TargetErrorsMeans(labels: set<string>, mounts: set<string>, targets: seq<Target>)
    ensures TargetErrors(labels, mounts, targets) == [] <==>
            UniqueTargets(targets) && UniqueMounts(targets) && NoneSeen(labels, mounts, targets)
    decreases |targets|
  {
    hide UniqueTargets, UniqueMounts, NoneSeen;
    if targets == [] {
      NoTargetsToSee(labels, mounts);
    } else {
      FirstAndRest(labels, mounts, targets);
      TargetErrorsMeans(labels + {targets[0].tag}, mounts + {targets[0].mount}, targets[1..]);
    }
  }

  lemma NoTargetsToSee(labels: set<string>, mounts: set<string>)
    ensures UniqueTargets([]) && UniqueMounts([]) && NoneSeen(labels, mounts, [])
  {
  }

  lemma {:induction false} ScopeErrorsMeans(c: Config, sources: seq<Source>)
    ensures ScopeErrors(c, sources) == [] <==>
            forall i :: 0 <= i < |sources| ==>
              !(HasLiveTop(sources[i].subvolumes) && MirrorsReached(c, sources[i]) != [])
  {
    hide MirrorsReached;
    if sources != [] {
      ScopeErrorsMeans(c, sources[1..]);
      if ScopeErrors(c, sources) == [] {
        assert forall i :: 0 < i < |sources| ==> sources[i] == sources[1..][i - 1];
      } else if ScopeErrors(c, sources[1..]) != [] {
        var i :| 0 <= i < |sources[1..]| && HasLiveTop(sources[1..][i].subvolumes) &&
            MirrorsReached(c, sources[1..][i]) != [];
        assert sources[i + 1] == sources[1..][i];
      }
    }
  }
}
