// The part of `config.toml` that decides what is backed up and where it goes
// (indexer/src/config.rs). A configuration is a value: the program clones it
// and edits the clone.
module Config {
  import opened Base

  datatype Role = Primary | Mirror

  datatype Retention = Retention(daily: nat, weekly: nat, monthly: nat, yearly: nat)

  /** `tag` is the file's `label` key, here and in `Source`. */
  datatype Target = Target(tag: string, mount: string, role: Role, retention: Retention)

  /** A subvolume entry. `adopted` and `retired` are dates. */
  datatype Entry = Entry(
    name: string,
    manualOnly: bool,
    snapshotName: Option<string>,
    adopted: Option<string>,
    retired: Option<string>,
    afterIndex: bool)
  {
    predicate Live() { retired.None? }
  }

  datatype Source = Source(
    tag: string,
    volume: string,
    subvolumes: seq<Entry>,
    device: string,
    snapshotDir: string,
    targetSubdirs: seq<string>,
    targetLabels: seq<string>)

  /** `otherErrors` are the complaints `validate` has about fields no sync
      reads or writes (schedule, e-mail, boot, recovery OS, drive serials). */
  datatype Config = Config(
    sources: seq<Source>,
    targets: seq<Target>,
    subvolumeExcludes: seq<string>,
    doctorExcludes: seq<string>,
    btrbkConf: string,
    recoveryDrive: bool,
    otherErrors: seq<string>)

  /** Built-in exclusions: scratch space. */
  const DEFAULT_EXCLUDES := ["@tmp", "@var-tmp"]

  /** `patterns` with the ones not yet in it added, in order. */
  function WithoutRepeats(patterns: seq<string>, more: seq<string>): seq<string>
    decreases |more|
  {
    if more == [] then patterns
    else if more[0] in patterns then WithoutRepeats(patterns, more[1..])
    else WithoutRepeats(patterns + [more[0]], more[1..])
  }

  function ExcludePatterns(c: Config): seq<string> {
    WithoutRepeats([], DEFAULT_EXCLUDES + c.subvolumeExcludes + c.doctorExcludes)
  }

  /** `source` sends to `target`: every target when it names none. */
  predicate SendsTo(source: Source, target: Target) {
    source.targetLabels == [] || target.tag in source.targetLabels
  }

  function TargetsOf(targets: seq<Target>, source: Source): seq<Target> {
    if targets == [] then []
    else if SendsTo(source, targets[0]) then [targets[0]] + TargetsOf(targets[1..], source)
    else TargetsOf(targets[1..], source)
  }

  /** The targets a source's volume block sends to. */
  function SourceTargets(c: Config, source: Source): seq<Target> { TargetsOf(c.targets, source) }

  function MirrorLabels(targets: seq<Target>, source: Source): seq<string> {
    if targets == [] then []
    else if targets[0].role.Mirror? && SendsTo(source, targets[0])
      then [targets[0].tag] + MirrorLabels(targets[1..], source)
    else MirrorLabels(targets[1..], source)
  }

  /** The labels of the mirrors a source's volume block sends to. */
  function MirrorsReached(c: Config, source: Source): seq<string> { MirrorLabels(c.targets, source) }

  lemma {:induction false} TargetsOfMembers(targets: seq<Target>, source: Source)
    ensures forall t :: t in TargetsOf(targets, source) <==> t in targets && SendsTo(source, t)
  {
    if targets != [] {
      TargetsOfMembers(targets[1..], source);
      assert targets == [targets[0]] + targets[1..];
    }
  }

  /** No mirror is reached exactly when every target sent to is a primary. */
  lemma {:induction false} NoMirrorsMeansPrimariesOnly(targets: seq<Target>, source: Source)
    ensures MirrorLabels(targets, source) == [] <==>
            forall t :: t in TargetsOf(targets, source) ==> t.role.Primary?
  {
    if targets != [] {
      NoMirrorsMeansPrimariesOnly(targets[1..], source);
      var rest := TargetsOf(targets[1..], source);
      var all := TargetsOf(targets, source);
      if SendsTo(source, targets[0]) {
        assert all == [targets[0]] + rest;
        assert targets[0] in all;
        assert forall t :: t in all <==> t == targets[0] || t in rest;
      }
    }
  }

  predicate HasPrimary(c: Config) { exists i :: 0 <= i < |c.targets| && c.targets[i].role.Primary? }

  // ---------------------------------------------------------------------
  // What the source's callers keep true of a configuration.

  ghost predicate UniqueTags(sources: seq<Source>) {
    forall i, j :: 0 <= i < j < |sources| ==> sources[i].tag != sources[j].tag
  }

  ghost predicate UniqueNames(entries: seq<Entry>) {
    forall i, j :: 0 <= i < j < |entries| ==> entries[i].name != entries[j].name
  }

  ghost predicate UniqueTargets(targets: seq<Target>) {
    forall i, j :: 0 <= i < j < |targets| ==> targets[i].tag != targets[j].tag
  }

  const ADOPTED_SUFFIX := "-adopted"

  predicate EndsWith(s: string, suffix: string) {
    |suffix| <= |s| && s[|s| - |suffix|..] == suffix
  }

  predicate IsAdoptionTag(tag: string) { EndsWith(tag, ADOPTED_SUFFIX) }

  /** A source named after another's adoption source is on its volume. */
  ghost predicate AdoptionSourcesInPlace(sources: seq<Source>) {
    forall i, j :: 0 <= i < |sources| && 0 <= j < |sources| &&
                   !IsAdoptionTag(sources[i].tag) &&
                   sources[j].tag == sources[i].tag + ADOPTED_SUFFIX ==>
                   sources[j].volume == sources[i].volume
  }

  ghost predicate WellNamed(c: Config) {
    UniqueTags(c.sources) && UniqueTargets(c.targets) && AdoptionSourcesInPlace(c.sources) &&
    forall i :: 0 <= i < |c.sources| ==> UniqueNames(c.sources[i].subvolumes)
  }
}
