// A whole subvolume sync: listings in, the plan carried out or not, the files
// written or not (`sync_config`, indexer/src/adopt.rs).
module SyncRun {
  import opened Base
  import opened Config
  import opened Glob
  import opened Names
  import opened CalDate
  import opened Sync
  import opened Apply
  import opened Validate
  import opened Render
  import opened Files
  import opened Save

  datatype ConfState = Current | Regenerated | WouldRegenerate | OutOfDate

  datatype WriteError =
    | CannotApply(why: ApplyError)
    | NotValid(errors: seq<ConfigError>)
    | ConfsNotWritten(step: Step)
    | ConfigNotSaved(restore: Option<Step>)

  /** What a run reports of itself. `planned` is a dry run's `btrbk.conf`. */
  datatype Report = Report(
    plan: Plan,
    written: bool,
    writeError: Option<WriteError>,
    conf: ConfState,
    retireRefused: Option<string>,
    planned: Option<string>)

  datatype SyncError = CannotLoad | WouldTouchLiveFiles

  /** `config` is the configuration a real run would leave (dry run), or the
      one that was loaded. */
  datatype Synced = Synced(report: Report, config: Config)

  datatype SyncFaults = SyncFaults(main: Fault, state: Fault, config: Fault, restoreMain: Fault, restoreState: Fault)

  const NO_FAULTS := SyncFaults(Works, Works, Works, Works, Works)

  // ---------------------------------------------------------------------
  // What of the plan is carried out.

  predicate Dated(r: EntryRef) { r.name != TOP_LEVEL }

  predicate AnyDated(refs: seq<EntryRef>) { exists i :: 0 <= i < |refs| && Dated(refs[i]) }

  function Undated(refs: seq<EntryRef>): seq<EntryRef> {
    if refs == [] then [] else (if Dated(refs[0]) then [] else [refs[0]]) + Undated(refs[1..])
  }

  function RetireRefused(plan: Plan, today: string): Option<string> {
    if AnyDated(plan.retire) then UntrustedClock(today) else None
  }

  function ToApply(plan: Plan, today: string): Plan {
    if RetireRefused(plan, today).Some? then plan.(retire := Undated(plan.retire)) else plan
  }

  method KeepUndated(refs: seq<EntryRef>) returns (kept: seq<EntryRef>)
    ensures kept == Undated(refs)
  {
    kept := [];
    for i := 0 to |refs|
      invariant Undated(refs) == kept + Undated(refs[i..])
    {
      assert refs[i..][1..] == refs[i + 1..];
      if !Dated(refs[i]) { kept := kept + [refs[i]]; }
    }
  }

  // ---------------------------------------------------------------------
  // Writing what comes of it.

  function CurrentConf(files: map<string, Stored>, c: Config): Option<string> { Previous(At(files, c.btrbkConf)) }

  datatype Line = Line(files: map<string, Stored>, conf: ConfState, error: Option<WriteError>)

  /** `bring_btrbk_conf_into_line`. */
  function IntoLine(files: map<string, Stored>, c: Config, dryRun: bool, syncFailed: bool, f: SyncFaults): Line {
    if Errors(c) == [] && ConfsCurrent(files, c) then Line(files, Current, None)
    else if Errors(c) != [] then Line(files, OutOfDate, Some(NotValid(Errors(c))))
    else if syncFailed then Line(files, OutOfDate, None)
    else if dryRun then Line(files, WouldRegenerate, None)
    else
      var w := WrittenConfs(files, c, f.main, f.state);
      match w.failed
      case None => Line(w.files, Regenerated, None)
      case Some(step) => Line(w.files, OutOfDate, Some(ConfsNotWritten(step)))
  }

  method BringIntoLine(host: Host, c: Config, dryRun: bool, syncFailed: bool, f: SyncFaults)
    returns (conf: ConfState, error: Option<WriteError>)
    modifies host`files
    ensures Line(host.files, conf, error) == IntoLine(old(host.files), c, dryRun, syncFailed, f)
  {
    hide ConfsCurrent, Errors, WrittenConfs;
    var errors := Errors(c);
    if errors == [] && ConfsCurrent(host.files, c) { return Current, None; }
    if errors != [] { return OutOfDate, Some(NotValid(errors)); }
    if syncFailed { return OutOfDate, None; }
    if dryRun { return WouldRegenerate, None; }
    var failed := WriteRenderedConfs(host, c, f.main, f.state);
    match failed {
      case None => return Regenerated, None;
      case Some(step) => return OutOfDate, Some(ConfsNotWritten(step));
    }
  }

  datatype Update = Update(disk: Disk, error: Option<WriteError>)

  /** `write_updated`. Only a failed save of `config.toml` is answered by
      writing the files again, from the old configuration. */
  function Updated(d: Disk, c: Config, next: Result<Config, ApplyError>, f: SyncFaults): Update {
    match next
    case Err(why) => Update(d, Some(CannotApply(why)))
    case Ok(u) =>
      if Errors(u) != [] then Update(d, Some(NotValid(Errors(u))))
      else
        var w := WrittenConfs(d.files, u, f.main, f.state);
        if w.failed.Some? then Update(Disk(w.files, d.config), Some(ConfsNotWritten(w.failed.value)))
        else
          var s := SavedConfig(d.config, u, Edits, f.config);
          if s.ok then Update(Disk(w.files, s.config), None)
          else
            var back := WrittenConfs(w.files, c, f.restoreMain, f.restoreState);
            Update(Disk(back.files, s.config), Some(ConfigNotSaved(back.failed)))
  }

  method WriteUpdated(host: Host, c: Config, next: Result<Config, ApplyError>, f: SyncFaults)
    returns (error: Option<WriteError>)
    modifies host
    ensures Update(host.Now(), error) == Updated(old(host.Now()), c, next, f)
  {
    hide Errors, WrittenConfs, Pinned;
    if next.Err? { return Some(CannotApply(next.error)); }
    var u := next.value;
    var errors := Errors(u);
    if errors != [] { return Some(NotValid(errors)); }
    var failed := WriteRenderedConfs(host, u, f.main, f.state);
    if failed.Some? { return Some(ConfsNotWritten(failed.value)); }
    var ok := SaveConfig(host, u, Edits, f.config);
    if ok { return None; }
    var back := WriteRenderedConfs(host, c, f.restoreMain, f.restoreState);
    return Some(ConfigNotSaved(back));
  }

  // ---------------------------------------------------------------------
  // The sync.

  datatype SyncEnd = SyncEnd(disk: Disk, result: Result<Synced, SyncError>)

  function PlannedUnchanged(files: map<string, Stored>, c: Config, conf: ConfState): Option<string> {
    if conf.WouldRegenerate? && RenderMain(c).Ok? then Some(RenderMain(c).value) else CurrentConf(files, c)
  }

  /** The plan carried out, where that can be done and is valid. */
  function Usable(next: Result<Config, ApplyError>): Option<Config> {
    if next.Ok? && Errors(next.value) == [] then Some(next.value) else None
  }

  function PlannedChanged(files: map<string, Stored>, c: Config, next: Result<Config, ApplyError>): Option<string> {
    if Usable(next).Some? && RenderMain(Usable(next).value).Ok? then Some(RenderMain(Usable(next).value).value)
    else CurrentConf(files, c)
  }

  function SyncWith(d: Disk, c: Config, plan: Plan, dryRun: bool, today: string, f: SyncFaults): SyncEnd {
    var refused, apply := RetireRefused(plan, today), ToApply(plan, today);
    if !apply.ChangesConfig() then
      var line := IntoLine(d.files, c, dryRun, apply.Failed(), f);
      var planned := if dryRun then PlannedUnchanged(d.files, c, line.conf) else None;
      SyncEnd(d.(files := line.files), Ok(Synced(Report(plan, false, line.error, line.conf, refused, planned), c)))
    else
      var next := Applied(c, apply, today);
      if dryRun then
        var leaves := match Usable(next) case Some(u) => u case None => c;
        SyncEnd(d, Ok(Synced(Report(plan, false, None, Current, refused, PlannedChanged(d.files, c, next)), leaves)))
      else
        var u := Updated(d, c, next, f);
        SyncEnd(u.disk, Ok(Synced(Report(plan, u.error.None?, u.error, Current, refused, None), c)))
  }

  /** `live` says the outputs are the host's live files and this is not the
      host's configuration; a dry run does not ask. */
  ghost function Synchronised(d: Disk, dryRun: bool, live: bool, ls: seq<Listing>, today: string, f: SyncFaults)
    : SyncEnd
  {
    if !d.config.Loads? then SyncEnd(d, Err(CannotLoad))
    else if !dryRun && live then SyncEnd(d, Err(WouldTouchLiveFiles))
    else SyncWith(d, d.config.config, PlanFor(d.config.config, ls), dryRun, today, f)
  }

  method SyncConfig(host: Host, dryRun: bool, live: bool, ls: seq<Listing>, today: string, f: SyncFaults)
    returns (r: Result<Synced, SyncError>)
    modifies host
    ensures SyncEnd(host.Now(), r) == Synchronised(old(host.Now()), dryRun, live, ls, today, f)
  {
    hide PlanFor, Applied, Errors, IntoLine, Updated, UntrustedClock, RenderConf, Undated;
    if !host.config.Loads? { return Err(CannotLoad); }
    var c := host.config.config;
    if !dryRun && live { return Err(WouldTouchLiveFiles); }
    var plan := PlanSync(c, ls);
    var refused := if AnyDated(plan.retire) then UntrustedClock(today) else None;
    var apply := plan;
    if refused.Some? {
      var kept := KeepUndated(plan.retire);
      apply := plan.(retire := kept);
    }
    if !apply.ChangesConfig() {
      ghost var before := host.files;
      var conf, error := BringIntoLine(host, c, dryRun, apply.Failed(), f);
      DryRunWritesNothing(before, c, apply.Failed(), f);
      var planned := if dryRun then PlannedUnchanged(host.files, c, conf) else None;
      return Ok(Synced(Report(plan, false, error, conf, refused, planned), c));
    }
    var next := ApplyPlan(c, apply, today);
    if dryRun {
      var leaves := match Usable(next) case Some(u) => u case None => c;
      return Ok(Synced(Report(plan, false, None, Current, refused, PlannedChanged(host.files, c, next)), leaves));
    }
    var error := WriteUpdated(host, c, next, f);
    return Ok(Synced(Report(plan, error.None?, error, Current, refused, None), c));
  }

  lemma DryRunWritesNothing(files: map<string, Stored>, c: Config, syncFailed: bool, f: SyncFaults)
    ensures IntoLine(files, c, true, syncFailed, f).files == files
  {
    hide ConfsCurrent, Errors, WrittenConfs;
  }

  // ---------------------------------------------------------------------
  // Dry runs.

  /** The configuration whose printed files a real run writes, when no write
      fails; none when it writes nothing. */
  ghost function Writes(d: Disk, ls: seq<Listing>, today: string): Option<Config>
    requires d.config.Loads?
  {
    var c := d.config.config;
    var apply := ToApply(PlanFor(c, ls), today);
    if apply.ChangesConfig() then Usable(Applied(c, apply, today))
    else if Errors(c) == [] && !ConfsCurrent(d.files, c) && !apply.Failed() then Some(c)
    else None
  }

  /** A dry run leaves the disk alone, whatever it finds. */
  lemma DryRunTouchesNothing(d: Disk, live: bool, ls: seq<Listing>, today: string, f: SyncFaults)
    ensures Synchronised(d, true, live, ls, today, f).disk == d
  {
    hide PlanFor, Applied, Errors, ConfsCurrent, WrittenConfs, Updated, UntrustedClock, RenderConf, ToApply;
  }

  /** What it plans. */
  lemma DryRunPlans(d: Disk, live: bool, ls: seq<Listing>, today: string, f: SyncFaults)
    requires d.config.Loads?
    ensures Synchronised(d, true, live, ls, today, f).result.Ok?
    ensures Synchronised(d, true, live, ls, today, f).result.value.report.planned ==
            match Writes(d, ls, today)
            case Some(u) => MainText(u)
            case None => CurrentConf(d.files, d.config.config)
    ensures Synchronised(d, true, live, ls, today, f).result.value.config ==
            match Writes(d, ls, today) case Some(u) => u case None => d.config.config
  {
    hide PlanFor, Applied, Errors, ConfsCurrent, WrittenConfs, Updated, UntrustedClock, RenderConf, ToApply;
    var c := d.config.config;
    var apply := ToApply(PlanFor(c, ls), today);
    var next := Applied(c, apply, today);
    if apply.ChangesConfig() {
      if Usable(next).Some? { ValidRendersMain(next.value); }
    } else if Errors(c) == [] {
      ValidRendersMain(c);
    }
  }

  lemma ValidRendersMain(c: Config)
    requires Errors(c) == []
    ensures RenderMain(c).Ok? && Renders(c)
  {
    hide Errors, RenderConf, RenderState;
    ValidRenders(c);
  }

  lemma AppliedPaths(c: Config, p: Plan, today: string)
    requires Applied(c, p, today).Ok?
    ensures Applied(c, p, today).value.btrbkConf == c.btrbkConf
    ensures StatePath(Applied(c, p, today).value) == StatePath(c)
  {
    hide StatePath, AdoptAll, NamesIn;
    MarkedPath(c, p.retire, Some(today));
    MarkedPath(MarkAll(c, p.retire, Some(today)).value, p.revive, None);
    SameStatePath(c, Applied(c, p, today).value);
  }

  lemma SameStatePath(c: Config, d: Config)
    requires c.btrbkConf == d.btrbkConf
    ensures StatePath(c) == StatePath(d)
  {
  }

  lemma {:induction false} MarkedPath(c: Config, refs: seq<EntryRef>, value: Option<string>)
    ensures MarkAll(c, refs, value).Ok? ==> MarkAll(c, refs, value).value.btrbkConf == c.btrbkConf
    decreases |refs|
  {
    if refs != [] && SetRetired(c, refs[0], value).Some? {
      MarkedPath(SetRetired(c, refs[0], value).value, refs[1..], value);
    }
  }

  /** What a real run leaves when no write fails. */
  lemma RealRunLeaves(d: Disk, ls: seq<Listing>, today: string)
    requires d.config.Loads?
    ensures Synchronised(d, false, false, ls, today, NO_FAULTS).disk ==
            match Writes(d, ls, today)
            case None => d
            case Some(u) =>
              Disk(WrittenConfs(d.files, u, Works, Works).files,
                   if ToApply(PlanFor(d.config.config, ls), today).ChangesConfig() then Loads(Pinned(u)) else d.config)
  {
    hide PlanFor, Applied, Errors, ConfsCurrent, UntrustedClock, RenderConf, RenderState, ToApply, StatePath, Pinned;
    var c := d.config.config;
    var apply := ToApply(PlanFor(c, ls), today);
    var next := Applied(c, apply, today);
    if apply.ChangesConfig() {
      if Usable(next).Some? { ValidRendersMain(next.value); }
    } else if Errors(c) == [] {
      ValidRendersMain(c);
    }
  }

  lemma ConfAfterWriting(files: map<string, Stored>, u: Config)
    requires Errors(u) == []
    ensures CurrentConf(WrittenConfs(files, u, Works, Works).files, u) ==
            if u.btrbkConf != StatePath(u) then MainText(u) else StateText(u)
  {
    hide Errors, RenderConf, AnyAfterIndex, StatePath;
    ValidRenders(u);
  }

  lemma WritesValid(d: Disk, ls: seq<Listing>, today: string)
    requires d.config.Loads? && Writes(d, ls, today).Some?
    ensures Errors(Writes(d, ls, today).value) == []
    ensures Writes(d, ls, today).value.btrbkConf == d.config.config.btrbkConf
    ensures StatePath(Writes(d, ls, today).value) == StatePath(d.config.config)
  {
    hide PlanFor, Applied, Errors, ConfsCurrent, UntrustedClock, ToApply, StatePath;
    var c := d.config.config;
    var apply := ToApply(PlanFor(c, ls), today);
    if apply.ChangesConfig() { AppliedPaths(c, apply, today); }
  }

  /** What `btrbk.conf` holds after the real run. */
  lemma ConfAfterRun(d: Disk, ls: seq<Listing>, today: string)
    requires d.config.Loads?
    ensures CurrentConf(Synchronised(d, false, false, ls, today, NO_FAULTS).disk.files, d.config.config) ==
            match Writes(d, ls, today)
            case None => CurrentConf(d.files, d.config.config)
            case Some(u) =>
              if d.config.config.btrbkConf != StatePath(d.config.config) then MainText(u) else StateText(u)
  {
    hide PlanFor, Applied, Errors, ConfsCurrent, UntrustedClock, RenderConf, RenderState, ToApply, StatePath, Pinned,
         Synchronised, WrittenConfs, Writes;
    RealRunLeaves(d, ls, today);
    if Writes(d, ls, today).Some? {
      var u := Writes(d, ls, today).value;
      WritesValid(d, ls, today);
      ConfAfterWriting(d.files, u);
    }
  }

  /** A run that writes the files of `u` leaves `btrbk.conf` as `u` prints it. */
  ghost predicate LeavesMainText(d: Disk, u: Config) {
    d.config.Loads? &&
    (d.config.config.btrbkConf != StatePath(d.config.config) || StateText(u) == MainText(u))
  }

  /** Dry-run fidelity. For every disk, listing and date, the `btrbk.conf` a
      dry run plans is what `btrbk.conf` holds after the real run in which no
      write fails: exactly unless `btrbk.conf` is itself named as the state
      file, is written, and the two texts differ. */
  lemma DryRunFidelity(d: Disk, ls: seq<Listing>, today: string, live: bool, f: SyncFaults)
    requires d.config.Loads?
    ensures Synchronised(d, true, live, ls, today, f).result.Ok?
    ensures Synchronised(d, true, live, ls, today, f).result.value.report.planned ==
            CurrentConf(Synchronised(d, false, false, ls, today, NO_FAULTS).disk.files, d.config.config) <==>
            Writes(d, ls, today).None? || LeavesMainText(d, Writes(d, ls, today).value)
  {
    hide PlanFor, Applied, Errors, ConfsCurrent, UntrustedClock, RenderConf, RenderState, ToApply, StatePath, Pinned,
         Synchronised, WrittenConfs, Writes, CurrentConf;
    DryRunPlans(d, live, ls, today, f);
    ConfAfterRun(d, ls, today);
    if Writes(d, ls, today).Some? {
      WritesValid(d, ls, today);
      ValidRendersMain(Writes(d, ls, today).value);
    }
  }

  /** The configuration a dry run says would be left is what `config.toml`
      loads to after the real run, its names written out. */
  lemma DryRunConfig(d: Disk, ls: seq<Listing>, today: string, live: bool, f: SyncFaults)
    requires d.config.Loads?
    ensures Synchronised(d, true, live, ls, today, f).result.Ok?
    ensures var left := Synchronised(d, true, live, ls, today, f).result.value.config;
            var after := Synchronised(d, false, false, ls, today, NO_FAULTS).disk.config;
            after == (if ToApply(PlanFor(d.config.config, ls), today).ChangesConfig() && Writes(d, ls, today).Some?
                      then Loads(Pinned(left)) else Loads(left))
  {
    hide PlanFor, Applied, Errors, ConfsCurrent, UntrustedClock, RenderConf, RenderState, ToApply, StatePath, Pinned,
         Synchronised, WrittenConfs, CurrentConf;
    DryRunPlans(d, live, ls, today, f);
    RealRunLeaves(d, ls, today);
  }
}
