// Saving a configuration and the two files printed from it: all three, or
// none (indexer/src/btrbk_conf.rs).
module Save {
  import opened Base
  import opened Config
  import opened Glob
  import opened Names
  import opened Validate
  import opened Render
  import opened Runs
  import opened PinnedPlans
  import opened Files

  // ---------------------------------------------------------------------
  // Where the state file is.

  const STATE_CONF := "btrbk-state.conf"

  function WithoutTrailingSlashes(s: string): string {
    if s != [] && s[|s| - 1] == '/' then WithoutTrailingSlashes(s[..|s| - 1]) else s
  }

  /** `Path::parent`: none for the root and for the empty path. */
  function Parent(path: string): Option<string> {
    var p := WithoutTrailingSlashes(path);
    if p == [] then None
    else match LastSlash(p)
      case None => Some("")
      case Some(cut) =>
        var dir := WithoutTrailingSlashes(p[..cut]);
        Some(if dir == [] then "/" else dir)
  }

  function JoinPath(dir: string, name: string): string {
    if dir == [] || dir[|dir| - 1] == '/' then dir + name else dir + "/" + name
  }

  /** `btrbk-state.conf` beside `btrbk.conf`. */
  function StatePath(c: Config): string {
    JoinPath(match Parent(c.btrbkConf) case Some(dir) => dir case None => "/etc/btrbk", STATE_CONF)
  }

  // ---------------------------------------------------------------------
  // Writing both printed files.

  datatype Step = Rendering | MainConf | StateConf | ConfigToml

  predicate Renders(c: Config) { RenderMain(c).Ok? && RenderState(c).Ok? }

  /** The text of `btrbk.conf`, where it can be printed. */
  function MainText(c: Config): Option<string> { if RenderMain(c).Ok? then Some(RenderMain(c).value) else None }

  /** The text of the state file, where there is one. */
  function StateText(c: Config): Option<string> { if RenderState(c).Ok? then RenderState(c).value else None }

  datatype Written = Written(files: map<string, Stored>, failed: Option<Step>)

  /** `write_rendered_confs`: both printed before either is written. */
  function WrittenConfs(files: map<string, Stored>, c: Config, main: Fault, state: Fault): Written {
    if !Renders(c) then Written(files, Some(Rendering))
    else
      var first := Replaced(files, c.btrbkConf, RenderMain(c).value, main);
      if !main.Works? then Written(first, Some(MainConf))
      else
        Written(WrittenOrRemoved(first, StatePath(c), RenderState(c).value, state),
                if state.Works? then None else Some(StateConf))
  }

  method WriteRenderedConfs(host: Host, c: Config, main: Fault, state: Fault) returns (failed: Option<Step>)
    modifies host`files
    ensures Written(host.files, failed) == WrittenConfs(old(host.files), c, main, state)
  {
    hide RenderConf, StatePath, AnyAfterIndex;
    var mainText := RenderWith(c, Main);
    if mainText.Err? { return Some(Rendering); }
    var stateText := RenderStateConf(c);
    if stateText.Err? { return Some(Rendering); }
    var ok := host.WriteAtomic(c.btrbkConf, mainText.value, main);
    if !ok { return Some(MainConf); }
    ok := host.WriteOrRemove(StatePath(c), stateText.value, state);
    if !ok { return Some(StateConf); }
    return None;
  }

  /** `confs_are_current`: both files say exactly what `c` prints. */
  predicate ConfsCurrent(files: map<string, Stored>, c: Config) {
    Renders(c) && At(files, c.btrbkConf) == Holds(RenderMain(c).value) &&
    At(files, StatePath(c)) == match RenderState(c).value case Some(text) => Holds(text) case None => Absent
  }

  /** `config.toml` loads, and the printed files agree with it. */
  ghost predicate Agree(d: Disk) { d.config.Loads? && ConfsCurrent(d.files, d.config.config) }

  // ---------------------------------------------------------------------
  // Saving `config.toml`.

  /** `save` edits the file there is, and refuses one it cannot read;
      `save_text` replaces whatever is there. */
  datatype Saver = Edits | Retypes

  datatype Stamp = Stamp(config: ConfigFile, ok: bool)

  /** That the edited document loads to `Pinned(c)` is `ConfigTree.SavedConfigLoads`. */
  function SavedConfig(config: ConfigFile, c: Config, saver: Saver, fault: Fault): Stamp {
    if (saver.Edits? && config.NotAConfig?) || fault.FailsBefore? then Stamp(config, false)
    else Stamp(Loads(Pinned(c)), fault.Works?)
  }

  method SaveConfig(host: Host, c: Config, saver: Saver, fault: Fault) returns (ok: bool)
    modifies host`config
    ensures Stamp(host.config, ok) == SavedConfig(old(host.config), c, saver, fault)
  {
    hide Pinned;
    if saver.Edits? && host.config.NotAConfig? { return false; }
    var pinned := WithPinnedSnapshotNames(c);
    if fault != FailsBefore { host.config := Loads(pinned); }
    ok := fault.Works?;
  }

  // ---------------------------------------------------------------------
  // The transaction.

  datatype Faults = Faults(main: Fault, state: Fault, config: Fault, restoreMain: Fault, restoreState: Fault)

  datatype Refusal = Invalid(errors: seq<ConfigError>) | WouldWriteLiveFiles | NoRollbackCopy(path: string)

  datatype Outcome = Done | Refused(why: Refusal) | NotSaved(step: Step) | RollbackFailed(step: Step)

  datatype SaveResult = SaveResult(disk: Disk, outcome: Outcome)

  function Previous(held: Held): Option<string> {
    match held case Holds(text) => Some(text) case _ => None
  }

  /** The writes, in order: both printed files, then `config.toml`. */
  function Attempted(d: Disk, c: Config, saver: Saver, f: Faults): (Disk, Option<Step>) {
    var w := WrittenConfs(d.files, c, f.main, f.state);
    if w.failed.Some? then (Disk(w.files, d.config), w.failed)
    else
      var s := SavedConfig(d.config, c, saver, f.config);
      (Disk(w.files, s.config), if s.ok then None else Some(ConfigToml))
  }

  /** Both files put back, the second even if the first could not be. */
  function RolledBack(d: Disk, files: map<string, Stored>, c: Config, f: Faults): map<string, Stored> {
    WrittenOrRemoved(WrittenOrRemoved(files, c.btrbkConf, Previous(At(d.files, c.btrbkConf)), f.restoreMain),
        StatePath(c), Previous(At(d.files, StatePath(c))), f.restoreState)
  }

  /** `live` says the outputs are the host's live files and this is not the
      host's configuration. */
  function Saved(d: Disk, c: Config, live: bool, saver: Saver, f: Faults): SaveResult {
    if Errors(c) != [] then SaveResult(d, Refused(Invalid(Errors(c))))
    else if live then SaveResult(d, Refused(WouldWriteLiveFiles))
    else if At(d.files, c.btrbkConf).Unreadable? then SaveResult(d, Refused(NoRollbackCopy(c.btrbkConf)))
    else if At(d.files, StatePath(c)).Unreadable? then SaveResult(d, Refused(NoRollbackCopy(StatePath(c))))
    else
      var (after, failure) := Attempted(d, c, saver, f);
      if failure.None? then SaveResult(after, Done)
      else
        var back := Disk(RolledBack(d, after.files, c, f), after.config);
        if f.restoreMain.Works? && f.restoreState.Works? then SaveResult(back, NotSaved(failure.value))
        else SaveResult(back, RollbackFailed(failure.value))
  }

  /** `save_config_and_btrbk_conf_with`. */
  method SaveConfigAndConfs(host: Host, c: Config, live: bool, saver: Saver, f: Faults) returns (outcome: Outcome)
    modifies host
    ensures SaveResult(host.Now(), outcome) == Saved(old(host.Now()), c, live, saver, f)
  {
    hide Renders, RenderConf, AnyAfterIndex, Pinned, StatePath, Errors;
    var errors := Errors(c);
    if errors != [] { return Refused(Invalid(errors)); }
    if live { return Refused(WouldWriteLiveFiles); }
    var main := host.ReadFile(c.btrbkConf);
    if main.Unreadable? { return Refused(NoRollbackCopy(c.btrbkConf)); }
    var state := host.ReadFile(StatePath(c));
    if state.Unreadable? { return Refused(NoRollbackCopy(StatePath(c))); }
    var failure := WriteRenderedConfs(host, c, f.main, f.state);
    if failure.None? {
      var ok := SaveConfig(host, c, saver, f.config);
      if ok { return Done; }
      failure := Some(ConfigToml);
    }
    var first := host.WriteOrRemove(c.btrbkConf, Previous(main), f.restoreMain);
    var second := host.WriteOrRemove(StatePath(c), Previous(state), f.restoreState);
    outcome := if first && second then NotSaved(failure.value) else RollbackFailed(failure.value);
  }

  // ---------------------------------------------------------------------
  // All three new, or all as before.

  lemma ConfsWritten(files: map<string, Stored>, c: Config)
    requires Renders(c) && c.btrbkConf != StatePath(c)
    ensures ConfsCurrent(WrittenConfs(files, c, Works, Works).files, c)
  {
    hide RenderConf, AnyAfterIndex, StatePath;
  }

  lemma PutBack(before: map<string, Stored>, now: map<string, Stored>, main: string, state: string)
    requires !At(before, main).Unreadable? && !At(before, state).Unreadable? && main != state
    requires forall p :: p != main && p != state ==> At(now, p) == At(before, p)
    ensures var one := WrittenOrRemoved(now, main, Previous(At(before, main)), Works);
            WrittenOrRemoved(one, state, Previous(At(before, state)), Works) == before
  {
    var one := WrittenOrRemoved(now, main, Previous(At(before, main)), Works);
    var two := WrittenOrRemoved(one, state, Previous(At(before, state)), Works);
    forall p ensures p in two <==> p in before { assert At(two, p) == At(before, p); }
    forall p | p in before ensures two[p] == before[p] { assert At(two, p) == At(before, p); }
  }

  lemma AttemptTouchesTwo(d: Disk, c: Config, saver: Saver, f: Faults)
    ensures forall p :: p != c.btrbkConf && p != StatePath(c) ==>
              At(Attempted(d, c, saver, f).0.files, p) == At(d.files, p)
  {
    hide RenderConf, AnyAfterIndex, StatePath, Pinned;
  }

  lemma RollbackTouchesTwo(d: Disk, files: map<string, Stored>, c: Config, f: Faults, path: string)
    requires path != c.btrbkConf && path != StatePath(c)
    ensures At(RolledBack(d, files, c, f), path) == At(files, path)
  {
    hide StatePath;
  }

  /** Only the two files are ever touched, whatever fails. */
  lemma OtherFilesUntouched(d: Disk, c: Config, live: bool, saver: Saver, f: Faults, path: string)
    requires path != c.btrbkConf && path != StatePath(c)
    ensures At(Saved(d, c, live, saver, f).disk.files, path) == At(d.files, path)
  {
    hide RenderConf, AnyAfterIndex, StatePath, Errors, Pinned, Attempted, RolledBack, At;
    AttemptTouchesTwo(d, c, saver, f);
    RollbackTouchesTwo(d, Attempted(d, c, saver, f).0.files, c, f, path);
  }

  lemma ConfsFailWhen(files: map<string, Stored>, c: Config, main: Fault, state: Fault)
    ensures WrittenConfs(files, c, main, state).failed.None? <==> Renders(c) && main.Works? && state.Works?
  {
    hide Renders, StatePath;
  }

  /** The one failure a rollback does not undo: `config.toml` was replaced,
      and only flushing its directory failed. */
  predicate ConfigReplacedYetFailed(d: Disk, saver: Saver, f: Faults) {
    f.main.Works? && f.state.Works? && f.config.FailsAfter? && !(saver.Edits? && d.config.NotAConfig?)
  }

  /** A save that succeeds leaves all three new and agreeing; a refusal leaves
      the disk as it was; and a failure is undone, absence included, unless
      the error says the rollback failed. What is undone is both printed
      files always, and `config.toml` in every case but one. */
  lemma SaveIsAllOrNothing(d: Disk, c: Config, live: bool, saver: Saver, f: Faults)
    requires c.btrbkConf != StatePath(c)
    ensures var r := Saved(d, c, live, saver, f);
            match r.outcome
            case Done => Agree(r.disk) && r.disk.config == Loads(Pinned(c))
            case Refused(_) => r.disk == d
            case NotSaved(_) =>
              r.disk.files == d.files &&
              r.disk.config == (if ConfigReplacedYetFailed(d, saver, f) then Loads(Pinned(c)) else d.config)
            case RollbackFailed(_) => !f.restoreMain.Works? || !f.restoreState.Works?
  {
    hide RenderConf, AnyAfterIndex, StatePath, Errors, Pinned, WrittenConfs, Renders;
    var r := Saved(d, c, live, saver, f);
    match r.outcome {
      case Done => SavedAgrees(d, c, live, saver, f);
      case NotSaved(_) =>
        ValidRenders(c);
        ConfsFailWhen(d.files, c, f.main, f.state);
        AttemptTouchesTwo(d, c, saver, f);
        PutBack(d.files, Attempted(d, c, saver, f).0.files, c.btrbkConf, StatePath(c));
      case _ =>
    }
  }

  lemma PinnedPaths(c: Config)
    ensures Pinned(c).btrbkConf == c.btrbkConf && StatePath(Pinned(c)) == StatePath(c)
  {
  }

  lemma PinnedConfsCurrent(files: map<string, Stored>, c: Config)
    requires TopsNamed(c.sources)
    ensures ConfsCurrent(files, Pinned(c)) <==> ConfsCurrent(files, c)
  {
    hide RenderConf, RenderState, StatePath, Pinned;
    PinningChangesNoPrint(c);
    PinnedPaths(c);
  }

  lemma ValidRenders(c: Config)
    requires Errors(c) == []
    ensures Renders(c)
  {
    hide Printed, ConfLines, Errors;
    ValidParts(c);
  }

  lemma SavedAgrees(d: Disk, c: Config, live: bool, saver: Saver, f: Faults)
    requires c.btrbkConf != StatePath(c) && Saved(d, c, live, saver, f).outcome.Done?
    ensures Agree(Saved(d, c, live, saver, f).disk) && Saved(d, c, live, saver, f).disk.config == Loads(Pinned(c))
  {
    hide RenderConf, RenderState, StatePath, Pinned, Errors, Renders;
    ValidRenders(c);
    ValidNamesTops(c);
    assert f.main.Works? && f.state.Works? by { OnlyIfBothWork(d, c, saver, f); }
    ConfsWritten(d.files, c);
    PinnedConfsCurrent(WrittenConfs(d.files, c, Works, Works).files, c);
  }

  lemma OnlyIfBothWork(d: Disk, c: Config, saver: Saver, f: Faults)
    requires Attempted(d, c, saver, f).1.None?
    ensures f.main.Works? && f.state.Works?
  {
    hide Renders, StatePath, Pinned;
  }

  /** When it succeeds. */
  lemma SavesExactlyWhen(d: Disk, c: Config, live: bool, saver: Saver, f: Faults)
    ensures Saved(d, c, live, saver, f).outcome.Done? <==>
            Errors(c) == [] && !live && !At(d.files, c.btrbkConf).Unreadable? &&
                !At(d.files, StatePath(c)).Unreadable? &&
            f.main.Works? && f.state.Works? && f.config.Works? && !(saver.Edits? && d.config.NotAConfig?)
  {
    hide Renders, StatePath, Pinned, Errors;
    if Errors(c) == [] { ValidRenders(c); }
  }

  /** An undone save leaves everything as it was exactly unless `config.toml`
      was already replaced, by something else than it held. */
  lemma UndoneExactlyUnless(d: Disk, c: Config, live: bool, saver: Saver, f: Faults)
    requires c.btrbkConf != StatePath(c) && Saved(d, c, live, saver, f).outcome.NotSaved?
    ensures var r := Saved(d, c, live, saver, f);
            r.disk == d <==> !(ConfigReplacedYetFailed(d, saver, f) && d.config != Loads(Pinned(c)))
  {
    hide Saved, Pinned, StatePath, ConfigReplacedYetFailed;
    SaveIsAllOrNothing(d, c, live, saver, f);
  }

  /** Both texts can be where they belong at once. */
  predicate CanAgree(c: Config) { c.btrbkConf != StatePath(c) || StateText(c) == MainText(c) }

  lemma NeverCurrent(files: map<string, Stored>, c: Config)
    requires ConfsCurrent(files, c)
    ensures CanAgree(c)
  {
    hide RenderConf, AnyAfterIndex, StatePath;
  }

  /** What writing both files makes of them. */
  lemma WrittenAreCurrent(files: map<string, Stored>, c: Config, main: Fault, state: Fault)
    requires WrittenConfs(files, c, main, state).failed.None?
    ensures ConfsCurrent(WrittenConfs(files, c, main, state).files, c) <==> CanAgree(c)
  {
    hide RenderConf, AnyAfterIndex, StatePath;
    assert Renders(c) && main.Works? && state.Works?;
  }

  /** With `btrbk.conf` itself named `btrbk-state.conf` the two paths are one,
      and a save that succeeds leaves only the state text, or no file. */
  lemma OnePathLosesMain(d: Disk, c: Config, live: bool, saver: Saver, f: Faults)
    requires c.btrbkConf == StatePath(c) && Saved(d, c, live, saver, f).outcome.Done?
    ensures At(Saved(d, c, live, saver, f).disk.files, c.btrbkConf) ==
            match StateText(c) case Some(text) => Holds(text) case None => Absent
  {
    hide RenderConf, AnyAfterIndex, Pinned, Errors, StatePath;
    ValidRenders(c);
    OnlyIfBothWork(d, c, saver, f);
  }

  lemma WhatSucceeded(d: Disk, c: Config, live: bool, saver: Saver, f: Faults)
    requires Saved(d, c, live, saver, f).outcome.Done?
    ensures Errors(c) == [] && WrittenConfs(d.files, c, f.main, f.state).failed.None?
    ensures Saved(d, c, live, saver, f).disk == Disk(WrittenConfs(d.files, c, f.main, f.state).files, Loads(Pinned(c)))
  {
    hide Errors, StatePath, Pinned, WrittenConfs, Renders;
  }

  /** A save that succeeds leaves the three files in agreement exactly when
      the two printed ones have paths of their own, or the same text. */
  lemma SavedAgreesExactly(d: Disk, c: Config, live: bool, saver: Saver, f: Faults)
    requires Saved(d, c, live, saver, f).outcome.Done?
    ensures Agree(Saved(d, c, live, saver, f).disk) <==> CanAgree(c)
  {
    WhatSucceeded(d, c, live, saver, f);
    hide RenderConf, RenderState, StatePath, Pinned, Errors, Renders, WrittenConfs, CanAgree, Saved, ConfsCurrent;
    ValidNamesTops(c);
    WrittenAreCurrent(d.files, c, f.main, f.state);
    PinnedConfsCurrent(WrittenConfs(d.files, c, f.main, f.state).files, c);
  }
}
