// What a sync leaves when a write fails (`write_updated`, indexer/src/adopt.rs).
module SyncFailures {
  import opened Base
  import opened Config
  import opened Names
  import opened CalDate
  import opened Sync
  import opened Apply
  import opened Validate
  import opened Render
  import opened Runs
  import opened PinnedPlans
  import opened Files
  import opened Save
  import opened SyncRun

  /** Not all or nothing: whenever the state file's write fails, `btrbk.conf`
      keeps the new text and `config.toml` the old configuration; nothing is
      put back. */
  lemma StateConfFailureKeepsMain(d: Disk, c: Config, u: Config, f: SyncFaults)
    requires d.config == Loads(c) && Errors(u) == [] && u.btrbkConf != StatePath(u)
    requires f.main.Works? && !f.state.Works?
    ensures var e := Updated(d, c, Ok(u), f);
            e.error == Some(ConfsNotWritten(StateConf)) && e.disk.config == d.config &&
            MainText(u).Some? && At(e.disk.files, u.btrbkConf) == HeldOf(MainText(u)) &&
            At(e.disk.files, StatePath(u)) ==
            if f.state.FailsAfter? && StateText(u).Some? then HeldOf(StateText(u)) else At(d.files, StatePath(u))
  {
    hide RenderConf, RenderState, StatePath, Errors;
    ValidRenders(u);
  }

  // ---------------------------------------------------------------------
  // Exactly when a failure leaves everything as it was.

  predicate SaysMain(files: map<string, Stored>, c: Config) { At(files, c.btrbkConf) == HeldOf(MainText(c)) }

  predicate SaysState(files: map<string, Stored>, c: Config) { At(files, StatePath(c)) == HeldOf(StateText(c)) }

  /** A write that fails after the new file is in place leaves it; a removal
      that fails leaves the old one. */
  predicate PutInPlace(text: Option<string>, fault: Fault) { fault.Works? || (fault.FailsAfter? && text.Some?) }

  /** The disk, before the run, holds what the writes that got through leave:
      `u` is what was to be saved over `c`. */
  ghost predicate LeavesAsBefore(d: Disk, c: Config, u: Config, f: SyncFaults) {
    if f.main.FailsBefore? then true
    else if f.main.FailsAfter? then SaysMain(d.files, u)
    else if !f.state.Works? then
      SaysMain(d.files, u) && (PutInPlace(StateText(u), f.state) ==> SaysState(d.files, u))
    else
      (f.config.FailsBefore? || Pinned(u) == c) &&
      if !Renders(c) || f.restoreMain.FailsBefore? then SaysMain(d.files, u) && SaysState(d.files, u)
      else
        SaysMain(d.files, c) &&
        if f.restoreMain.Works? && PutInPlace(StateText(c), f.restoreState) then SaysState(d.files, c)
        else SaysState(d.files, u)
  }

  /** Two sets of files that can differ at two paths only. */
  lemma SameFiles(a: map<string, Stored>, b: map<string, Stored>, x: string, y: string)
    requires forall p :: p != x && p != y ==> At(a, p) == At(b, p)
    ensures a == b <==> At(a, x) == At(b, x) && At(a, y) == At(b, y)
  {
    if At(a, x) == At(b, x) && At(a, y) == At(b, y) {
      forall p ensures p in a <==> p in b { assert At(a, p) == At(b, p); }
      forall p | p in a ensures a[p] == b[p] { assert At(a, p) == At(b, p); }
    }
  }

  /** What one pass over both files leaves in them. */
  lemma ConfsRead(files: map<string, Stored>, c: Config, main: Fault, state: Fault)
    requires c.btrbkConf != StatePath(c)
    ensures var w := WrittenConfs(files, c, main, state).files;
            At(w, c.btrbkConf) ==
            (if Renders(c) && !main.FailsBefore? then HeldOf(MainText(c)) else At(files, c.btrbkConf)) &&
            At(w, StatePath(c)) ==
            (if Renders(c) && main.Works? && PutInPlace(StateText(c), state) then HeldOf(StateText(c))
             else At(files, StatePath(c)))
    ensures forall p :: p != c.btrbkConf && p != StatePath(c) ==>
              At(WrittenConfs(files, c, main, state).files, p) == At(files, p)
  {
    hide RenderConf, RenderState, StatePath;
  }

  /** The first pass fails: nothing is put back. */
  lemma FirstPassFails(d: Disk, c: Config, u: Config, f: SyncFaults)
    requires d.config == Loads(c) && Errors(u) == [] && Renders(u) && u.btrbkConf != StatePath(u)
    requires !f.main.Works? || !f.state.Works?
    ensures WrittenConfs(d.files, u, f.main, f.state).files == d.files <==> LeavesAsBefore(d, c, u, f)
    ensures Updated(d, c, Ok(u), f).disk == d <==> LeavesAsBefore(d, c, u, f)
  {
    hide Errors, StatePath, MainText, StateText, Renders, Pinned, WrittenConfs;
    var w := WrittenConfs(d.files, u, f.main, f.state);
    ConfsRead(d.files, u, f.main, f.state);
    SameFiles(w.files, d.files, u.btrbkConf, StatePath(u));
    ConfsFailWhen(d.files, u, f.main, f.state);
  }

  /** `config.toml` is not saved: both files are printed again from `c`. */
  lemma SecondPass(d: Disk, c: Config, u: Config, f: SyncFaults)
    requires d.config == Loads(c) && Errors(u) == [] && Renders(u) && u.btrbkConf != StatePath(u)
    requires u.btrbkConf == c.btrbkConf && StatePath(u) == StatePath(c)
    requires f.main.Works? && f.state.Works? && !f.config.Works?
    ensures Updated(d, c, Ok(u), f).disk == d <==> LeavesAsBefore(d, c, u, f)
  {
    hide Errors, StatePath, MainText, StateText, Renders, Pinned, WrittenConfs;
    var w := WrittenConfs(d.files, u, f.main, f.state);
    var back := WrittenConfs(w.files, c, f.restoreMain, f.restoreState);
    ConfsFailWhen(d.files, u, f.main, f.state);
    ConfsRead(d.files, u, f.main, f.state);
    ConfsRead(w.files, c, f.restoreMain, f.restoreState);
    SameFiles(back.files, d.files, u.btrbkConf, StatePath(u));
  }

  lemma BothWrittenThen(d: Disk, c: Config, u: Config, f: SyncFaults)
    requires d.config == Loads(c) && Errors(u) == [] && Renders(u) && f.main.Works? && f.state.Works?
    requires Updated(d, c, Ok(u), f).error.Some?
    ensures !f.config.Works?
  {
    hide Errors, Renders, Pinned, WrittenConfs, StatePath;
    ConfsFailWhen(d.files, u, f.main, f.state);
  }

  /** Whatever fails, and whatever the files held: a run that could not write
      its plan leaves the disk as it was exactly when the writes that got
      through put what was already there. */
  lemma FailedUpdateExactly(d: Disk, c: Config, u: Config, f: SyncFaults)
    requires d.config == Loads(c) && Errors(u) == []
    requires u.btrbkConf == c.btrbkConf && c.btrbkConf != StatePath(c)
    requires Updated(d, c, Ok(u), f).error.Some?
    ensures Updated(d, c, Ok(u), f).disk == d <==> LeavesAsBefore(d, c, u, f)
  {
    SameStatePath(c, u);
    ValidRenders(u);
    hide Errors, StatePath, Renders, LeavesAsBefore, Updated;
    if f.main.Works? && f.state.Works? {
      BothWrittenThen(d, c, u, f);
      SecondPass(d, c, u, f);
    } else {
      FirstPassFails(d, c, u, f);
    }
  }

  /** A run that changes no entry and could not regenerate the files. */
  lemma FailedRegenerationExactly(d: Disk, c: Config, syncFailed: bool, f: SyncFaults)
    requires d.config == Loads(c) && c.btrbkConf != StatePath(c) && Errors(c) == []
    requires IntoLine(d.files, c, false, syncFailed, f).error.Some?
    ensures !ConfsCurrent(d.files, c) && !syncFailed
    ensures IntoLine(d.files, c, false, syncFailed, f).files == d.files <==> LeavesAsBefore(d, c, c, f)
  {
    ValidRenders(c);
    hide Errors, StatePath, Renders, LeavesAsBefore, WrittenConfs, ConfsCurrent;
    ConfsFailWhen(d.files, c, f.main, f.state);
    FirstPassFails(d, c, c, f);
  }

  /** The same of a whole run, whether it was to carry out a plan or only to
      regenerate the files: it also leaves the disk alone when there is nothing
      valid to write. */
  lemma FailedSyncExactly(d: Disk, ls: seq<Listing>, today: string, f: SyncFaults)
    requires d.config.Loads? && d.config.config.btrbkConf != StatePath(d.config.config)
    requires Synchronised(d, false, false, ls, today, f).result.value.report.writeError.Some?
    ensures Synchronised(d, false, false, ls, today, f).disk == d <==>
            Writes(d, ls, today).None? || LeavesAsBefore(d, d.config.config, Writes(d, ls, today).value, f)
  {
    hide PlanFor, Applied, UntrustedClock, ToApply, Errors, StatePath, LeavesAsBefore, WrittenConfs, SavedConfig,
         ConfsCurrent;
    var c := d.config.config;
    var apply := ToApply(PlanFor(c, ls), today);
    if !apply.ChangesConfig() {
      if Errors(c) == [] { FailedRegenerationExactly(d, c, apply.Failed(), f); }
    } else if Writes(d, ls, today).Some? {
      AppliedPaths(c, apply, today);
      FailedUpdateExactly(d, c, Applied(c, apply, today).value, f);
    }
  }

  /** The disk once the files are put back. */
  lemma PutBackLeaves(d: Disk, c: Config, u: Config, f: SyncFaults)
    requires d.config == Loads(c) && Updated(d, c, Ok(u), f).error == Some(ConfigNotSaved(None))
    ensures Errors(u) == []
    ensures var w := WrittenConfs(d.files, u, f.main, f.state);
            var back := WrittenConfs(w.files, c, f.restoreMain, f.restoreState);
            back.failed.None? && Updated(d, c, Ok(u), f).disk ==
            Disk(back.files, if f.config.FailsBefore? then Loads(c) else Loads(Pinned(u)))
  {
    hide Errors, WrittenConfs, StatePath, Pinned;
  }

  /** When saving `config.toml` fails and the files are put back, they say
      what the old configuration prints, whatever they said before. All three
      agree then exactly when the new `config.toml` was not yet in place, or
      both configurations print the same. */
  lemma FailedSaveReprintsOld(d: Disk, c: Config, u: Config, f: SyncFaults)
    requires d.config == Loads(c) && u.btrbkConf == c.btrbkConf && c.btrbkConf != StatePath(c)
    requires Updated(d, c, Ok(u), f).error == Some(ConfigNotSaved(None))
    ensures ConfsCurrent(Updated(d, c, Ok(u), f).disk.files, c)
    ensures Agree(Updated(d, c, Ok(u), f).disk) <==>
            f.config.FailsBefore? || (MainText(u) == MainText(c) && StateText(u) == StateText(c))
  {
    PutBackLeaves(d, c, u, f);
    SameStatePath(c, u);
    ValidRenders(u);
    ValidNamesTops(u);
    hide Errors, WrittenConfs, StatePath, Pinned, RenderConf, RenderState, TopsNamed, Updated, ConfsCurrent;
    var w := WrittenConfs(d.files, u, f.main, f.state);
    WrittenAreCurrent(w.files, c, f.restoreMain, f.restoreState);
    var files := Updated(d, c, Ok(u), f).disk.files;
    PinnedConfsCurrent(files, u);
    CurrentForBoth(files, c, u);
  }

  lemma CurrentForBoth(files: map<string, Stored>, c: Config, u: Config)
    requires ConfsCurrent(files, c) && Renders(u) && u.btrbkConf == c.btrbkConf && StatePath(u) == StatePath(c)
    ensures ConfsCurrent(files, u) <==> MainText(u) == MainText(c) && StateText(u) == StateText(c)
  {
    hide RenderConf, RenderState, StatePath;
  }
}
