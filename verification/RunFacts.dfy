// Saving and syncing, said once more from outside: where the state file is,
// how a save ends, and what a run's report says of the disk it leaves
// (indexer/src/btrbk_conf.rs, indexer/src/adopt.rs).
module RunFacts {
  import opened Base
  import opened Config
  import opened Glob
  import opened CalDate
  import opened Sync
  import opened Apply
  import opened Names
  import opened Validate
  import opened Render
  import opened Files
  import opened Save
  import opened SyncRun

  // ---------------------------------------------------------------------
  // Where the state file is.

  function Slashes(n: nat): string { seq(n, _ => '/') }

  /** `path` is nothing but slashes. */
  ghost predicate NoName(path: string) { path == Slashes(|path|) }

  /** `path` is one component, perhaps with slashes after it. */
  ghost predicate BareName(path: string) {
    exists file, after ::
      file != "" && '/' !in file && path == file + Slashes(after)
  }

  /** `path` is a component in the directory `dir`, which is the empty text for
      the root. */
  ghost predicate NameIn(path: string, dir: string) {
    (dir == "" || dir[|dir| - 1] != '/') &&
    exists between, file, after ::
      between > 0 && file != "" && '/' !in file && path == dir + Slashes(between) + file + Slashes(after)
  }

  lemma {:induction false} SlashesTrimmed(s: string, n: nat)
    requires s == "" || s[|s| - 1] != '/'
    ensures WithoutTrailingSlashes(s + Slashes(n)) == s
  {
    var all := s + Slashes(n);
    if n == 0 {
      assert all == s;
    } else {
      assert all[..|all| - 1] == s + Slashes(n - 1);
      SlashesTrimmed(s, n - 1);
    }
  }

  /** Every path is some text that does not end in a slash, and slashes. */
  lemma {:induction false} TrimmedAndSlashes(path: string) returns (n: nat)
    ensures var s := WithoutTrailingSlashes(path);
            (s == "" || s[|s| - 1] != '/') && path == s + Slashes(n)
  {
    if path != "" && path[|path| - 1] == '/' {
      n := TrimmedAndSlashes(path[..|path| - 1]);
      n := n + 1;
      assert path == path[..|path| - 1] + "/";
      assert Slashes(n) == Slashes(n - 1) + "/";
    } else {
      n := 0;
      assert path == path + Slashes(0);
    }
  }

  lemma {:induction false} LastSlashAt(dir: string, file: string)
    requires '/' !in file
    ensures LastSlash(dir + "/" + file) == Some(|dir|)
  {
    var s := dir + "/" + file;
    if file != "" {
      LastSlashAt(dir, file[..|file| - 1]);
      assert s[..|s| - 1] == dir + "/" + file[..|file| - 1];
      assert s[|s| - 1] == file[|file| - 1];
    }
  }

  lemma NoSlash(file: string)
    requires '/' !in file
    ensures LastSlash(file).None?
  {
  }

  lemma ParentOfNoName(path: string)
    requires NoName(path)
    ensures Parent(path).None?
  {
    SlashesTrimmed("", |path|);
    assert "" + Slashes(|path|) == path;
  }

  lemma ParentOfBareName(path: string)
    requires BareName(path)
    ensures Parent(path) == Some("")
  {
    var file, after :| file != "" && '/' !in file && path == file + Slashes(after);
    SlashesTrimmed(file, after);
    NoSlash(file);
  }

  lemma ParentOfNameIn(path: string, dir: string)
    requires NameIn(path, dir)
    ensures Parent(path) == Some(if dir == "" then "/" else dir)
  {
    var between, file, after :|
      between > 0 && file != "" && '/' !in file && path == dir + Slashes(between) + file + Slashes(after);
    var front := dir + Slashes(between - 1);
    assert Slashes(between) == Slashes(between - 1) + "/";
    assert dir + Slashes(between) + file == front + "/" + file;
    SlashesTrimmed(front + "/" + file, after);
    LastSlashAt(front, file);
    assert (front + "/" + file)[..|front|] == front;
    SlashesTrimmed(dir, between - 1);
  }

  lemma JoinedPaths(c: Config, dir: string)
    requires dir == "" || dir[|dir| - 1] != '/'
    ensures Parent(c.btrbkConf) == None ==> StatePath(c) == "/etc/btrbk/" + "btrbk-state.conf"
    ensures Parent(c.btrbkConf) == Some("") ==> StatePath(c) == "btrbk-state.conf"
    ensures Parent(c.btrbkConf) == Some(if dir == "" then "/" else dir) && dir != "" ==>
              StatePath(c) == dir + "/" + "btrbk-state.conf"
    ensures Parent(c.btrbkConf) == Some("/") ==> StatePath(c) == "/" + "btrbk-state.conf"
  {
    hide Parent;
    assert "/etc/btrbk" + "/" == "/etc/btrbk/";
  }

  /** `btrbk-state.conf` is in the directory `btrbk.conf` is in: beside it when
      that is a name alone, under `/etc/btrbk` when there is no name. */
  lemma StatePathMeans(c: Config)
    ensures NoName(c.btrbkConf) ==> StatePath(c) == "/etc/btrbk/" + "btrbk-state.conf"
    ensures BareName(c.btrbkConf) ==> StatePath(c) == "btrbk-state.conf"
    ensures forall dir :: NameIn(c.btrbkConf, dir) ==> StatePath(c) == dir + "/" + "btrbk-state.conf"
  {
    hide NoName, BareName, NameIn, StatePath, Parent;
    JoinedPaths(c, "");
    if NoName(c.btrbkConf) { ParentOfNoName(c.btrbkConf); }
    if BareName(c.btrbkConf) { ParentOfBareName(c.btrbkConf); }
    forall dir | NameIn(c.btrbkConf, dir) ensures StatePath(c) == dir + "/" + "btrbk-state.conf" {
      ParentOfNameIn(c.btrbkConf, dir);
      LastOfDir(c.btrbkConf, dir);
      JoinedPaths(c, dir);
    }
  }

  lemma LastOfDir(path: string, dir: string)
    requires NameIn(path, dir)
    ensures dir == "" || dir[|dir| - 1] != '/'
  {
  }

  /** Every path is one of the three. */
  lemma EveryPathIsOne(path: string)
    ensures NoName(path) || BareName(path) || exists dir :: NameIn(path, dir)
  {
    hide NameIn;
    var after := TrimmedAndSlashes(path);
    var p := WithoutTrailingSlashes(path);
    match LastSlash(p) {
      case None =>
        if p == "" {
          assert path == Slashes(after);
        } else {
          OneName(path, p, after);
        }
      case Some(cut) =>
        var before := TrimmedAndSlashes(p[..cut]);
        var dir := WithoutTrailingSlashes(p[..cut]);
        CutAt(path, p, cut, dir, before, after);
        assert NameIn(path, dir);
    }
  }

  lemma CutAt(path: string, p: string, cut: nat, dir: string, before: nat, after: nat)
    requires cut < |p| && p[cut] == '/' && p[|p| - 1] != '/' && forall i :: cut < i < |p| ==> p[i] != '/'
    requires path == p + Slashes(after) && p[..cut] == dir + Slashes(before)
    requires dir == "" || dir[|dir| - 1] != '/'
    ensures NameIn(path, dir)
  {
    var between, file := before + 1, p[cut + 1..];
    assert Slashes(between) == Slashes(before) + "/";
    assert p == p[..cut] + "/" + file;
    assert p == dir + Slashes(between) + file;
    assert file != "" && '/' !in file && path == dir + Slashes(between) + file + Slashes(after);
  }

  lemma OneName(path: string, p: string, after: nat)
    requires p != "" && path == p + Slashes(after) && forall i :: 0 <= i < |p| ==> p[i] != '/'
    ensures BareName(path)
  {
    assert '/' !in p;
  }

  /** The printed files are current exactly when `btrbk.conf` is there and says
      what is printed, and the state file does too, or is not there when none is
      due. */
  lemma CurrentMeans(files: map<string, Stored>, c: Config)
    ensures ConfsCurrent(files, c) <==>
            RenderMain(c).Ok? && RenderState(c).Ok? &&
            c.btrbkConf in files && files[c.btrbkConf] == Holds(RenderMain(c).value) &&
            match RenderState(c).value
            case Some(text) => StatePath(c) in files && files[StatePath(c)] == Holds(text)
            case None => StatePath(c) !in files
  {
    hide RenderMain, RenderState, StatePath;
  }

  // ---------------------------------------------------------------------
  // How a save ends.

  /** The step at which a save of a configuration that may be saved breaks. */
  predicate BreaksAt(d: Disk, saver: Saver, f: Faults, step: Step) {
    match step
    case Rendering => false
    case MainConf => !f.main.Works?
    case StateConf => f.main.Works? && !f.state.Works?
    case ConfigToml => f.main.Works? && f.state.Works? && (!f.config.Works? || (saver.Edits? && d.config.NotAConfig?))
  }

  /** Nothing speaks against saving. */
  predicate MayBeSaved(d: Disk, c: Config, live: bool) {
    Errors(c) == [] && !live && !At(d.files, c.btrbkConf).Unreadable? && !At(d.files, StatePath(c)).Unreadable?
  }

  /** A refusal gives the first reason there is: complaints, the host's own
      files, a file of which no copy can be kept, `btrbk.conf` first. */
  lemma RefusedBecause(d: Disk, c: Config, live: bool, saver: Saver, f: Faults)
    ensures var r := Saved(d, c, live, saver, f).outcome;
            (r.Refused? <==> !MayBeSaved(d, c, live)) &&
            (r == Refused(Invalid(Errors(c))) <==> Errors(c) != []) &&
            (r == Refused(WouldWriteLiveFiles) <==> Errors(c) == [] && live) &&
            forall path :: r == Refused(NoRollbackCopy(path)) <==>
              Errors(c) == [] && !live && At(d.files, path).Unreadable? &&
              (path == c.btrbkConf || (path == StatePath(c) && !At(d.files, c.btrbkConf).Unreadable?))
  {
    hide Errors, Attempted, RolledBack, StatePath;
  }

  /** Any other failure names the step that broke, and whether both files could
      be put back. */
  lemma BrokenAt(d: Disk, c: Config, live: bool, saver: Saver, f: Faults, step: Step)
    ensures var r := Saved(d, c, live, saver, f).outcome;
            (r == NotSaved(step) <==>
               MayBeSaved(d, c, live) && BreaksAt(d, saver, f, step) &&
               f.restoreMain.Works? && f.restoreState.Works?) &&
            (r == RollbackFailed(step) <==>
               MayBeSaved(d, c, live) && BreaksAt(d, saver, f, step) &&
               !(f.restoreMain.Works? && f.restoreState.Works?))
  {
    hide Errors, Renders, RolledBack, StatePath, Pinned;
    if Errors(c) == [] { ValidRenders(c); }
  }

  /** Each file that could be put back was, whatever became of the other. */
  lemma PutBackSeparately(d: Disk, c: Config, live: bool, saver: Saver, f: Faults)
    requires c.btrbkConf != StatePath(c) && Saved(d, c, live, saver, f).outcome.RollbackFailed?
    ensures var r := Saved(d, c, live, saver, f);
            (f.restoreMain.Works? ==> At(r.disk.files, c.btrbkConf) == At(d.files, c.btrbkConf)) &&
            (f.restoreState.Works? ==> At(r.disk.files, StatePath(c)) == At(d.files, StatePath(c)))
  {
    hide Errors, Attempted, StatePath;
  }

  // ---------------------------------------------------------------------
  // What a run reports.

  /** What `SyncConfig` answers where it gets as far as a report. */
  ghost function ReportOf(d: Disk, dryRun: bool, live: bool, ls: seq<Listing>, today: string, f: SyncFaults): Report
    requires d.config.Loads? && (dryRun || !live)
  {
    Synchronised(d, dryRun, live, ls, today, f).result.value.report
  }

  /** What of the plan a run of that date carries out. */
  ghost function AppliedPart(d: Disk, ls: seq<Listing>, today: string): Plan
    requires d.config.Loads?
  {
    ToApply(PlanFor(d.config.config, ls), today)
  }

  ghost function NextConfig(d: Disk, ls: seq<Listing>, today: string): Result<Config, ApplyError>
    requires d.config.Loads?
  {
    Applied(d.config.config, AppliedPart(d, ls, today), today)
  }

  /** The run has the configuration to change. */
  ghost predicate Changes(d: Disk, ls: seq<Listing>, today: string)
    requires d.config.Loads?
  {
    AppliedPart(d, ls, today).ChangesConfig()
  }

  /** A report comes of every run but two: the configuration did not load, or
      a real run was asked of files that are the host's. */
  lemma ReportedUnless(d: Disk, dryRun: bool, live: bool, ls: seq<Listing>, today: string, f: SyncFaults)
    ensures var r := Synchronised(d, dryRun, live, ls, today, f).result;
            (r == Err(CannotLoad) <==> !d.config.Loads?) &&
            (r == Err(WouldTouchLiveFiles) <==> d.config.Loads? && !dryRun && live) &&
            (r.Ok? <==> d.config.Loads? && (dryRun || !live))
  {
    hide PlanFor, Applied, IntoLine, Updated, ToApply, RetireRefused, PlannedUnchanged, PlannedChanged, Usable;
  }

  /** The plan reported is the whole plan, held back or not, and the date is
      doubted aloud exactly when a stamp with it is asked for. */
  lemma PlanIsReported(d: Disk, dryRun: bool, live: bool, ls: seq<Listing>, today: string, f: SyncFaults)
    requires d.config.Loads? && (dryRun || !live)
    ensures var r := ReportOf(d, dryRun, live, ls, today, f);
            var retire := PlanFor(d.config.config, ls).retire;
            r.plan == PlanFor(d.config.config, ls) &&
            ((exists x :: x in retire && x.name != ".") ==> r.retireRefused == UntrustedClock(today)) &&
            ((forall x :: x in retire ==> x.name == ".") ==> r.retireRefused == None)
  {
    hide PlanFor, Applied, IntoLine, Updated, PlannedUnchanged, PlannedChanged, Usable, UntrustedClock;
    var retire := PlanFor(d.config.config, ls).retire;
    if AnyDated(retire) {
      var i :| 0 <= i < |retire| && Dated(retire[i]);
      assert retire[i] in retire;
    }
  }

  /** `written` is said exactly when a real run changed the configuration and
      every write worked; it then stands on the disk. */
  lemma WrittenMeans(d: Disk, dryRun: bool, live: bool, ls: seq<Listing>, today: string, f: SyncFaults)
    requires d.config.Loads? && (dryRun || !live)
    ensures var r := ReportOf(d, dryRun, live, ls, today, f);
            r.written <==>
            !dryRun && Changes(d, ls, today) && Usable(NextConfig(d, ls, today)).Some? &&
            f.main.Works? && f.state.Works? && f.config.Works?
    ensures var r := ReportOf(d, dryRun, live, ls, today, f);
            r.written ==>
            NextConfig(d, ls, today).Ok? &&
            Synchronised(d, dryRun, live, ls, today, f).disk.config == Loads(Pinned(NextConfig(d, ls, today).value))
  {
    hide PlanFor, Applied, IntoLine, PlannedUnchanged, PlannedChanged, UntrustedClock, Errors, Renders, StatePath,
         Pinned, ToApply, RetireRefused;
    var next := NextConfig(d, ls, today);
    if next.Ok? && Errors(next.value) == [] { ValidRenders(next.value); }
  }

  /** What a real run that has the configuration to change says went wrong. */
  lemma ChangeErrorMeans(d: Disk, ls: seq<Listing>, today: string, f: SyncFaults, e: WriteError)
    requires d.config.Loads? && Changes(d, ls, today)
    ensures ReportOf(d, false, false, ls, today, f).writeError == Some(e) <==>
            var next, usable := NextConfig(d, ls, today), Usable(NextConfig(d, ls, today)).Some?;
            match e
            case CannotApply(why) => next == Err(why)
            case NotValid(errors) => next.Ok? && errors != [] && errors == Errors(next.value)
            case ConfsNotWritten(step) =>
              usable && ((step.MainConf? && !f.main.Works?) || (step.StateConf? && f.main.Works? && !f.state.Works?))
            case ConfigNotSaved(restore) =>
              usable && f.main.Works? && f.state.Works? && !f.config.Works? &&
              restore == WrittenConfs(d.files, d.config.config, f.restoreMain, f.restoreState).failed
  {
    hide PlanFor, Applied, IntoLine, PlannedUnchanged, PlannedChanged, UntrustedClock, Errors, Renders, StatePath,
         Pinned, ToApply, RetireRefused;
    var next := NextConfig(d, ls, today);
    if next.Ok? && Errors(next.value) == [] { ValidRenders(next.value); }
  }

  /** A run with nothing to change: what it says of the printed files, exactly. */
  lemma ConfStateMeans(d: Disk, dryRun: bool, live: bool, ls: seq<Listing>, today: string, f: SyncFaults)
    requires d.config.Loads? && (dryRun || !live) && !Changes(d, ls, today)
    ensures var r, c := ReportOf(d, dryRun, live, ls, today, f), d.config.config;
            var due := Errors(c) == [] && !ConfsCurrent(d.files, c) && !AppliedPart(d, ls, today).Failed();
            (r.conf.Current? <==> Errors(c) == [] && ConfsCurrent(d.files, c)) &&
            (r.conf.WouldRegenerate? <==> due && dryRun) &&
            (r.conf.Regenerated? <==> due && !dryRun && f.main.Works? && f.state.Works?) &&
            (r.writeError == Some(NotValid(Errors(c))) <==> Errors(c) != []) &&
            (r.writeError == Some(ConfsNotWritten(MainConf)) <==> due && !dryRun && !f.main.Works?) &&
            (r.writeError == Some(ConfsNotWritten(StateConf)) <==>
               due && !dryRun && f.main.Works? && !f.state.Works?) &&
            (r.writeError.Some? ==> r.conf.OutOfDate?)
  {
    hide PlanFor, Applied, Updated, PlannedUnchanged, PlannedChanged, UntrustedClock, Errors, Renders, StatePath,
         ToApply, RetireRefused, ConfsCurrent;
    if Errors(d.config.config) == [] { ValidRenders(d.config.config); }
  }

  /** A run that changes the configuration has nothing to say of files out of
      line, and the configuration handed on is the one that was loaded. */
  lemma ChangedRunSays(d: Disk, dryRun: bool, live: bool, ls: seq<Listing>, today: string, f: SyncFaults)
    requires d.config.Loads? && (dryRun || !live) && Changes(d, ls, today)
    ensures ReportOf(d, dryRun, live, ls, today, f).conf == Current
    ensures dryRun ==> ReportOf(d, dryRun, live, ls, today, f).writeError == None
    ensures !dryRun ==> ReportOf(d, dryRun, live, ls, today, f).planned == None
    ensures !dryRun ==> Synchronised(d, dryRun, live, ls, today, f).result.value.config == d.config.config
  {
    hide PlanFor, Applied, IntoLine, Updated, PlannedUnchanged, PlannedChanged, UntrustedClock, ToApply, RetireRefused,
         Usable;
  }
}
