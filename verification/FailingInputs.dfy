// Inputs at which what is said of the program fails: one for each exact
// condition that leaves some out.
module FailingInputs {
  import opened Base
  import opened Config
  import opened Glob
  import opened Names
  import opened Sync
  import opened SyncFacts
  import opened Apply
  import opened Settle
  import opened Settled
  import opened Fixpoint
  import opened Validate
  import opened Render
  import opened Files
  import opened Save
  import opened SyncRun
  import opened SyncFixpoint
  import opened SyncFailures

  /** A recovery drive's configuration: a target, and nothing to back up. */
  function NoSourcesAt(btrbkConf: string): Config {
    Config([], [Target("t", "/t", Primary, Retention(0, 0, 0, 0))], [], [], btrbkConf, true, [])
  }

  lemma OnlyBuiltIn()
    ensures WithoutRepeats([], DEFAULT_EXCLUDES) == DEFAULT_EXCLUDES && PatternErrors(DEFAULT_EXCLUDES) == []
  {
    assert DEFAULT_EXCLUDES == ["@tmp"] + ["@var-tmp"];
    assert DEFAULT_EXCLUDES[1..] == ["@var-tmp"] && DEFAULT_EXCLUDES[1..][1..] == [];
    assert WithoutRepeats(["@tmp"], ["@var-tmp"]) == ["@tmp", "@var-tmp"];
  }

  lemma NoSourcesIsValid(btrbkConf: string)
    ensures Errors(NoSourcesAt(btrbkConf)) == [] && !AnyAfterIndex(NoSourcesAt(btrbkConf))
  {
    var c := NoSourcesAt(btrbkConf);
    OnlyBuiltIn();
    assert DEFAULT_EXCLUDES + [] + [] == DEFAULT_EXCLUDES;
    assert c.targets[1..] == [];
    hide WithoutRepeats, PatternErrors;
    assert ExcludePatterns(c) == DEFAULT_EXCLUDES;
  }

  // ---------------------------------------------------------------------
  // One path for both files.

  const ONE_PATH := "/x/" + STATE_CONF

  lemma OnePath(c: Config)
    requires c.btrbkConf == ONE_PATH
    ensures c.btrbkConf == StatePath(c)
  {
    var p := c.btrbkConf;
    assert p[|p| - 1] == 'f';
    assert p[2] == '/' && forall i :: 2 < i < |p| ==> p[i] != '/';
    assert LastSlash(p) == Some(2);
    assert p[..2] == "/x" && p[..2][1] == 'x';
    assert Parent(p) == Some("/x");
  }

  /** A valid configuration whose two texts cannot both be where they belong. */
  lemma OnePathCannotAgree()
    ensures Errors(NoSourcesAt(ONE_PATH)) == [] && !CanAgree(NoSourcesAt(ONE_PATH))
  {
    var c := NoSourcesAt(ONE_PATH);
    OnePath(c);
    NoSourcesIsValid(ONE_PATH);
    ValidRenders(c);
    hide StatePath, RenderConf, Errors, AnyAfterIndex;
  }

  /** Saving it succeeds, and the files do not agree. */
  lemma SaveCanDisagree(d: Disk, f: Faults)
    requires d == Disk(map[], Loads(NoSourcesAt(ONE_PATH))) && f == Faults(Works, Works, Works, Works, Works)
    ensures var r := Saved(d, NoSourcesAt(ONE_PATH), false, Edits, f);
            r.outcome.Done? && !Agree(r.disk)
  {
    hide StatePath, RenderConf, Errors, AnyAfterIndex, CanAgree, Saved, NoSourcesAt;
    OnePathCannotAgree();
    SavesExactlyWhen(d, NoSourcesAt(ONE_PATH), false, Edits, f);
    SavedAgreesExactly(d, NoSourcesAt(ONE_PATH), false, Edits, f);
  }

  lemma NothingPlanned(btrbkConf: string)
    ensures PlanFor(NoSourcesAt(btrbkConf), []) == EMPTY
  {
  }

  /** Every sync of it regenerates the files once more. */
  lemma SyncNeverSettles(d: Disk, today: string)
    requires d.config == Loads(NoSourcesAt(ONE_PATH))
    ensures var e := Synchronised(d, false, false, [], today, NO_FAULTS);
            e.result.Ok? && e.result.value.report.conf.Regenerated? && e.disk.config == d.config
  {
    hide StatePath, Errors, CanAgree, Synchronised, NoSourcesAt, PlanFor;
    OnePathCannotAgree();
    NothingPlanned(ONE_PATH);
    OnePathRegeneratesForever(d, [], today);
  }

  /** A dry run of it plans a `btrbk.conf` no run leaves. */
  lemma DryRunMisleads(d: Disk, today: string, f: SyncFaults)
    requires d == Disk(map[], Loads(NoSourcesAt(ONE_PATH)))
    ensures Synchronised(d, true, false, [], today, f).result.Ok?
    ensures Synchronised(d, true, false, [], today, f).result.value.report.planned !=
            CurrentConf(Synchronised(d, false, false, [], today, NO_FAULTS).disk.files, NoSourcesAt(ONE_PATH))
  {
    var c := NoSourcesAt(ONE_PATH);
    OnePathCannotAgree();
    NothingPlanned(ONE_PATH);
    hide StatePath, Errors, Synchronised, PlanFor, RenderConf, RenderState, ConfsCurrent;
    if ConfsCurrent(d.files, c) { NeverCurrent(d.files, c); }
    assert Writes(d, [], today) == Some(c);
    DryRunFidelity(d, [], today, false, f);
  }

  // ---------------------------------------------------------------------
  // Paths of their own.

  const TWO_PATHS := "/x/btrbk.conf"

  lemma PathsOfTheirOwn()
    ensures TWO_PATHS != StatePath(NoSourcesAt(TWO_PATHS))
  {
    assert |StatePath(NoSourcesAt(TWO_PATHS))| >= |STATE_CONF| > |TWO_PATHS|;
  }

  lemma NothingToPin(btrbkConf: string)
    ensures Pinned(NoSourcesAt(btrbkConf)) == NoSourcesAt(btrbkConf)
  {
  }

  /** A save that is undone, with `config.toml` replaced all the same. */
  lemma SaveNotUndone(d: Disk, c: Config, f: Faults)
    requires c == NoSourcesAt(TWO_PATHS) && d == Disk(map[], Loads(c.(subvolumeExcludes := ["@games"])))
    requires f == Faults(Works, Works, FailsAfter, Works, Works)
    ensures Saved(d, c, false, Edits, f).outcome == NotSaved(ConfigToml) && Saved(d, c, false, Edits, f).disk != d
  {
    NothingToPin(TWO_PATHS);
    hide StatePath, Errors, Saved, Pinned;
    NoSourcesIsValid(TWO_PATHS);
    PathsOfTheirOwn();
    OnlyConfigFails(d, c, f);
    UndoneExactlyUnless(d, c, false, Edits, f);
  }

  lemma OnlyConfigFails(d: Disk, c: Config, f: Faults)
    requires Errors(c) == [] && d.files == map[] && d.config.Loads?
    requires f == Faults(Works, Works, FailsAfter, Works, Works)
    ensures Saved(d, c, false, Edits, f).outcome == NotSaved(ConfigToml)
  {
    ValidRenders(c);
    ConfsFailWhen(d.files, c, f.main, f.state);
    hide StatePath, Errors, Renders, WrittenConfs, Pinned, RolledBack;
  }

  /** A run whose state file cannot be written, with `btrbk.conf` replaced all
      the same. */
  lemma UpdateHalfDone(d: Disk, u: Config, f: SyncFaults)
    requires u == NoSourcesAt(TWO_PATHS) && d == Disk(map[], Loads(u.(subvolumeExcludes := ["@games"])))
    requires f == NO_FAULTS.(state := FailsBefore)
    ensures var e := Updated(d, d.config.config, Ok(u), f);
            e.error == Some(ConfsNotWritten(StateConf)) && e.disk != d
  {
    NoSourcesIsValid(TWO_PATHS);
    PathsOfTheirOwn();
    var c := d.config.config;
    SameStatePath(c, u);
    ValidRenders(u);
    hide StatePath, Errors, RenderConf, RenderState, AnyAfterIndex;
    StateConfFailureKeepsMain(d, c, u, f);
    FailedUpdateExactly(d, c, u, f);
  }

  // ---------------------------------------------------------------------
  // Without a primary target.

  const BELOW := "a/b"

  /** The entry for `a` was retired; `a` is back, with `a/b` below it. */
  function Back(): Entry { Entry("a", false, Some("a"), None, Some("2026-02-01"), false) }

  function CameBack(): Source { Source("s", "/v", [Back()], "/dev/s", "snap", [], []) }

  function OnlyAMirror(): Config {
    Config([CameBack()], [Target("m", "/m", Mirror, Retention(0, 0, 0, 0))], [], [], TWO_PATHS, false, [])
  }

  function BothThere(): seq<Listing> { [Listing("/v", Ok(["a", BELOW]))] }

  lemma BelowComponents()
    ensures Components(BELOW) == ["a", "b"]
  {
    assert "b"[1..] == "" && ['b'] + "" == "b" && Components("b") == ["b"];
    assert "/b"[1..] == "b" && Components("/b") == ["", "b"];
    assert BELOW[1..] == "/b" && ['a'] + "" == "a";
  }

  lemma BelowIsNotSkipped()
    ensures !Skipped(OnlyAMirror(), BELOW)
  {
    BelowComponents();
    OnlyBuiltIn();
    assert DEFAULT_EXCLUDES + [] + [] == DEFAULT_EXCLUDES;
    assert ExcludePatterns(OnlyAMirror()) == DEFAULT_EXCLUDES;
    forall p | p in DEFAULT_EXCLUDES ensures !Excludes(p, BELOW) {
      assert p[0] == '@';
      forall x | AtOrAbove(x, BELOW) ensures !GlobMatch(p, x) { assert x != [] ==> x[0] == 'a'; }
    }
  }

  /** One round does not settle: reviving `a` makes a place for `a/b`. */
  lemma AnotherRoundNeeded(today: string)
    ensures WellNamed(OnlyAMirror()) && !HasPrimary(OnlyAMirror())
    ensures var first := Applied(OnlyAMirror(), PlanFor(OnlyAMirror(), BothThere()), today);
            first.Ok? && PlanFor(first.value, BothThere()).adopt != []
  {
    OnlyOneSource();
    BelowIsNotSkipped();
    NothingAdoptedFirst();
    RevivedAbove();
    hide OnlyAMirror, BothThere, CameBack;
    AdoptsNextRound(OnlyAMirror(), BothThere(), CameBack(), Back(), BELOW, today);
  }

  lemma RevivedAbove()
    ensures RevivedAboveUnplaced(OnlyAMirror(), BothThere(), CameBack(), Back(), BELOW)
  {
    OnlyOneSource();
    BelowIsNotSkipped();
    hide Skipped, PlaceIn, UnknownIn, RevivesIn, SourcesOn, OnlyAMirror, BothThere;
    assert NestedUnder(BELOW, Back().name);
  }

  lemma AdoptsNextRound(c: Config, ls: seq<Listing>, s: Source, e: Entry, n: string, today: string)
    requires WellNamed(c) && !HasPrimary(c) && PlanFor(c, ls).adopt == [] && RevivedAboveUnplaced(c, ls, s, e, n)
    ensures var first := Applied(c, PlanFor(c, ls), today);
            first.Ok? && PlanFor(first.value, ls).adopt != []
  {
    hide PlanFor, Applied, Settled.Outcome, WellNamed, RevivedAboveUnplaced;
    var p := PlanFor(c, ls);
    NotCarriedOutExactly(c, ls, p, today);
    AppliedIsOutcome(c, ls, p, today);
    AdoptionsSettleExactly(c, ls, p, today, Applied(c, p, today).value);
  }

  lemma OnlyOneSource()
    ensures var c, ls, s := OnlyAMirror(), BothThere(), CameBack();
            WellNamed(c) && !HasPrimary(c) && SourcesOn(c.sources, "/v") == [s] &&
            RevivesIn(c, ls, s, Back()) && UnknownIn(c, ls, "/v", BELOW) &&
            PlaceIn(c, "/v", BELOW).Err?
  {
    var c, s := OnlyAMirror(), CameBack();
    assert c.sources[1..] == [] && c.targets[1..] == [];
    assert SourcesOn(c.sources, "/v") == [s];
    PlacedIffAncestor(c, "/v", BELOW);
  }

  lemma NothingAdoptedFirst()
    ensures PlanFor(OnlyAMirror(), BothThere()).adopt == []
  {
    var c, ls := OnlyAMirror(), BothThere();
    OnlyOneSource();
    hide PlanFor, Skipped, Place;
    PlanAdoptions(c, ls);
    var adopt := PlanFor(c, ls).adopt;
    if adopt != [] {
      assert adopt[0] in adopt;
      var v :| AdoptionOn(c, ls, v, adopt[0]);
      var n :| AdoptsIn(c, ls, v, n) && PlaceIn(c, v, n) == Ok(adopt[0]);
      SourcesOnHolds(c.sources, v);
      assert v == "/v";
      PlacedIffAncestor(c, v, n);
    }
  }

  // ---------------------------------------------------------------------
  // Two sources under one label.

  function Named(snapshotName: string): Entry { Entry("a", false, Some(snapshotName), None, None, false) }

  function On(volume: string, snapshotName: string): Source {
    Source("s", volume, [Named(snapshotName)], "/dev/s", "d", [], [])
  }

  function SharedLabel(): Config {
    Config([On("/v", "a"), On("/w", "b")], [Target("t", "/t", Primary, Retention(0, 0, 0, 0))], [], [],
           TWO_PATHS, false, [])
  }

  /** `a` is on the first volume and gone from the second. */
  function GoneFromSecond(): seq<Listing> { [Listing("/v", Ok(["a"])), Listing("/w", Ok([]))] }

  lemma SharedSources()
    ensures var c, ls := SharedLabel(), GoneFromSecond();
            SourcesOn(c.sources, "/v") == [On("/v", "a")] && SourcesOn(c.sources, "/w") == [On("/w", "b")] &&
            Found(ls, "/v") == ["a"] && Found(ls, "/w") == [] && Read(ls, "/w")
  {
    var c, ls := SharedLabel(), GoneFromSecond();
    assert c.sources[1..] == [On("/w", "b")] && c.sources[1..][1..] == [];
    assert ls[1..] == [Listing("/w", Ok([]))] && "/v" != "/w";
    assert On("/v", "a").volume != On("/w", "b").volume;
  }

  lemma OnlyTwoVolumes(v: string)
    ensures SourcesOn(SharedLabel().sources, v) != [] ==> v == "/v" || v == "/w"
  {
    var on := SourcesOn(SharedLabel().sources, v);
    SourcesOnHolds(SharedLabel().sources, v);
    if on != [] { assert on[0] in on; }
  }

  lemma NothingUnknown(v: string, n: string)
    ensures !UnknownIn(SharedLabel(), GoneFromSecond(), v, n)
  {
    SharedSources();
    OnlyTwoVolumes(v);
    hide SharedLabel, GoneFromSecond, SourcesOn, OnDisk, Found, Read;
    var first := [On("/v", "a")];
    assert first[0].subvolumes[0].name == "a" && HasEntry(first[0].subvolumes, "a");
    assert Configured(first, "a");
  }

  lemma SharedMarks(s: Source, e: Entry)
    ensures !RevivesIn(SharedLabel(), GoneFromSecond(), s, e)
    ensures RetiresIn(SharedLabel(), GoneFromSecond(), s, e) ==> RefOf(s, e) == EntryRef("s", "a")
    ensures RetiresIn(SharedLabel(), GoneFromSecond(), On("/w", "b"), Named("b"))
  {
    SharedSources();
    hide OnDisk, Found, Read, GoneFromSecond;
    assert On("/w", "b") in SharedLabel().sources && Named("b") in On("/w", "b").subvolumes;
  }

  lemma SharedPlan()
    ensures var p := PlanFor(SharedLabel(), GoneFromSecond());
            p.adopt == [] && p.revive == [] && p.retire != [] && forall r :: r in p.retire ==> r == EntryRef("s", "a")
  {
    var c, ls := SharedLabel(), GoneFromSecond();
    var p := PlanFor(c, ls);
    forall s, e ensures !RevivesIn(c, ls, s, e) && (RetiresIn(c, ls, s, e) ==> RefOf(s, e) == EntryRef("s", "a")) {
      SharedMarks(s, e);
    }
    SharedMarks(On("/w", "b"), Named("b"));
    hide PlanFor, RevivesIn, RetiresIn, SharedLabel, GoneFromSecond, UnknownIn, Skipped, Place;
    PlanMarks(c, ls);
    PlanAdoptions(c, ls);
    assert RefOf(On("/w", "b"), Named("b")) in p.retire;
    HeadIsMember(p.revive);
    if p.adopt != [] {
      assert p.adopt[0] in p.adopt;
      var v :| AdoptionOn(c, ls, v, p.adopt[0]);
      var n :| AdoptsIn(c, ls, v, n) && PlaceIn(c, v, n) == Ok(p.adopt[0]);
      NothingUnknown(v, n);
    }
  }

  ghost predicate FirstIs(c: Config, e: Entry) {
    c.sources != [] && c.sources[0].tag == "s" && c.sources[0].subvolumes != [] && c.sources[0].subvolumes[0] == e &&
    e.name == "a"
  }

  lemma FirstIsStamped(c: Config, e: Entry, date: string)
    requires FirstIs(c, e)
    ensures SetRetired(c, EntryRef("s", "a"), Some(date)) == Some(WithEntry(c, 0, 0, e.(retired := Some(date))))
    ensures FirstIs(WithEntry(c, 0, 0, e.(retired := Some(date))), e.(retired := Some(date)))
    ensures e.retired == Some(date) ==> WithEntry(c, 0, 0, e.(retired := Some(date))) == c
  {
    assert e.retired == Some(date) ==> c.sources[0].subvolumes[0 := e] == c.sources[0].subvolumes;
    assert c.sources[0 := c.sources[0]] == c.sources;
  }

  lemma {:induction false} StampedAgain(c: Config, e: Entry, refs: seq<EntryRef>, date: string)
    requires FirstIs(c, e) && e.retired == Some(date) && forall i :: 0 <= i < |refs| ==> refs[i] == EntryRef("s", "a")
    ensures MarkAll(c, refs, Some(date)) == Ok(c)
    decreases |refs|
  {
    hide SetRetired, FirstIs, WithEntry;
    if refs != [] {
      FirstIsStamped(c, e, date);
      StampedAgain(c, e, refs[1..], date);
    }
  }

  lemma OnlyFirstIsStamped(c: Config, e: Entry, refs: seq<EntryRef>, date: string)
    requires FirstIs(c, e) && refs != [] && forall r :: r in refs ==> r == EntryRef("s", "a")
    ensures MarkAll(c, refs, Some(date)) == Ok(WithEntry(c, 0, 0, e.(retired := Some(date))))
  {
    assert forall i :: 0 <= i < |refs| ==> refs[i] in refs;
    hide SetRetired, WithEntry;
    FirstIsStamped(c, e, date);
    StampedAgain(WithEntry(c, 0, 0, e.(retired := Some(date))), e.(retired := Some(date)), refs[1..], date);
  }

  lemma OnlyStamps(c: Config, p: Plan, e: Entry, today: string)
    requires FirstIs(c, e) && p.revive == [] && p.adopt == [] && p.retire != []
    requires forall r :: r in p.retire ==> r == EntryRef("s", "a")
    ensures Applied(c, p, today) == Ok(WithEntry(c, 0, 0, e.(retired := Some(today))))
  {
    hide FirstIs, WithEntry, SetRetired;
    OnlyFirstIsStamped(c, e, p.retire, today);
  }

  /** Without labels of their own, the wrong entry of a valid configuration is
      retired: the one whose subvolume is there, and not the one whose
      subvolume is gone. */
  lemma WrongEntryRetired(today: string)
    ensures Errors(SharedLabel()) == [] && "a" in Found(GoneFromSecond(), "/v") && "a" !in Found(GoneFromSecond(), "/w")
    ensures var r := Applied(SharedLabel(), PlanFor(SharedLabel(), GoneFromSecond()), today);
            r.Ok? &&
            r.value.sources == [On("/v", "a").(subvolumes := [Named("a").(retired := Some(today))]), On("/w", "b")]
  {
    SharedSources();
    SharedPlan();
    SharedIsValid();
    StampedSources(today);
    hide PlanFor, Errors, OnDisk, Found, Applied, SharedLabel, GoneFromSecond, On, Named, SourcesOn, WithEntry, FirstIs;
    OnlyStamps(SharedLabel(), PlanFor(SharedLabel(), GoneFromSecond()), Named("a"), today);
  }

  lemma StampedSources(today: string)
    ensures FirstIs(SharedLabel(), Named("a"))
    ensures WithEntry(SharedLabel(), 0, 0, Named("a").(retired := Some(today))).sources ==
            [On("/v", "a").(subvolumes := [Named("a").(retired := Some(today))]), On("/w", "b")]
  {
    var now := Named("a").(retired := Some(today));
    assert On("/v", "a").subvolumes[0 := now] == [now];
  }

  lemma OneComponent(s: string)
    requires |s| == 1 && s[0] != '/'
    ensures Components(s) == [s]
  {
    assert s[1..] == "" && [s[0]] + "" == s;
  }

  lemma SharedNames()
    ensures NameErrors({}, Pairs(SharedLabel().sources)) == []
  {
    var c := SharedLabel();
    OneComponent("a");
    var pairs := [(On("/v", "a"), Named("a")), (On("/w", "b"), Named("b"))];
    assert c.sources[1..] == [On("/w", "b")] && c.sources[1..][1..] == [];
    assert On("/v", "a").subvolumes[1..] == [] && On("/w", "b").subvolumes[1..] == [];
    assert PairsOf(On("/v", "a"), On("/v", "a").subvolumes) == [pairs[0]];
    assert PairsOf(On("/w", "b"), On("/w", "b").subvolumes) == [pairs[1]];
    assert Pairs(c.sources[1..]) == [pairs[1]];
    assert Pairs(c.sources) == pairs;
    assert pairs[1..] == [pairs[1]] && pairs[1..][1..] == [];
  }

  lemma SharedSeries()
    ensures SeriesErrors(map[], AllSeries(SharedLabel().sources)) == []
  {
    var c := SharedLabel();
    hide ResolvedName;
    assert c.sources[1..] == [On("/w", "b")] && c.sources[1..][1..] == [];
    var a := OneSeries(On("/v", "a"));
    var b := OneSeries(On("/w", "b"));
    assert AllSeries(c.sources[1..]) == [b];
    assert AllSeries(c.sources) == [a, b];
    assert [a, b][1..] == [b] && [b][1..] == [];
  }

  lemma OneSeries(s: Source) returns (x: Series)
    requires |s.subvolumes| == 1 && s.subvolumes[0].Live()
    ensures SeriesFrom(s, s.subvolumes, Resolve(s.subvolumes)) == [x] && x.key.volume == s.volume
  {
    x := Series(SeriesKey(s.volume, s.snapshotDir, Resolve(s.subvolumes)[0]), s.subvolumes[0].name);
    assert s.subvolumes[1..] == [];
  }

  lemma SharedRest()
    ensures var c := SharedLabel();
            SourceErrors(c.sources) == [] && DirErrors(c.sources) == [] && ScopeErrors(c, c.sources) == [] &&
            TargetErrors({}, {}, c.targets) == []
  {
    var c := SharedLabel();
    OneComponent("d");
    assert c.sources[1..] == [On("/w", "b")] && c.sources[1..][1..] == [] && c.targets[1..] == [];
  }

  lemma SharedIsValid()
    ensures Errors(SharedLabel()) == []
  {
    OnlyBuiltIn();
    assert DEFAULT_EXCLUDES + [] + [] == DEFAULT_EXCLUDES;
    hide WithoutRepeats, PatternErrors, SourceErrors, DirErrors, ScopeErrors, TargetErrors, NameErrors, SeriesErrors,
         AllSeries, Pairs;
    assert ExcludePatterns(SharedLabel()) == DEFAULT_EXCLUDES;
    SharedNames();
    SharedSeries();
    SharedRest();
  }
}
