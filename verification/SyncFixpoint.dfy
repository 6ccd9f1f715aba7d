// What a whole sync leaves for the next one to do (indexer/src/adopt.rs).
module SyncFixpoint {
  import opened Base
  import opened Config
  import opened Glob
  import opened Names
  import opened CalDate
  import opened Sync
  import opened SyncFacts
  import opened Apply
  import opened Settle
  import opened Settled
  import opened Fixpoint
  import opened TopLevel
  import opened Validate
  import opened Render
  import opened Runs
  import opened PinnedPlans
  import opened Files
  import opened Save
  import opened SyncRun

  lemma {:induction false} UndatedHolds(refs: seq<EntryRef>)
    ensures forall r :: r in Undated(refs) <==> r in refs && !Dated(r)
  {
    if refs != [] {
      UndatedHolds(refs[1..]);
      assert refs == [refs[0]] + refs[1..];
    }
  }

  /** An untrusted clock holds back retirements only, and no top level's. */
  lemma ToApplyHoldsBack(plan: Plan, today: string)
    ensures HoldsBackOnlyRetirements(ToApply(plan, today), plan)
    ensures KeepsTopRetirements(ToApply(plan, today), plan)
    ensures RetireRefused(plan, today).None? ==> ToApply(plan, today) == plan
  {
    hide UntrustedClock;
    UndatedHolds(plan.retire);
  }

  /** With an untrusted clock, the retirements carried out are exactly the top
      levels'; that any was held back is what the report says. */
  lemma UntrustedClockDatesNothing(plan: Plan, today: string)
    requires UntrustedClock(today).Some?
    ensures forall r :: r in ToApply(plan, today).retire <==> r in plan.retire && !Dated(r)
    ensures RetireRefused(plan, today).Some? <==> exists r :: r in plan.retire && Dated(r)
  {
    hide UntrustedClock;
    UndatedHolds(plan.retire);
    if exists r :: r in plan.retire && Dated(r) {
      var r :| r in plan.retire && Dated(r);
      var i :| 0 <= i < |plan.retire| && plan.retire[i] == r;
      assert Dated(plan.retire[i]);
    }
    if AnyDated(plan.retire) {
      var i :| 0 <= i < |plan.retire| && Dated(plan.retire[i]);
      assert plan.retire[i] in plan.retire;
    }
  }

  /** So no live entry but a top level is retired by such a run. */
  lemma UntrustedClockRetiresNobody(c: Config, ls: seq<Listing>, today: string, out: Config, i: nat, k: nat)
    requires UntrustedClock(today).Some?
    requires Settled.Outcome(c, ls, ToApply(PlanFor(c, ls), today), today, out)
    requires InRange(c.sources, i, k) && c.sources[i].subvolumes[k].Live()
    requires c.sources[i].subvolumes[k].name != TOP_LEVEL
    ensures InRange(out.sources, i, k) && out.sources[i].subvolumes[k].name == c.sources[i].subvolumes[k].name
    ensures out.sources[i].subvolumes[k].Live()
  {
    hide PlanFor, UntrustedClock, Settled.Outcome, ToApply;
    var p := ToApply(PlanFor(c, ls), today);
    UntrustedClockDatesNothing(PlanFor(c, ls), today);
    OldEntries(c, ls, p, today, out);
    assert IsOld(c, i, k);
    assert out.sources[i].subvolumes[k] == StampedEntry(c.sources[i], c.sources[i].subvolumes[k], p, today);
  }

  /** With every volume read, what such a run leaves is accepted by the
      renderer, whatever the configuration held before. */
  lemma SyncedConfigRenders(c: Config, ls: seq<Listing>, today: string, out: Config)
    requires Settled.Outcome(c, ls, ToApply(PlanFor(c, ls), today), today, out)
    requires forall s :: s in c.sources ==> Read(ls, s.volume)
    ensures Renders(out) && forall conf :: RenderConf(out, conf).Ok?
  {
    hide PlanFor, UntrustedClock, Settled.Outcome, ToApply, ScopeErrors, Printed, ConfLines, OnDisk;
    ToApplyHoldsBack(PlanFor(c, ls), today);
    TopLevelNeverReachesMirror(c, ls, ToApply(PlanFor(c, ls), today), today, out);
  }

  /** `second` is what a sync does that finds nothing to write. */
  ghost predicate WritesNothing(before: Disk, second: SyncEnd) {
    second.disk == before && second.result.Ok? && second.result.value.report.writeError.None? &&
    !second.result.value.report.written && !second.result.value.report.conf.Regenerated?
  }

  lemma QuietPlan(d: Disk, c: Config, plan: Plan, today: string, f: SyncFaults)
    requires !ToApply(plan, today).ChangesConfig()
    requires Errors(c) == [] && (ConfsCurrent(d.files, c) || ToApply(plan, today).Failed())
    ensures WritesNothing(d, SyncWith(d, c, plan, false, today, f))
    ensures SyncWith(d, c, plan, false, today, f).result.value.report.conf.Current? <==> ConfsCurrent(d.files, c)
  {
    hide Errors, ConfsCurrent, WrittenConfs, UntrustedClock, ToApply, Applied;
  }

  lemma OnlyQuietPlans(d: Disk, c: Config, plan: Plan, today: string, f: SyncFaults)
    requires Errors(c) == [] && WritesNothing(d, SyncWith(d, c, plan, false, today, f))
    ensures !ToApply(plan, today).ChangesConfig() && (ConfsCurrent(d.files, c) || ToApply(plan, today).Failed())
  {
    hide Errors, ConfsCurrent, WrittenConfs, UntrustedClock, ToApply, Applied, Pinned;
  }

  /** Exactly when a run of a valid configuration finds nothing to write. */
  lemma QuietExactly(d: Disk, c: Config, plan: Plan, today: string, f: SyncFaults)
    requires Errors(c) == []
    ensures WritesNothing(d, SyncWith(d, c, plan, false, today, f)) <==>
            !ToApply(plan, today).ChangesConfig() && (ConfsCurrent(d.files, c) || plan.Failed())
  {
    hide Errors, ConfsCurrent, UntrustedClock, SyncWith, WritesNothing;
    if WritesNothing(d, SyncWith(d, c, plan, false, today, f)) {
      OnlyQuietPlans(d, c, plan, today, f);
    } else if !ToApply(plan, today).ChangesConfig() && (ConfsCurrent(d.files, c) || plan.Failed()) {
      QuietPlan(d, c, plan, today, f);
    }
  }

  // ---------------------------------------------------------------------
  // The second run's plan.

  /** A run on `later` still refuses to date what one on `today` refused. */
  predicate StillRefused(plan: Plan, today: string, later: string) {
    RetireRefused(plan, today).Some? ==> UntrustedClock(later).Some?
  }

  lemma UnchangedAgain(plan: Plan, today: string, later: string)
    requires !ToApply(plan, today).ChangesConfig()
    ensures plan.adopt == [] && plan.revive == [] && (RetireRefused(plan, today).None? ==> plan.retire == [])
    ensures !ToApply(plan, later).ChangesConfig() <==> StillRefused(plan, today, later)
  {
    hide UntrustedClock;
  }

  /** Without a primary, an adoption can be left for the next round. */
  ghost predicate AdoptionsSettle(c: Config, ls: seq<Listing>) {
    HasPrimary(c) || forall s, e, n :: !RevivedAboveUnplaced(c, ls, s, e, n)
  }

  lemma NothingRevivedSettles(c: Config, ls: seq<Listing>)
    requires PlanFor(c, ls).revive == []
    ensures AdoptionsSettle(c, ls)
  {
    hide PlanFor, Revives, UnknownIn, Skipped, Place;
    PlanMarks(c, ls);
    forall s, e, n ensures !RevivedAboveUnplaced(c, ls, s, e, n) {
      assert RevivesIn(c, ls, s, e) ==> RefOf(s, e) in PlanFor(c, ls).revive;
    }
  }

  lemma HeldBackAreDated(plan: Plan, today: string)
    ensures forall r :: r in plan.retire && r !in ToApply(plan, today).retire ==> Dated(r)
    ensures RetireRefused(plan, today).Some? <==> exists r :: r in plan.retire && r !in ToApply(plan, today).retire
  {
    hide UntrustedClock;
    UndatedHolds(plan.retire);
    if RetireRefused(plan, today).Some? {
      var i :| 0 <= i < |plan.retire| && Dated(plan.retire[i]);
      assert plan.retire[i] in plan.retire && plan.retire[i] !in ToApply(plan, today).retire;
    }
  }

  /** A plan that only retires dated entries. */
  lemma OnlyDatedLeft(plan: Plan, later: string)
    requires plan.revive == [] && forall r :: r in plan.retire ==> Dated(r)
    ensures !ToApply(plan, later).ChangesConfig() <==>
            plan.adopt == [] && (plan.retire == [] || UntrustedClock(later).Some?)
  {
    hide UntrustedClock;
    UndatedHolds(plan.retire);
    HeadIsMember(Undated(plan.retire));
    if plan.retire != [] { assert Dated(plan.retire[0]); }
  }

  /** The plan against the configuration the first run left. */
  lemma Replanned(c: Config, ls: seq<Listing>, today: string, later: string, u: Config)
    requires WellNamed(c)
    requires Applied(c, ToApply(PlanFor(c, ls), today), today) == Ok(u)
    ensures var plan, again := PlanFor(c, ls), PlanFor(Pinned(u), ls);
            again.revive == [] && (again.adopt == [] <==> AdoptionsSettle(c, ls)) &&
            (again.retire == [] <==> RetireRefused(plan, today).None?) &&
            (!ToApply(again, later).ChangesConfig() <==> AdoptionsSettle(c, ls) && StillRefused(plan, today, later)) &&
            (AdoptionsSettle(c, ls) ==> (again.Failed() <==> plan.Failed()))
  {
    hide PlanFor, Applied, WellNamed, UntrustedClock, Settled.Outcome, ToApply, Pinned, NamesIn, RetireRefused,
         RevivedAboveUnplaced;
    var plan := PlanFor(c, ls);
    var apply := ToApply(plan, today);
    ToApplyHoldsBack(plan, today);
    AppliedIsOutcome(c, ls, apply, today);
    NoMarksAgain(c, ls, apply, today, u);
    AdoptionsSettleExactly(c, ls, apply, today, u);
    PinningChangesNoPlan(u, ls);
    HeldBackAreDated(plan, today);
    if RetireRefused(plan, today).Some? {
      var r :| r in plan.retire && r !in apply.retire;
      HeldBackStays(c, ls, apply, today, u, r);
    }
    if PlanFor(u, ls).adopt == [] { FailsAgain(c, ls, apply, today, u); }
    HeadIsMember(PlanFor(u, ls).retire);
    OnlyDatedLeft(PlanFor(u, ls), later);
  }

  // ---------------------------------------------------------------------
  // What the first run left.

  /** It changed no entry. */
  lemma AfterUnchanged(d: Disk, c: Config, plan: Plan, today: string, f: SyncFaults)
    requires d.config == Loads(c) && !ToApply(plan, today).ChangesConfig()
    requires SyncWith(d, c, plan, false, today, f).result.value.report.writeError.None?
    ensures var after := SyncWith(d, c, plan, false, today, f).disk;
            after.config == Loads(c) && Errors(c) == [] &&
            (ConfsCurrent(after.files, c) || plan.Failed() <==> CanAgree(c) || plan.Failed())
  {
    hide Errors, ConfsCurrent, WrittenConfs, UntrustedClock, Applied, StatePath, CanAgree;
    var after := SyncWith(d, c, plan, false, today, f).disk;
    if ConfsCurrent(after.files, c) { NeverCurrent(after.files, c); }
    if !ConfsCurrent(d.files, c) && !plan.Failed() && Errors(c) == [] {
      var w := WrittenConfs(d.files, c, f.main, f.state);
      if w.failed.None? { WrittenAreCurrent(d.files, c, f.main, f.state); }
    }
  }

  /** It wrote all three files. */
  lemma AfterChanged(d: Disk, c: Config, apply: Plan, today: string, f: SyncFaults, u: Config)
    requires d.config == Loads(c) && Applied(c, apply, today) == Ok(u)
    requires Updated(d, c, Ok(u), f).error.None?
    ensures var after := Updated(d, c, Ok(u), f).disk;
            after.config == Loads(Pinned(u)) && Errors(Pinned(u)) == [] &&
            (ConfsCurrent(after.files, Pinned(u)) <==> CanAgree(Pinned(u)))
  {
    ChangedRunLeaves(d, c, Ok(u), f);
    ValidNamesTops(u);
    hide Applied, Errors, WrittenConfs, ConfsCurrent, StatePath, Pinned, TopsNamed, Updated, CanAgree;
    PinningChangesNoError(u);
    var after := Updated(d, c, Ok(u), f).disk;
    WrittenAreCurrent(d.files, u, f.main, f.state);
    PinnedConfsCurrent(after.files, u);
    PinnedCanAgree(u);
  }

  lemma PinnedCanAgree(u: Config)
    requires TopsNamed(u.sources)
    ensures CanAgree(Pinned(u)) <==> CanAgree(u)
  {
    hide RenderConf, RenderState, StatePath, Pinned, TopsNamed;
    PinnedPaths(u);
    PinningChangesNoPrint(u);
  }

  lemma ChangedRunLeaves(d: Disk, c: Config, next: Result<Config, ApplyError>, f: SyncFaults)
    requires d.config == Loads(c) && Updated(d, c, next, f).error.None?
    ensures next.Ok? && Errors(next.value) == [] && Updated(d, c, next, f).disk.config == Loads(Pinned(next.value))
    ensures WrittenConfs(d.files, next.value, f.main, f.state).failed.None?
    ensures Updated(d, c, next, f).disk.files == WrittenConfs(d.files, next.value, f.main, f.state).files
  {
    hide Errors, WrittenConfs, Pinned;
  }

  // ---------------------------------------------------------------------
  // Both runs.

  /** What can be said before the second run: `c` is what the first found, on
      `today`, and `next` what it left. */
  ghost predicate NothingLeftToDo(c: Config, ls: seq<Listing>, today: string, later: string, next: Config) {
    AdoptionsSettle(c, ls) && StillRefused(PlanFor(c, ls), today, later) &&
    (CanAgree(next) || PlanFor(c, ls).Failed())
  }

  lemma SettlesUnchanged(d: Disk, c: Config, ls: seq<Listing>, today: string, later: string, f: SyncFaults,
                         g: SyncFaults)
    requires d.config == Loads(c) && !ToApply(PlanFor(c, ls), today).ChangesConfig()
    requires SyncWith(d, c, PlanFor(c, ls), false, today, f).result.value.report.writeError.None?
    ensures var plan := PlanFor(c, ls);
            var after := SyncWith(d, c, plan, false, today, f).disk;
            after.config == Loads(c) && plan.revive == [] && plan.adopt == [] && AdoptionsSettle(c, ls) &&
            (plan.retire == [] <==> RetireRefused(plan, today).None?) &&
            (WritesNothing(after, SyncWith(after, c, plan, false, later, g)) <==>
             NothingLeftToDo(c, ls, today, later, c))
  {
    hide PlanFor, Errors, ConfsCurrent, WrittenConfs, UntrustedClock, Applied, StatePath, WritesNothing,
         AdoptionsSettle, CanAgree, StillRefused, ToApply, SyncWith;
    var plan := PlanFor(c, ls);
    var after := SyncWith(d, c, plan, false, today, f).disk;
    AfterUnchanged(d, c, plan, today, f);
    UnchangedAgain(plan, today, later);
    NothingRevivedSettles(c, ls);
    QuietExactly(after, c, plan, later, g);
  }

  lemma SettlesChanged(d: Disk, c: Config, ls: seq<Listing>, today: string, later: string, f: SyncFaults,
                       g: SyncFaults)
    requires d.config == Loads(c) && ToApply(PlanFor(c, ls), today).ChangesConfig()
    requires WellNamed(c)
    requires SyncWith(d, c, PlanFor(c, ls), false, today, f).result.value.report.writeError.None?
    ensures var plan := PlanFor(c, ls);
            var after := SyncWith(d, c, plan, false, today, f).disk;
            after.config.Loads? &&
            (var again := PlanFor(after.config.config, ls);
             again.revive == [] && (again.adopt == [] <==> AdoptionsSettle(c, ls)) &&
             (again.retire == [] <==> RetireRefused(plan, today).None?) &&
             (WritesNothing(after, SyncWith(after, after.config.config, again, false, later, g)) <==>
              NothingLeftToDo(c, ls, today, later, after.config.config)))
  {
    hide PlanFor, Applied, WellNamed, UntrustedClock, ToApply, Pinned, NamesIn, Errors, WrittenConfs, ConfsCurrent,
         StatePath, WritesNothing, Updated, RetireRefused, AdoptionsSettle, CanAgree, StillRefused;
    var apply := ToApply(PlanFor(c, ls), today);
    ChangedRunLeaves(d, c, Applied(c, apply, today), f);
    var u := Applied(c, apply, today).value;
    AfterChanged(d, c, apply, today, f, u);
    var after := SyncWith(d, c, PlanFor(c, ls), false, today, f).disk;
    assert after == Updated(d, c, Ok(u), f).disk;
    Replanned(c, ls, today, later, u);
    QuietExactly(after, Pinned(u), PlanFor(Pinned(u), ls), later, g);
  }

  /** A whole sync is a fixpoint, and exactly when. After a real sync with no
      write error, another against the same listings, on any day, its writes
      failing or not, writes nothing (the disk as it was, `btrbk.conf` not
      regenerated) exactly if: the adoptions settle, as with a primary target
      they do; a retirement held back by the clock would be held back still;
      and both printed texts can be where they belong, or the run has failed
      and leaves them. Nothing is ever left to revive, nor, unless held back,
      to retire. */
  lemma WholeSyncFixpoint(d: Disk, ls: seq<Listing>, today: string, later: string, f: SyncFaults, g: SyncFaults)
    requires d.config.Loads? && WellNamed(d.config.config)
    requires Synchronised(d, false, false, ls, today, f).result.value.report.writeError.None?
    ensures var first := Synchronised(d, false, false, ls, today, f);
            var second := Synchronised(first.disk, false, false, ls, later, g);
            first.disk.config.Loads? && second.result.Ok? &&
            (var again := second.result.value.report.plan;
             again.revive == [] && (again.adopt == [] <==> AdoptionsSettle(d.config.config, ls)) &&
             (again.retire == [] <==> first.result.value.report.retireRefused.None?) &&
             (WritesNothing(first.disk, second) <==>
              NothingLeftToDo(d.config.config, ls, today, later, first.disk.config.config)))
  {
    hide PlanFor, Applied, WellNamed, UntrustedClock, ToApply, Pinned, NamesIn, Errors, WrittenConfs, ConfsCurrent,
         StatePath, WritesNothing, Updated, IntoLine, RetireRefused, NothingLeftToDo, AdoptionsSettle;
    var c := d.config.config;
    if ToApply(PlanFor(c, ls), today).ChangesConfig() {
      SettlesChanged(d, c, ls, today, later, f, g);
    } else {
      SettlesUnchanged(d, c, ls, today, later, f, g);
    }
  }

  /** With a primary target, paths of their own and a clock that is trusted or
      stays untrusted, that is always. */
  lemma SecondSyncWritesNothing(d: Disk, ls: seq<Listing>, today: string, later: string, f: SyncFaults, g: SyncFaults)
    requires d.config.Loads? && WellNamed(d.config.config) && HasPrimary(d.config.config)
    requires d.config.config.btrbkConf != StatePath(d.config.config)
    requires Synchronised(d, false, false, ls, today, f).result.value.report.writeError.None?
    requires Synchronised(d, false, false, ls, today, f).result.value.report.retireRefused.Some? ==>
               UntrustedClock(later).Some?
    ensures var first := Synchronised(d, false, false, ls, today, f);
            WritesNothing(first.disk, Synchronised(first.disk, false, false, ls, later, g))
  {
    hide PlanFor, Applied, WellNamed, UntrustedClock, ToApply, Pinned, NamesIn, Errors, WrittenConfs, ConfsCurrent,
         StatePath, WritesNothing, Updated, IntoLine, RevivedAboveUnplaced, HasPrimary;
    WholeSyncFixpoint(d, ls, today, later, f, g);
    SyncKeepsPath(d, ls, today, f);
    RefusalReported(d, ls, today, f);
  }

  lemma RefusalReported(d: Disk, ls: seq<Listing>, today: string, f: SyncFaults)
    requires d.config.Loads?
    ensures Synchronised(d, false, false, ls, today, f).result.value.report.retireRefused ==
            RetireRefused(PlanFor(d.config.config, ls), today)
  {
    hide PlanFor, Applied, UntrustedClock, ToApply, Updated, IntoLine;
  }

  /** A sync never changes where the files are. */
  lemma SyncKeepsPath(d: Disk, ls: seq<Listing>, today: string, f: SyncFaults)
    requires d.config.Loads?
    ensures var e := Synchronised(d, false, false, ls, today, f).disk;
            e.config.Loads? && e.config.config.btrbkConf == d.config.config.btrbkConf &&
            StatePath(e.config.config) == StatePath(d.config.config)
  {
    hide PlanFor, UntrustedClock, ToApply, Applied, WrittenConfs, Errors, StatePath, Pinned;
    var c := d.config.config;
    var apply := ToApply(PlanFor(c, ls), today);
    if apply.ChangesConfig() && Applied(c, apply, today).Ok? {
      AppliedPaths(c, apply, today);
      PinnedPaths(Applied(c, apply, today).value);
    }
  }

  /** With one path for both files and different texts there is no end to it:
      while the plan changes nothing and every volume reads, each run
      regenerates them again. */
  lemma OnePathRegeneratesForever(d: Disk, ls: seq<Listing>, today: string)
    requires d.config.Loads? && Errors(d.config.config) == [] && !CanAgree(d.config.config)
    requires !ToApply(PlanFor(d.config.config, ls), today).ChangesConfig() && !PlanFor(d.config.config, ls).Failed()
    ensures var e := Synchronised(d, false, false, ls, today, NO_FAULTS);
            e.result.Ok? && e.result.value.report.conf.Regenerated? && e.disk.config == d.config
  {
    hide PlanFor, UntrustedClock, Applied, Errors, ConfsCurrent, CanAgree, StatePath, RenderConf, RenderState;
    var c := d.config.config;
    if ConfsCurrent(d.files, c) { NeverCurrent(d.files, c); }
    ValidRenders(c);
  }
}
