// A volume's top level never reaches a mirror target
// (indexer/src/adopt.rs, indexer/src/config.rs).
module TopLevel {
  import opened Base
  import opened Config
  import opened Glob
  import opened Sync
  import opened SyncFacts
  import opened Adopting
  import opened Settle
  import opened Settled
  import opened Validate

  /** A live top level in a source that sends to a mirror. */
  ghost predicate Violates(c: Config, s: Source, e: Entry) { Has(c, s, e) && e.Live() && RefusedTop(c, s, e) }

  lemma ScopeErrorsAreViolations(c: Config)
    ensures TopLevelScopeErrors(c) == [] <==> forall s, e :: !Violates(c, s, e)
  {
    hide MirrorsReached;
    ScopeErrorsMeans(c, c.sources);
    if exists s, e :: Violates(c, s, e) {
      var s, e :| Violates(c, s, e);
      var i :| 0 <= i < |c.sources| && c.sources[i] == s;
      var k :| 0 <= k < |s.subvolumes| && s.subvolumes[k] == e;
      assert HasLiveTop(c.sources[i].subvolumes);
    }
    if exists i :: 0 <= i < |c.sources| && HasLiveTop(c.sources[i].subvolumes) &&
                   MirrorsReached(c, c.sources[i]) != [] {
      var i :| 0 <= i < |c.sources| && HasLiveTop(c.sources[i].subvolumes) && MirrorsReached(c, c.sources[i]) != [];
      var entries := c.sources[i].subvolumes;
      var k :| 0 <= k < |entries| && entries[k].name == TOP_LEVEL && entries[k].Live();
      assert Violates(c, c.sources[i], entries[k]);
    }
  }

  /** The sync holds back dated retirements, never a top level's. */
  ghost predicate KeepsTopRetirements(p: Plan, plan: Plan) {
    forall r :: r in plan.retire && r.name == TOP_LEVEL ==> r in p.retire
  }

  lemma ViolationIsOld(c: Config, ls: seq<Listing>, p: Plan, today: string, out: Config, t: Source, f: Entry)
    requires Outcome(c, ls, p, today, out) && KeepsTopRetirements(p, PlanFor(c, ls))
    requires Violates(out, t, f)
    ensures !Read(ls, t.volume)
  {
    hide PlanFor, Outcome, OnDisk, MirrorsReached;
    if Read(ls, t.volume) {
      RetiredIfCalledFor(out, ls, t, f);
      NoMarksAgain(c, ls, p, today, out);
      assert false;
    }
  }

  lemma RetiredIfCalledFor(c: Config, ls: seq<Listing>, s: Source, e: Entry)
    requires RetiresIn(c, ls, s, e)
    ensures RefOf(s, e) in PlanFor(c, ls).retire
  {
    hide PlanFor;
    PlanMarks(c, ls);
  }

  /** The top-level rule holds afterwards exactly when it held before on every
      volume that could not be read: whatever the configuration, what was read
      is put right, also while other retirements are held back. */
  lemma TopLevelsPutRight(c: Config, ls: seq<Listing>, p: Plan, today: string, out: Config)
    requires Outcome(c, ls, p, today, out) && KeepsTopRetirements(p, PlanFor(c, ls))
    ensures TopLevelScopeErrors(out) == [] <==>
            forall s, e :: Violates(c, s, e) ==> Read(ls, s.volume)
  {
    hide PlanFor, Outcome, OnDisk, MirrorsReached, ScopeErrors, WellNamed;
    ScopeErrorsAreViolations(out);
    if TopLevelScopeErrors(out) == [] {
      forall s, e | Violates(c, s, e) ensures Read(ls, s.volume) {
        if !Read(ls, s.volume) { UnreadStays(c, ls, p, today, out, s, e); }
      }
    }
    if forall s, e :: Violates(c, s, e) ==> Read(ls, s.volume) {
      forall t, f ensures !Violates(out, t, f) {
        if Violates(out, t, f) {
          ViolationIsOld(c, ls, p, today, out, t, f);
          UnreadViolationWasThere(c, ls, p, today, out, t, f);
        }
      }
    }
  }

  lemma UnreadStays(c: Config, ls: seq<Listing>, p: Plan, today: string, out: Config, s: Source, e: Entry)
    requires Outcome(c, ls, p, today, out) && Violates(c, s, e) && !Read(ls, s.volume)
    ensures TopLevelScopeErrors(out) != []
  {
    hide PlanFor, OnDisk, Grown, WellNamed, ScopeErrors, MirrorLabels;
    ScopeErrorsAreViolations(out);
    MarkedExactly(c, ls, s, e);
    OldEntries(c, ls, p, today, out);
    var i :| 0 <= i < |c.sources| && c.sources[i] == s;
    var k :| 0 <= k < |s.subvolumes| && s.subvolumes[k] == e;
    assert IsOld(c, i, k);
    var t := out.sources[i];
    assert Same(s, t) && t.subvolumes[k] == e;
    SameMirrors(c.targets, s, t);
    assert Violates(out, t, e);
  }

  lemma UnreadViolationWasThere(c: Config, ls: seq<Listing>, p: Plan, today: string, out: Config, t: Source, f: Entry)
    requires Outcome(c, ls, p, today, out) && Violates(out, t, f) && !Read(ls, t.volume)
    ensures exists s, e :: Violates(c, s, e) && s.volume == t.volume
  {
    hide PlanFor, OnDisk, Grown, WellNamed, MirrorLabels, SourcesOn, Place, Skipped, LikeFirst, IsCandidate;
    OldEntries(c, ls, p, today, out);
    var i :| 0 <= i < |out.sources| && out.sources[i] == t;
    var k :| 0 <= k < |t.subvolumes| && t.subvolumes[k] == f;
    if IsOld(c, i, k) {
      var s, e := c.sources[i], c.sources[i].subvolumes[k];
      assert Same(s, t) && out.sources[i].subvolumes[k] == f;
      assert Has(c, s, e);
      SameMirrors(c.targets, s, t);
      MarkedExactly(c, ls, s, e);
      assert Violates(c, s, e);
    } else {
      var a := NewEntries(c, ls, p, today, out, i, k);
      PlanAdoptions(c, ls);
      var v :| AdoptionOn(c, ls, v, a);
      var n :| AdoptsIn(c, ls, v, n) && PlaceIn(c, v, n) == Ok(a);
      PlacedName(c, v, SourcesOn(c.sources, v), n);
      assert false;
    }
  }

  /** With every volume read the rendered file is accepted, and a source whose
      block holds `.` sends to primaries only. */
  lemma TopLevelNeverReachesMirror(c: Config, ls: seq<Listing>, p: Plan, today: string, out: Config)
    requires Outcome(c, ls, p, today, out) && KeepsTopRetirements(p, PlanFor(c, ls))
    requires forall s :: s in c.sources ==> Read(ls, s.volume)
    ensures TopLevelScopeErrors(out) == []
    ensures forall s, e, t :: Has(out, s, e) && e.Live() && e.name == TOP_LEVEL && t in SourceTargets(out, s) ==>
              t.role.Primary?
  {
    hide PlanFor, Outcome, OnDisk, ScopeErrors;
    TopLevelsPutRight(c, ls, p, today, out);
    ScopeErrorsAreViolations(out);
    forall s, e, t | Has(out, s, e) && e.Live() && e.name == TOP_LEVEL && t in SourceTargets(out, s)
      ensures t.role.Primary?
    {
      assert !Violates(out, s, e);
      NoMirrorsMeansPrimariesOnly(out.targets, s);
    }
  }
}
