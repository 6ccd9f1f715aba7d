// The replanned configuration: same volumes, same skips, same failures, and
// nothing left to adopt. The main results on planning and applying.
module Fixpoint {
  import opened Base
  import opened Config
  import opened Glob
  import opened Sync
  import opened SyncFacts
  import opened Apply
  import opened Adopting
  import opened Settle
  import opened Settled

  /** `b` is `a` with the same sources first and, after them, only adoption
      sources on volumes `a` has. */
  ghost predicate Follows(a: seq<Source>, b: seq<Source>) {
    |a| <= |b| && (forall i :: 0 <= i < |a| ==> Same(a[i], b[i])) &&
    (forall i :: |a| <= i < |b| ==> IsAdoptionTag(b[i].tag) && IsBeside(a, b[i]))
  }

  ghost predicate IsBeside(sources: seq<Source>, s: Source) {
    exists j :: 0 <= j < |sources| && sources[j].volume == s.volume
  }

  lemma OutcomeFollows(c: Config, ls: seq<Listing>, p: Plan, today: string, out: Config)
    requires Outcome(c, ls, p, today, out)
    ensures Follows(c.sources, out.sources)
  {
    hide PlanFor, Outcome, IsAdoptionTag, LikeFirst, IsCandidate;
    OldEntries(c, ls, p, today, out);
    forall i | |c.sources| <= i < |out.sources|
      ensures IsAdoptionTag(out.sources[i].tag) && IsBeside(c.sources, out.sources[i])
    {
      var a := NewSources(c, ls, p, today, out, i);
      MadeTag(c, a, out.sources[i]);
      MadeBeside(c, a, out.sources[i]);
    }
  }

  /** A source made for an adoption is on a volume the configuration has. */
  lemma MadeBeside(c: Config, a: Adoption, s: Source)
    requires MadeFor(c, a, s)
    ensures IsBeside(c.sources, s)
  {
    hide LikeFirst, IsCandidate;
    var j :| 0 <= j < |c.sources| && c.sources[j].volume == a.volume;
    assert c.sources[j].volume == s.volume;
  }

  lemma {:induction false} MoreSourcesSameVolumes(seen: seq<string>, more: seq<Source>)
    requires forall i :: 0 <= i < |more| ==> more[i].volume in seen
    ensures VolumesFrom(seen, more) == seen
    decreases |more|
  {
    if more != [] { MoreSourcesSameVolumes(seen, more[1..]); }
  }

  lemma {:induction false} SameVolumesFrom(seen: seq<string>, a: seq<Source>, b: seq<Source>)
    requires |a| <= |b| && forall i :: 0 <= i < |a| ==> a[i].volume == b[i].volume
    requires forall i :: |a| <= i < |b| ==> b[i].volume in VolumesFrom(seen, a)
    ensures VolumesFrom(seen, b) == VolumesFrom(seen, a)
    decreases |a|
  {
    if a == [] {
      MoreSourcesSameVolumes(seen, b);
    } else {
      var next := if a[0].volume in seen then seen else seen + [a[0].volume];
      SameVolumesFrom(next, a[1..], b[1..]);
    }
  }

  lemma SameVolumes(a: Config, b: Config)
    requires Follows(a.sources, b.sources)
    ensures Volumes(b) == Volumes(a)
  {
    VolumesFromHolds([], a.sources);
    SameVolumesFrom([], a.sources, b.sources);
  }

  lemma {:induction false} SameAdoptionTag(a: seq<Source>, b: seq<Source>, v: string)
    requires |a| <= |b| && (forall i :: 0 <= i < |a| ==> Same(a[i], b[i]))
    requires forall i :: |a| <= i < |b| ==> IsAdoptionTag(b[i].tag)
    ensures AdoptionTag(a, v) == AdoptionTag(b, v)
    decreases |b|
  {
    if b != [] {
      if a == [] {
        assert IsAdoptionTag(b[0].tag);
        SameAdoptionTag([], b[1..], v);
      } else {
        assert Same(a[0], b[0]);
        SameAdoptionTag(a[1..], b[1..], v);
      }
    }
  }

  lemma {:induction false} SameFirstOn(a: seq<Source>, b: seq<Source>, v: string)
    requires |a| <= |b| && (forall i :: 0 <= i < |a| ==> Same(a[i], b[i]))
    requires SourcesOn(a, v) != []
    ensures SourcesOn(b, v) != [] && Same(SourcesOn(a, v)[0], SourcesOn(b, v)[0])
  {
    assert Same(a[0], b[0]);
    if a[0].volume != v { SameFirstOn(a[1..], b[1..], v); }
  }

  lemma OnVolumeBoth(a: Config, b: Config, v: string)
    requires Follows(a.sources, b.sources)
    ensures SourcesOn(a.sources, v) != [] <==> SourcesOn(b.sources, v) != []
  {
    hide SourcesOn;
    SameVolumes(a, b);
    VolumeHasSources(a, v);
    VolumeHasSources(b, v);
  }

  lemma StaysConfigured(c: Config, ls: seq<Listing>, p: Plan, today: string, out: Config, v: string, n: string)
    requires Outcome(c, ls, p, today, out) && Configured(SourcesOn(c.sources, v), n)
    ensures Configured(SourcesOn(out.sources, v), n)
  {
    hide PlanFor, Outcome, SourcesOn;
    OldEntries(c, ls, p, today, out);
    SourcesOnHolds(c.sources, v);
    SourcesOnHolds(out.sources, v);
    var on, onNow := SourcesOn(c.sources, v), SourcesOn(out.sources, v);
    var i :| 0 <= i < |on| && HasEntry(on[i].subvolumes, n);
    assert on[i] in on;
    var j :| 0 <= j < |c.sources| && c.sources[j] == on[i];
    assert Same(c.sources[j], out.sources[j]);
    var k :| 0 <= k < |on[i].subvolumes| && on[i].subvolumes[k].name == n;
    assert IsOld(c, j, k);
    assert out.sources[j].subvolumes[k].name == n;
    assert out.sources[j] in onNow;
    var l :| 0 <= l < |onNow| && onNow[l] == out.sources[j];
    assert HasEntry(onNow[l].subvolumes, n);
  }

  lemma AdoptedIsConfigured(c: Config, ls: seq<Listing>, p: Plan, today: string, out: Config, a: Adoption)
    requires Outcome(c, ls, p, today, out) && a in PlanFor(c, ls).adopt
    ensures Configured(SourcesOn(out.sources, a.volume), a.name)
  {
    hide PlanFor, Outcome, SourcesOn, LikeFirst, IsCandidate;
    var i, k := AdoptedEntries(c, ls, p, today, out, a);
    var onNow := SourcesOn(out.sources, a.volume);
    SourcesOnHolds(out.sources, a.volume);
    assert out.sources[i] in onNow;
    var l :| 0 <= l < |onNow| && onNow[l] == out.sources[i];
    assert HasEntry(onNow[l].subvolumes, a.name);
  }

  lemma SamePatterns(c: Config, out: Config)
    requires out == c.(sources := out.sources)
    ensures ExcludePatterns(out) == ExcludePatterns(c)
    ensures forall n :: Skipped(out, n) <==> Skipped(c, n)
  {
  }

  /** A name placed nowhere the first time is placed nowhere the second. */
  lemma StaysUnplaced(c: Config, ls: seq<Listing>, p: Plan, today: string, out: Config, v: string, n: string)
    requires Outcome(c, ls, p, today, out) && HasPrimary(c)
    requires SourcesOn(c.sources, v) != [] && SourcesOn(out.sources, v) != []
    requires PlaceIn(c, v, n).Err?
    ensures PlaceIn(out, v, n).Err?
  {
    hide PlanFor, SourcesOn, MirrorLabels, ScopeOf, Pairs, AdoptionTag, FindSource, UniqueNames, Grown;
    assert n == TOP_LEVEL;
    TopHasNoAncestor(Pairs(SourcesOn(out.sources, v)));
    OutcomeFollows(c, ls, p, today, out);
    StaysWellNamed(c, ls, p, today, out);
    SameAdoptionTag(c.sources, out.sources, v);
    SameFirstOn(c.sources, out.sources, v);
    var tag := HomeTag(c, v, SourcesOn(c.sources, v));
    assert tag == HomeTag(out, v, SourcesOn(out.sources, v));
    FindSourceOnVolume(c.sources, v, tag);
    FindSourceOnVolume(out.sources, v, tag);
    var home := FindSource(SourcesOn(c.sources, v), tag).value;
    var i :| 0 <= i < |c.sources| && c.sources[i] == home;
    assert Same(c.sources[i], out.sources[i]);
    assert out.sources[i] in out.sources;
    var again := FindSource(SourcesOn(out.sources, v), tag).value;
    var j :| 0 <= j < |out.sources| && out.sources[j] == again;
    assert i == j;
    SameMirrors(c.targets, home, again);
  }

  lemma UnknownShrinks(c: Config, ls: seq<Listing>, p: Plan, today: string, out: Config, v: string, n: string)
    requires Outcome(c, ls, p, today, out)
    ensures UnknownIn(out, ls, v, n) ==> UnknownIn(c, ls, v, n)
    ensures UnknownIn(out, ls, v, n) ==> !AdoptsIn(c, ls, v, n)
    ensures UnknownIn(c, ls, v, n) && !AdoptsIn(c, ls, v, n) ==> UnknownIn(out, ls, v, n)
  {
    hide PlanFor, Outcome, SourcesOn, Configured, OnDisk, Skipped, Place;
    OutcomeFollows(c, ls, p, today, out);
    OnVolumeBoth(c, out, v);
    if Configured(SourcesOn(c.sources, v), n) { StaysConfigured(c, ls, p, today, out, v, n); }
    if AdoptsIn(c, ls, v, n) {
      PlanAdoptions(c, ls);
      PlacedName(c, v, SourcesOn(c.sources, v), n);
      assert AdoptionOn(c, ls, v, PlaceIn(c, v, n).value);
      AdoptedIsConfigured(c, ls, p, today, out, PlaceIn(c, v, n).value);
    }
    if UnknownIn(c, ls, v, n) && Configured(SourcesOn(out.sources, v), n) {
      NewlyConfigured(c, ls, p, today, out, v, n);
    }
  }

  /** A name that becomes configured on a volume was adopted there. */
  lemma NewlyConfigured(c: Config, ls: seq<Listing>, p: Plan, today: string, out: Config, v: string, n: string)
    requires Outcome(c, ls, p, today, out)
    requires !Configured(SourcesOn(c.sources, v), n) && Configured(SourcesOn(out.sources, v), n)
    ensures AdoptsIn(c, ls, v, n)
  {
    hide PlanFor, Grown, Stamped, WellNamed, SourcesOn, OnDisk, Skipped, Place, LikeFirst, IsCandidate;
    var on := SourcesOn(out.sources, v);
    SourcesOnHolds(out.sources, v);
    var l :| 0 <= l < |on| && HasEntry(on[l].subvolumes, n);
    assert on[l] in on;
    var i :| 0 <= i < |out.sources| && out.sources[i] == on[l];
    var k :| 0 <= k < |on[l].subvolumes| && on[l].subvolumes[k].name == n;
    OldEntries(c, ls, p, today, out);
    if IsOld(c, i, k) {
      assert out.sources[i].subvolumes[k].name == c.sources[i].subvolumes[k].name;
      ConfiguredBy(c, i, k);
    } else {
      var a := NewEntries(c, ls, p, today, out, i, k);
      PlanAdoptions(c, ls);
      var w :| AdoptionOn(c, ls, w, a);
      var m :| AdoptsIn(c, ls, w, m) && PlaceIn(c, w, m) == Ok(a);
      PlacedName(c, w, SourcesOn(c.sources, w), m);
    }
  }

  lemma NothingToAdoptAgain(c: Config, ls: seq<Listing>, p: Plan, today: string, out: Config)
    requires Outcome(c, ls, p, today, out) && HasPrimary(c)
    ensures PlanFor(out, ls).adopt == []
  {
    hide PlanFor, SourcesOn, Configured, OnDisk, Skipped, Place, Grown, Stamped, WellNamed, UnknownIn;
    PlanAdoptions(out, ls);
    SamePatterns(c, out);
    forall v, n ensures !AdoptsIn(out, ls, v, n) {
      UnknownShrinks(c, ls, p, today, out, v, n);
      if UnknownIn(out, ls, v, n) && !Skipped(out, n) {
        UnknownHasSources(c, ls, v, n);
        UnknownHasSources(out, ls, v, n);
        StaysUnplaced(c, ls, p, today, out, v, n);
      }
    }
    HeadIsMember(PlanFor(out, ls).adopt);
  }

  lemma UnknownHasSources(c: Config, ls: seq<Listing>, v: string, n: string)
    ensures UnknownIn(c, ls, v, n) ==> SourcesOn(c.sources, v) != []
  {
  }

  // ---------------------------------------------------------------------
  // The lists that stay the same.

  ghost function SkippedOf(c: Config, names: seq<string>): seq<string> {
    if names == [] then []
    else if Skipped(c, names[0]) then [names[0]] + SkippedOf(c, names[1..])
    else SkippedOf(c, names[1..])
  }

  ghost function SkipsFor(c: Config, v: string, names: seq<string>): seq<Skip>
    requires forall n :: n in names ==> Skipped(c, n)
  {
    if names == [] then [] else [SkipFor(c, v, names[0])] + SkipsFor(c, v, names[1..])
  }

  lemma {:induction false} SkippedOfHolds(c: Config, names: seq<string>)
    requires Ascending(names)
    ensures Ascending(SkippedOf(c, names))
    ensures forall n :: n in SkippedOf(c, names) <==> n in names && Skipped(c, n)
  {
    hide Skipped;
    if names != [] {
      AscendingTail(names);
      SkippedOfHolds(c, names[1..]);
      assert names == [names[0]] + names[1..];
      var rest := SkippedOf(c, names[1..]);
      forall j | 0 <= j < |rest| ensures Less(names[0], rest[j]) {
        assert rest[j] in names[1..];
        var k :| 0 <= k < |names[1..]| && names[1..][k] == rest[j];
        assert names[k + 1] == rest[j];
      }
    }
  }

  lemma {:induction false} SkippedList(c: Config, v: string, sources: seq<Source>, names: seq<string>)
    requires sources != [] && Ascending(names)
    ensures forall n :: n in SkippedOf(c, names) ==> Skipped(c, n)
    ensures UnknownPlan(c, v, sources, names).skipped == SkipsFor(c, v, SkippedOf(c, names))
  {
    hide Place, Skipped, SkipFor, Ascending;
    SkippedOfHolds(c, names);
    if names != [] {
      AscendingTail(names);
      SkippedList(c, v, sources, names[1..]);
    }
  }

  lemma {:induction false} SameSkipsFor(c: Config, out: Config, v: string, names: seq<string>)
    requires out == c.(sources := out.sources)
    requires forall n :: n in names ==> Skipped(c, n) && Skipped(out, n)
    ensures SkipsFor(c, v, names) == SkipsFor(out, v, names)
  {
    if names != [] {
      SamePatterns(c, out);
      assert names == [names[0]] + names[1..];
      SameSkipsFor(c, out, v, names[1..]);
    }
  }

  lemma SameVolumeLists(c: Config, ls: seq<Listing>, p: Plan, today: string, out: Config, v: string)
    requires Outcome(c, ls, p, today, out)
    ensures VolumePlan(out, ls, v).skipped == VolumePlan(c, ls, v).skipped
    ensures VolumePlan(out, ls, v).failed == VolumePlan(c, ls, v).failed
  {
    hide PlanFor, Outcome, KnownPlan, UnknownPlan, Unknown, Pairs, OnDisk, Skipped, SkipsFor, Configured, Place;
    OutcomeFollows(c, ls, p, today, out);
    OnVolumeBoth(c, out, v);
    var a, b := SourcesOn(c.sources, v), SourcesOn(out.sources, v);
    if a != [] && Read(ls, v) {
      var found := Found(ls, v);
      UnknownHolds(found, a);
      UnknownHolds(found, b);
      KnownPlanLists(c, v, found, Pairs(a));
      KnownPlanLists(out, v, found, Pairs(b));
      var m, n := Unknown(found, a), Unknown(found, b);
      UnknownPlanLists(c, v, a, m);
      UnknownPlanLists(out, v, b, n);
      SkippedList(c, v, a, m);
      SkippedList(out, v, b, n);
      assert out == c.(sources := out.sources) by { OutcomeIs(c, ls, p, today, out); }
      SamePatterns(c, out);
      SkippedOfHolds(c, m);
      SkippedOfHolds(out, n);
      forall x ensures x in SkippedOf(c, m) <==> x in SkippedOf(out, n) {
        UnknownShrinks(c, ls, p, today, out, v, x);
      }
      AscendingUnique(SkippedOf(c, m), SkippedOf(out, n));
      SameSkipsFor(c, out, v, SkippedOf(c, m));
    }
  }

  lemma OutcomeIs(c: Config, ls: seq<Listing>, p: Plan, today: string, out: Config)
    requires Outcome(c, ls, p, today, out)
    ensures out == c.(sources := out.sources) && WellNamed(c)
  {
  }

  lemma {:induction false} SameLists(c: Config, ls: seq<Listing>, p: Plan, today: string, out: Config, vs: seq<string>)
    requires Outcome(c, ls, p, today, out)
    ensures VolumesPlan(out, ls, vs).skipped == VolumesPlan(c, ls, vs).skipped
    ensures VolumesPlan(out, ls, vs).failed == VolumesPlan(c, ls, vs).failed
  {
    hide Outcome, VolumePlan;
    if vs != [] {
      SameLists(c, ls, p, today, out, vs[1..]);
      SameVolumeLists(c, ls, p, today, out, vs[0]);
    }
  }

  // ---------------------------------------------------------------------
  // Main results.

  /** Whenever a plan `plan_sync` made is carried out, the result is again one
      the program can work with. */
  lemma AppliedIsOutcome(c: Config, ls: seq<Listing>, p: Plan, today: string)
    requires WellNamed(c) && HoldsBackOnlyRetirements(p, PlanFor(c, ls)) && Applied(c, p, today).Ok?
    ensures Outcome(c, ls, p, today, Applied(c, p, today).value)
    ensures WellNamed(Applied(c, p, today).value)
  {
    hide PlanFor, Applied, Grown, WellNamed;
    PlanIsCarriedOut(c, ls, p, today);
    StaysWellNamed(c, ls, p, today, Applied(c, p, today).value);
  }

  /** With names to spare, `apply_plan` never refuses such a plan. */
  lemma ApplyNeverFails(c: Config, ls: seq<Listing>, p: Plan, today: string)
    requires WellNamed(c) && HoldsBackOnlyRetirements(p, PlanFor(c, ls)) && RoomForNames(c, p.adopt)
    ensures Applied(c, p, today).Ok? && Outcome(c, ls, p, today, Applied(c, p, today).value)
  {
    hide PlanFor, Applied, Grown, WellNamed, Outcome;
    PlanIsCarriedOut(c, ls, p, today);
    AppliedIsOutcome(c, ls, p, today);
  }

  /** One round settles. With a primary target, planning the carried-out
      configuration against the same listings adopts and revives nothing, and
      retires only what this round held back; the skipped subvolumes and the
      failed volumes are reported again, unchanged. */
  lemma OneRoundSettles(c: Config, ls: seq<Listing>, p: Plan, today: string, out: Config)
    requires Outcome(c, ls, p, today, out) && HasPrimary(c)
    ensures PlanFor(out, ls).adopt == [] && PlanFor(out, ls).revive == []
    ensures forall r :: r in PlanFor(out, ls).retire ==> r in PlanFor(c, ls).retire && r !in p.retire
    ensures p == PlanFor(c, ls) ==> PlanFor(out, ls).retire == []
    ensures PlanFor(out, ls).skipped == PlanFor(c, ls).skipped
    ensures PlanFor(out, ls).failed == PlanFor(c, ls).failed
  {
    hide Outcome, VolumesPlan;
    NothingToAdoptAgain(c, ls, p, today, out);
    NoMarksAgain(c, ls, p, today, out);
    OutcomeFollows(c, ls, p, today, out);
    SameVolumes(c, out);
    SameLists(c, ls, p, today, out, Volumes(c));
    HeadIsMember(PlanFor(out, ls).retire);
  }

  // ---------------------------------------------------------------------
  // Without a primary target.

  /** An entry about to be revived lies above a subvolume that finds no place. */
  ghost predicate RevivedAboveUnplaced(c: Config, ls: seq<Listing>, s: Source, e: Entry, n: string) {
    RevivesIn(c, ls, s, e) && NestedUnder(n, e.name) &&
    UnknownIn(c, ls, s.volume, n) && !Skipped(c, n) && PlaceIn(c, s.volume, n).Err?
  }

  lemma PlacedIffAncestor(c: Config, v: string, n: string)
    requires SourcesOn(c.sources, v) != [] && !HasPrimary(c)
    ensures PlaceIn(c, v, n).Ok? <==>
            exists s, e :: Has(c, s, e) && s.volume == v && e.Live() && NestedUnder(n, e.name)
  {
    hide SourcesOn, Pairs;
    var pairs := Pairs(SourcesOn(c.sources, v));
    PairsOnVolume(c, v);
    AncestorMeans(pairs, n);
    if PlaceIn(c, v, n).Ok? {
      var p := Ancestor(pairs, n).value;
      assert (p.0, p.1) in pairs;
    }
    if exists s, e :: Has(c, s, e) && s.volume == v && e.Live() && NestedUnder(n, e.name) {
      var s, e :| Has(c, s, e) && s.volume == v && e.Live() && NestedUnder(n, e.name);
      assert (s, e) in pairs;
    }
  }

  lemma NestedTwice(n: string, a: string, x: string)
    requires NestedUnder(n, a) && NestedUnder(a, x)
    ensures NestedUnder(n, x)
  {
    assert forall i :: 0 <= i < |a| ==> n[i] == a[i];
    assert forall i :: 0 <= i < |x| ==> a[i] == x[i];
  }

  /** What lies above a subvolume the second time and did not the first was
      revived in between. */
  lemma NewAncestorWasRevived(c: Config, ls: seq<Listing>, p: Plan, today: string, out: Config,
                              t: Source, f: Entry, n: string) returns (s: Source, e: Entry)
    requires Outcome(c, ls, p, today, out) && !HasPrimary(c)
    requires Has(out, t, f) && f.Live() && NestedUnder(n, f.name)
    requires SourcesOn(c.sources, t.volume) != [] && PlaceIn(c, t.volume, n).Err?
    ensures RevivesIn(c, ls, s, e) && s.volume == t.volume && NestedUnder(n, e.name)
  {
    hide PlanFor, Grown, WellNamed, SourcesOn, Place, Retires, Revives, OnDisk, NestedUnder, LikeFirst, IsCandidate;
    PlacedIffAncestor(c, t.volume, n);
    OldEntries(c, ls, p, today, out);
    var i :| 0 <= i < |out.sources| && out.sources[i] == t;
    var k :| 0 <= k < |t.subvolumes| && t.subvolumes[k] == f;
    if IsOld(c, i, k) {
      s, e := c.sources[i], c.sources[i].subvolumes[k];
      assert Same(s, t) && out.sources[i].subvolumes[k] == f;
      MarkedExactly(c, ls, s, e);
    } else {
      var a := NewEntries(c, ls, p, today, out, i, k);
      PlanAdoptions(c, ls);
      var v :| AdoptionOn(c, ls, v, a);
      var m :| AdoptsIn(c, ls, v, m) && PlaceIn(c, v, m) == Ok(a);
      PlacedName(c, v, SourcesOn(c.sources, v), m);
      PlacedIffAncestor(c, v, m);
      var q, x :| Has(c, q, x) && q.volume == v && x.Live() && NestedUnder(m, x.name);
      NestedTwice(n, m, x.name);
      assert false;
    }
  }

  lemma RevivedIsLive(c: Config, ls: seq<Listing>, p: Plan, today: string, out: Config, s: Source, e: Entry)
    returns (t: Source, f: Entry)
    requires Outcome(c, ls, p, today, out) && RevivesIn(c, ls, s, e)
    ensures Has(out, t, f) && t.volume == s.volume && f.name == e.name && f.Live()
  {
    hide PlanFor, Grown, WellNamed, Revives, Retires, OnDisk;
    MarkedExactly(c, ls, s, e);
    OldEntries(c, ls, p, today, out);
    var i :| 0 <= i < |c.sources| && c.sources[i] == s;
    var k :| 0 <= k < |s.subvolumes| && s.subvolumes[k] == e;
    assert IsOld(c, i, k);
    t, f := out.sources[i], out.sources[i].subvolumes[k];
  }

  /** One round settles the adoptions exactly when there is a primary target
      or no entry revived by it lies above a subvolume it could not place. */
  lemma AdoptionsSettleExactly(c: Config, ls: seq<Listing>, p: Plan, today: string, out: Config)
    requires Outcome(c, ls, p, today, out)
    ensures PlanFor(out, ls).adopt == [] <==>
            HasPrimary(c) || forall s, e, n :: !RevivedAboveUnplaced(c, ls, s, e, n)
  {
    hide PlanFor, Outcome, SourcesOn, Place, Skipped, OnDisk, Configured, NestedUnder, Revives;
    if HasPrimary(c) {
      NothingToAdoptAgain(c, ls, p, today, out);
    } else {
      OutcomeIs(c, ls, p, today, out);
      SamePatterns(c, out);
      PlanAdoptions(out, ls);
      if PlanFor(out, ls).adopt != [] {
        var a := PlanFor(out, ls).adopt[0];
        assert a in PlanFor(out, ls).adopt;
        var v :| AdoptionOn(out, ls, v, a);
        var n :| AdoptsIn(out, ls, v, n) && PlaceIn(out, v, n) == Ok(a);
        UnknownShrinks(c, ls, p, today, out, v, n);
        UnknownHasSources(c, ls, v, n);
        PlacedIffAncestor(out, v, n);
        var t, f :| Has(out, t, f) && t.volume == v && f.Live() && NestedUnder(n, f.name);
        var s, e := NewAncestorWasRevived(c, ls, p, today, out, t, f, n);
        assert RevivedAboveUnplaced(c, ls, s, e, n);
      }
      if exists s, e, n :: RevivedAboveUnplaced(c, ls, s, e, n) {
        var s, e, n :| RevivedAboveUnplaced(c, ls, s, e, n);
        var t, f := RevivedIsLive(c, ls, p, today, out, s, e);
        UnknownShrinks(c, ls, p, today, out, s.volume, n);
        UnknownHasSources(out, ls, s.volume, n);
        PlacedIffAncestor(out, s.volume, n);
        assert AdoptsIn(out, ls, s.volume, n);
        var a := PlaceIn(out, s.volume, n).value;
        assert AdoptionOn(out, ls, s.volume, a);
        assert a in PlanFor(out, ls).adopt;
      }
    }
  }

  // ---------------------------------------------------------------------
  // A run that failed fails again.

  /** A top level refused is refused again. */
  lemma StaysRefused(c: Config, ls: seq<Listing>, p: Plan, today: string, out: Config, s: Source, e: Entry)
    returns (t: Source, f: Entry)
    requires Outcome(c, ls, p, today, out) && RefusedIn(c, ls, s, e)
    ensures RefusedIn(out, ls, t, f) && t.volume == s.volume
  {
    hide PlanFor, Grown, WellNamed, OnDisk, MirrorLabels;
    OldEntries(c, ls, p, today, out);
    var i :| 0 <= i < |c.sources| && c.sources[i] == s;
    var k :| 0 <= k < |s.subvolumes| && s.subvolumes[k] == e;
    assert IsOld(c, i, k);
    t, f := out.sources[i], out.sources[i].subvolumes[k];
    SameMirrors(c.targets, s, t);
  }

  /** A top level refused the second time was refused the first. */
  lemma WasRefused(c: Config, ls: seq<Listing>, p: Plan, today: string, out: Config, t: Source, f: Entry)
    returns (s: Source, e: Entry)
    requires Outcome(c, ls, p, today, out) && RefusedIn(out, ls, t, f)
    ensures RefusedIn(c, ls, s, e) && s.volume == t.volume
  {
    hide PlanFor, Grown, WellNamed, OnDisk, MirrorLabels, LikeFirst, IsCandidate;
    OldEntries(c, ls, p, today, out);
    var i :| 0 <= i < |out.sources| && out.sources[i] == t;
    var k :| 0 <= k < |t.subvolumes| && t.subvolumes[k] == f;
    if !IsOld(c, i, k) {
      var a := NewEntries(c, ls, p, today, out, i, k);
      AdoptedTopHome(c, ls, p, today, out, i, k, a);
      assert false;
    } else {
      s, e := c.sources[i], c.sources[i].subvolumes[k];
      assert out.sources[i].subvolumes[k].name == e.name;
      SameMirrors(c.targets, s, t);
    }
  }

  /** Something is refused or finds no place. */
  ghost predicate Refuses(c: Config, ls: seq<Listing>) {
    (exists s, e :: RefusedIn(c, ls, s, e)) ||
    (exists v, n :: UnknownIn(c, ls, v, n) && !Skipped(c, n) && !AdoptsIn(c, ls, v, n))
  }

  lemma RefusesMeans(c: Config, ls: seq<Listing>)
    ensures PlanFor(c, ls).unplaceable != [] <==> Refuses(c, ls)
  {
    hide PlanFor, Place, SourcesOn, Configured, OnDisk, Skipped, MirrorLabels, RefusalOf;
    PlanRefusals(c, ls);
    var us := PlanFor(c, ls).unplaceable;
    if us != [] {
      assert us[0] in us;
      var v :| RefusalOn(c, ls, v, us[0]);
      if forall s, e :: !RefusedIn(c, ls, s, e) {
        var n :| UnknownIn(c, ls, v, n) && !Skipped(c, n) && PlaceIn(c, v, n).Err?;
        assert !AdoptsIn(c, ls, v, n);
      }
    }
    if exists s, e :: RefusedIn(c, ls, s, e) {
      var s, e :| RefusedIn(c, ls, s, e);
      assert RefusalOn(c, ls, s.volume, RefusalOf(c, s.volume, s, e));
      assert RefusalOf(c, s.volume, s, e) in us;
    }
    if exists v, n :: UnknownIn(c, ls, v, n) && !Skipped(c, n) && !AdoptsIn(c, ls, v, n) {
      var v, n :| UnknownIn(c, ls, v, n) && !Skipped(c, n) && !AdoptsIn(c, ls, v, n);
      UnknownHasSources(c, ls, v, n);
      var u := Unplaceable(v, n, PlaceIn(c, v, n).error);
      assert RefusalOn(c, ls, v, u);
      assert u in us;
    }
  }

  lemma SomethingAdopted(c: Config, ls: seq<Listing>, v: string, n: string)
    requires AdoptsIn(c, ls, v, n)
    ensures PlanFor(c, ls).adopt != []
  {
    hide PlanFor, Place, SourcesOn, Configured, OnDisk, Skipped, UnknownIn;
    PlanAdoptions(c, ls);
    UnknownHasSources(c, ls, v, n);
    var a := PlaceIn(c, v, n).value;
    assert AdoptionOn(c, ls, v, a);
    assert a in PlanFor(c, ls).adopt;
  }

  /** Where the adoptions settle, the second round fails exactly if the first
      did. */
  lemma FailsAgain(c: Config, ls: seq<Listing>, p: Plan, today: string, out: Config)
    requires Outcome(c, ls, p, today, out) && PlanFor(out, ls).adopt == []
    ensures PlanFor(out, ls).Failed() <==> PlanFor(c, ls).Failed()
  {
    hide PlanFor, Outcome, UnknownIn, AdoptsIn, RefusedIn, Skipped;
    RefusesMeans(c, ls);
    RefusesMeans(out, ls);
    OutcomeIs(c, ls, p, today, out);
    SamePatterns(c, out);
    if exists s, e :: RefusedIn(c, ls, s, e) {
      var s, e :| RefusedIn(c, ls, s, e);
      var t, f := StaysRefused(c, ls, p, today, out, s, e);
    }
    if exists t, f :: RefusedIn(out, ls, t, f) {
      var t, f :| RefusedIn(out, ls, t, f);
      var s, e := WasRefused(c, ls, p, today, out, t, f);
    }
    forall v, n ensures UnknownIn(out, ls, v, n) <==> UnknownIn(c, ls, v, n) && !AdoptsIn(c, ls, v, n)
                ensures !AdoptsIn(out, ls, v, n)
    {
      UnknownShrinks(c, ls, p, today, out, v, n);
      if AdoptsIn(out, ls, v, n) { SomethingAdopted(out, ls, v, n); }
    }
    SameFailed(c, ls, p, today, out);
  }

  lemma SameFailed(c: Config, ls: seq<Listing>, p: Plan, today: string, out: Config)
    requires Outcome(c, ls, p, today, out)
    ensures PlanFor(out, ls).failed == PlanFor(c, ls).failed
  {
    hide Outcome, VolumesPlan;
    OutcomeFollows(c, ls, p, today, out);
    SameVolumes(c, out);
    SameLists(c, ls, p, today, out, Volumes(c));
  }
}
