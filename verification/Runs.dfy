// One step of a run: no series is renamed or lost
// (indexer/src/adopt.rs, indexer/src/btrbk_conf.rs, indexer/src/config.rs).
module Runs {
  import opened Base
  import opened Config
  import opened Glob
  import opened Names
  import opened Sync
  import opened SyncFacts
  import opened Apply
  import opened Adopting
  import opened Settle
  import opened Settled
  import opened Fixpoint

  predicate InRange(sources: seq<Source>, i: nat, k: nat) { i < |sources| && k < |sources[i].subvolumes| }

  /** The name btrbk is given for entry `k` of source `i`. */
  function NameAt(sources: seq<Source>, i: nat, k: nat): string
    requires InRange(sources, i, k)
  {
    ResolvedName(sources[i].subvolumes, k)
  }

  // ---------------------------------------------------------------------
  // Names of adopted entries.

  /** No entry beyond `base` shares its name with any other entry. */
  ghost predicate Unshared(base: seq<Source>, now: seq<Source>) {
    forall i: nat, k: nat, j: nat, l: nat ::
      InRange(now, i, k) && InRange(now, j, l) && OldLength(base, i) <= k && (i != j || k != l) ==>
      NameAt(now, i, k) != NameAt(now, j, l)
  }

  lemma NamesKept(now: seq<Source>, home: seq<Source>, next: seq<Source>, at: nat, name: string)
    requires |now| <= |home| && home[..|now|] == now && forall j :: |now| <= j < |home| ==> home[j].subvolumes == []
    requires at < |home| && |next| == |home| && forall j :: 0 <= j < |home| && j != at ==> next[j] == home[j]
    requires Resolve(next[at].subvolumes) == Resolve(home[at].subvolumes) + [name]
    ensures forall j: nat, l: nat :: InRange(next, j, l) && !(j == at && l == |home[at].subvolumes|) ==>
              InRange(now, j, l) && NameAt(next, j, l) == NameAt(now, j, l)
    ensures InRange(next, at, |home[at].subvolumes|) && NameAt(next, at, |home[at].subvolumes|) == name
  {
    hide ResolvedName;
    var a, b := Resolve(next[at].subvolumes), Resolve(home[at].subvolumes);
    assert |a| == |next[at].subvolumes| && |b| == |home[at].subvolumes|;
    forall j: nat, l: nat | InRange(next, j, l) && !(j == at && l == |home[at].subvolumes|)
      ensures InRange(now, j, l) && NameAt(next, j, l) == NameAt(now, j, l)
    {
      if j == at {
        assert a[l] == b[l];
      }
      assert InRange(home, j, l) && NameAt(next, j, l) == NameAt(home, j, l);
      assert j < |now| && home[j] == now[j];
    }
    assert a[|b|] == name;
  }

  lemma UnsharedGrows(base: seq<Source>, now: seq<Source>, home: seq<Source>, next: seq<Source>, at: nat, name: string)
    requires Unshared(base, now) && name !in NamesIn(now)
    requires |now| <= |home| && home[..|now|] == now && forall j :: |now| <= j < |home| ==> home[j].subvolumes == []
    requires at < |home| && |next| == |home| && forall j :: 0 <= j < |home| && j != at ==> next[j] == home[j]
    requires Resolve(next[at].subvolumes) == Resolve(home[at].subvolumes) + [name]
    ensures Unshared(base, next)
  {
    hide ResolvedName, NamesIn;
    NamesKept(now, home, next, at, name);
    NamesInHolds(now);
    forall j: nat, l: nat | InRange(now, j, l) ensures NameAt(now, j, l) != name {
      assert Resolve(now[j].subvolumes)[l] in Resolve(now[j].subvolumes);
    }
  }

  lemma AdoptOneUnshared(c: Config, base: seq<Source>, p: Progress, a: Adoption, today: string)
    requires Unshared(base, p.sources) && p.taken == NamesIn(p.sources)
    requires AdoptOne(c, p, a, today).Ok?
    ensures Unshared(base, AdoptOne(c, p, a, today).value.sources)
  {
    hide Unshared, NamesIn, Resolve, NameBase, FirstFree, FirstOn;
    var home := WithHome(c, p.sources, a).value;
    var at := HomeIndex(p.sources, a);
    var name := FirstFree(NameBase(a), p.taken, 1).value;
    FirstFreeFrom(NameBase(a), p.taken, 1);
    var next := Appended(home, at, NewEntry(a, name, today));
    assert next == AdoptOne(c, p, a, today).value.sources;
    assert home[..|p.sources|] == p.sources;
    NamesInHolds(p.sources);
    HomeNames(p.sources, home, at, name);
    AddingFreshNameKeepsNames(home[at].subvolumes, NewEntry(a, name, today));
    UnsharedGrows(base, p.sources, home, next, at, name);
  }

  lemma HomeNames(now: seq<Source>, home: seq<Source>, at: nat, name: string)
    requires |now| <= |home| && home[..|now|] == now && forall j :: |now| <= j < |home| ==> home[j].subvolumes == []
    requires at < |home| && name !in NamesIn(now)
    ensures name !in Resolve(home[at].subvolumes)
  {
    NamesInHolds(now);
    if at < |now| { assert home[at] == now[at]; }
  }

  lemma {:induction false} AdoptAllUnshared(c: Config, base: seq<Source>, p: Progress, done: seq<Adoption>,
                                            adopt: seq<Adoption>, today: string)
    requires UniqueTags(c.sources) && Twins(c.sources, base) && Grown(c, base, p.sources, done, today)
    requires AllAdoptable(c, done + adopt)
    requires p.taken == NamesIn(p.sources) && Unshared(base, p.sources) && AdoptAll(c, p, adopt, today).Ok?
    ensures Unshared(base, AdoptAll(c, p, adopt, today).value.sources)
    decreases |adopt|
  {
    hide Grown, Twins, NamesIn, Adoptable, AdoptOne, Unshared;
    if adopt != [] {
      var a := adopt[0];
      FirstOfAll(c, done, adopt);
      AdoptOneGrows(c, base, p, done, a, today);
      AdoptOneUnshared(c, base, p, a, today);
      AdoptAllUnshared(c, base, AdoptOne(c, p, a, today).value, done + [a], adopt[1..], today);
    }
  }

  lemma NothingUnshared(base: seq<Source>)
    ensures Unshared(base, base)
  {
    hide ResolvedName;
  }

  lemma AppliedUnshared(c: Config, ls: seq<Listing>, p: Plan, today: string)
    requires WellNamed(c) && HoldsBackOnlyRetirements(p, PlanFor(c, ls)) && Applied(c, p, today).Ok?
    ensures Unshared(c.sources, Applied(c, p, today).value.sources)
  {
    hide PlanFor, Stamped, Resolve, NamesIn, AdoptAll, Grown, AllAdoptable, Unshared, Twins, WellNamed, Applied;
    UniqueTagsOf(c);
    StampedStarts(c, ls, p, today);
    var base := Stamped(c, p, today);
    NothingUnshared(base.sources);
    AdoptAllUnshared(c, base.sources, Progress(base.sources, NamesIn(base.sources)), [], p.adopt, today);
    TwinsUnshared(c.sources, base.sources, Applied(c, p, today).value.sources);
  }

  lemma TwinsUnshared(a: seq<Source>, b: seq<Source>, now: seq<Source>)
    requires Twins(a, b) && Unshared(b, now)
    ensures Unshared(a, now)
  {
    hide NameAt;
    assert forall i: nat :: OldLength(a, i) == OldLength(b, i);
  }

  // ---------------------------------------------------------------------
  // One step.

  /** `f` is `e` later on: only `retired` may differ, and an unnamed entry may
      have its derived name written out. */
  predicate KeepsEntry(e: Entry, name: string, f: Entry) {
    f == e.(retired := f.retired, snapshotName := f.snapshotName) &&
    (f.snapshotName == e.snapshotName || (e.snapshotName.None? && f.snapshotName == Some(name)))
  }

  /** Every source and entry of `a` is in `b`, where it was, under the name it had. */
  ghost predicate Continues(a: seq<Source>, b: seq<Source>) {
    |a| <= |b| && (forall i :: 0 <= i < |a| ==> Same(a[i], b[i])) &&
    forall i: nat, k: nat :: InRange(a, i, k) ==>
      InRange(b, i, k) && NameAt(b, i, k) == NameAt(a, i, k) &&
      KeepsEntry(a[i].subvolumes[k], NameAt(a, i, k), b[i].subvolumes[k])
  }

  lemma ContinuesTransitive(a: seq<Source>, b: seq<Source>, c: seq<Source>)
    requires Continues(a, b) && Continues(b, c)
    ensures Continues(a, c)
  {
    hide NameAt;
    forall i: nat, k: nat | InRange(a, i, k)
      ensures InRange(c, i, k) && NameAt(c, i, k) == NameAt(a, i, k) &&
              KeepsEntry(a[i].subvolumes[k], NameAt(a, i, k), c[i].subvolumes[k])
    {
      assert InRange(b, i, k);
    }
    forall i | 0 <= i < |a| ensures Same(a[i], c[i]) {
      assert Same(a[i], b[i]) && Same(b[i], c[i]);
    }
  }

  lemma UnsharedTransitive(a: seq<Source>, b: seq<Source>, c: seq<Source>)
    requires Unshared(a, b) && Unshared(b, c) && Continues(a, b) && Continues(b, c)
    ensures Unshared(a, c)
  {
    hide NameAt, KeepsEntry;
    forall i: nat, k: nat, j: nat, l: nat |
      InRange(c, i, k) && InRange(c, j, l) && OldLength(a, i) <= k && (i != j || k != l)
      ensures NameAt(c, i, k) != NameAt(c, j, l)
    {
      if InRange(b, i, k) && InRange(b, j, l) {
        assert NameAt(c, i, k) == NameAt(b, i, k);
      } else if InRange(b, i, k) {
        assert OldLength(b, j) <= l;
      } else {
        assert OldLength(b, i) <= k;
      }
    }
  }

  ghost predicate TopsNamed(sources: seq<Source>) {
    forall i :: 0 <= i < |sources| ==> TopLevelsNamed(sources[i].subvolumes)
  }

  /** What the program keeps true of the configuration between runs. */
  ghost predicate Kept(c: Config) { WellNamed(c) && TopsNamed(c.sources) }

  /** What a sync against `ls` on `today` may leave of `c`: `c` itself, or the
      plan carried out and saved, retirements perhaps held back. */
  ghost predicate Next(c: Config, d: Config, ls: seq<Listing>, today: string) {
    d == c ||
    exists p :: HoldsBackOnlyRetirements(p, PlanFor(c, ls)) &&
                Applied(c, p, today).Ok? && d == Pinned(Applied(c, p, today).value)
  }

  lemma OutcomeContinues(c: Config, ls: seq<Listing>, p: Plan, today: string, out: Config)
    requires Outcome(c, ls, p, today, out)
    ensures Continues(c.sources, out.sources)
  {
    hide PlanFor, WellNamed, AddsOnlyAdopted, AllDone, UniqueIn, ResolvedName, Stamped;
    OldEntries(c, ls, p, today, out);
    StampedIsTwin(c, p, today);
    forall i: nat, k: nat | InRange(c.sources, i, k)
      ensures InRange(out.sources, i, k) && NameAt(out.sources, i, k) == NameAt(c.sources, i, k)
      ensures KeepsEntry(c.sources[i].subvolumes[k], NameAt(c.sources, i, k), out.sources[i].subvolumes[k])
    {
      assert IsOld(c, i, k);
      StampedNames(c, p, today, i);
      var base := Resolve(Stamped(c, p, today).sources[i].subvolumes);
      var now := Resolve(out.sources[i].subvolumes);
      assert base <= now;
      assert base[k] == now[k];
      assert base[k] == Resolve(c.sources[i].subvolumes)[k];
    }
  }

  lemma OutcomeTopsNamed(c: Config, ls: seq<Listing>, p: Plan, today: string, out: Config)
    requires Outcome(c, ls, p, today, out) && TopsNamed(c.sources)
    ensures TopsNamed(out.sources)
  {
    hide PlanFor, Outcome, LikeFirst, IsCandidate;
    OldEntries(c, ls, p, today, out);
    forall i | 0 <= i < |out.sources| ensures TopLevelsNamed(out.sources[i].subvolumes) {
      forall k | 0 <= k < |out.sources[i].subvolumes| && out.sources[i].subvolumes[k].name == TOP_LEVEL
        ensures out.sources[i].subvolumes[k].snapshotName.Some?
      {
        if IsOld(c, i, k) {
          assert TopLevelsNamed(c.sources[i].subvolumes);
        } else {
          var a := NewEntries(c, ls, p, today, out, i, k);
        }
      }
    }
  }

  lemma PinnedContinues(c: Config)
    requires TopsNamed(c.sources)
    ensures Continues(c.sources, Pinned(c).sources) && TopsNamed(Pinned(c).sources)
    ensures forall i: nat, k: nat :: InRange(Pinned(c).sources, i, k) ==> InRange(c.sources, i, k)
  {
    hide ResolvedName;
    var d := Pinned(c);
    forall i: nat, k: nat | InRange(c.sources, i, k)
      ensures InRange(d.sources, i, k) && NameAt(d.sources, i, k) == NameAt(c.sources, i, k)
      ensures KeepsEntry(c.sources[i].subvolumes[k], NameAt(c.sources, i, k), d.sources[i].subvolumes[k])
    {
      PinningKeepsNames(c.sources[i].subvolumes);
      assert Resolve(d.sources[i].subvolumes)[k] == Resolve(c.sources[i].subvolumes)[k];
    }
  }

  lemma PinnedWellNamed(c: Config)
    requires WellNamed(c)
    ensures WellNamed(Pinned(c))
  {
    hide ResolvedName, IsAdoptionTag;
    var d := Pinned(c);
    assert forall i :: 0 <= i < |c.sources| ==> Same(c.sources[i], d.sources[i]);
    forall i | 0 <= i < |d.sources| ensures UniqueNames(d.sources[i].subvolumes) {
      assert UniqueNames(c.sources[i].subvolumes);
    }
  }

  lemma SameNamesUnshared(a: seq<Source>, now: seq<Source>, next: seq<Source>)
    requires Unshared(a, now) && Continues(now, next)
    requires forall i: nat, k: nat :: InRange(next, i, k) ==> InRange(now, i, k)
    ensures Unshared(a, next)
  {
    hide NameAt, KeepsEntry;
  }

  lemma StepKeeps(c: Config, d: Config, ls: seq<Listing>, today: string)
    requires Kept(c) && Next(c, d, ls, today)
    ensures Kept(d) && Continues(c.sources, d.sources) && Unshared(c.sources, d.sources)
  {
    hide PlanFor, WellNamed, TopsNamed, Applied, Continues, Unshared, Pinned;
    if d == c {
      NothingUnshared(c.sources);
      StaysTheSame(c.sources);
    } else {
      var p :| HoldsBackOnlyRetirements(p, PlanFor(c, ls)) &&
               Applied(c, p, today).Ok? && d == Pinned(Applied(c, p, today).value);
      var out := Applied(c, p, today).value;
      AppliedIsOutcome(c, ls, p, today);
      AppliedUnshared(c, ls, p, today);
      OutcomeContinues(c, ls, p, today, out);
      OutcomeTopsNamed(c, ls, p, today, out);
      PinnedContinues(out);
      PinnedWellNamed(out);
      ContinuesTransitive(c.sources, out.sources, d.sources);
      SameNamesUnshared(c.sources, out.sources, d.sources);
    }
  }

  lemma StaysTheSame(a: seq<Source>)
    ensures Continues(a, a)
  {
    hide NameAt;
  }

  // ---------------------------------------------------------------------
  // Volumes that could not be read.

  /** Carrying a plan out leaves the sources of an unread volume as they were,
      and makes none there. */
  lemma UnreadVolumesUntouched(c: Config, ls: seq<Listing>, p: Plan, today: string, out: Config)
    requires Outcome(c, ls, p, today, out)
    ensures forall i :: 0 <= i < |c.sources| && !Read(ls, c.sources[i].volume) ==> out.sources[i] == c.sources[i]
    ensures forall i :: |c.sources| <= i < |out.sources| ==> Read(ls, out.sources[i].volume)
  {
    hide PlanFor, Outcome, OnDisk, LikeFirst, IsCandidate;
    OldEntries(c, ls, p, today, out);
    forall i | |c.sources| <= i < |out.sources| ensures Read(ls, out.sources[i].volume) {
      var a := NewSources(c, ls, p, today, out, i);
      AdoptionsAreOnReadVolumes(c, ls, a);
    }
    forall i | 0 <= i < |c.sources| && !Read(ls, c.sources[i].volume) ensures out.sources[i] == c.sources[i] {
      UnreadSource(c, ls, p, today, out, i);
    }
  }

  lemma AdoptionsAreOnReadVolumes(c: Config, ls: seq<Listing>, a: Adoption)
    requires a in PlanFor(c, ls).adopt
    ensures Read(ls, a.volume)
  {
    hide PlanFor, OnDisk, Place, SourcesOn, Skipped, Configured;
    PlanAdoptions(c, ls);
    var v :| AdoptionOn(c, ls, v, a);
    var n :| AdoptsIn(c, ls, v, n) && PlaceIn(c, v, n) == Ok(a);
    PlacedName(c, v, SourcesOn(c.sources, v), n);
  }

  lemma UnreadSource(c: Config, ls: seq<Listing>, p: Plan, today: string, out: Config, i: nat)
    requires Outcome(c, ls, p, today, out) && i < |c.sources| && !Read(ls, c.sources[i].volume)
    ensures out.sources[i] == c.sources[i]
  {
    hide PlanFor, OnDisk, Grown, WellNamed, LikeFirst, IsCandidate;
    OldEntries(c, ls, p, today, out);
    var s, t := c.sources[i], out.sources[i];
    assert Same(s, t);
    if |t.subvolumes| > |s.subvolumes| {
      var a := NewEntries(c, ls, p, today, out, i, |s.subvolumes|);
      AdoptionsAreOnReadVolumes(c, ls, a);
      assert false;
    }
    forall k: nat | k < |s.subvolumes| ensures t.subvolumes[k] == s.subvolumes[k] {
      assert IsOld(c, i, k);
      MarkedExactly(c, ls, s, s.subvolumes[k]);
    }
    assert t.subvolumes == s.subvolumes;
  }
}
