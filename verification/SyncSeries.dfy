// Any series of syncs, each on the disk the one before it left
// (indexer/src/adopt.rs).
module SyncSeries {
  import opened Config
  import opened Glob
  import opened Names
  import opened CalDate
  import opened Sync
  import opened SyncFacts
  import opened Apply
  import opened Adopting
  import opened Settled
  import opened Fixpoint
  import opened Validate
  import opened Runs
  import opened PinnedPlans
  import opened Files
  import opened Save
  import opened SyncRun
  import opened SyncFixpoint

  // ---------------------------------------------------------------------
  // One sync.

  /** What one sync makes of the configuration: nothing, or the plan carried
      out, its names written out. */
  ghost predicate SyncedInto(c: Config, d: Config, ls: seq<Listing>, today: string) {
    d == c ||
    (var p := ToApply(PlanFor(c, ls), today);
     Applied(c, p, today).Ok? && Errors(Applied(c, p, today).value) == [] && d == Pinned(Applied(c, p, today).value))
  }

  /** Dry or not, whatever it reads and whichever writes fail. */
  lemma SyncMakes(d: Disk, dryRun: bool, live: bool, ls: seq<Listing>, today: string, f: SyncFaults)
    requires d.config.Loads?
    ensures var e := Synchronised(d, dryRun, live, ls, today, f).disk;
            e.config.Loads? && SyncedInto(d.config.config, e.config.config, ls, today)
  {
    hide PlanFor, UntrustedClock, ToApply, Applied, WrittenConfs, Errors, Pinned;
  }

  /** Where a plan is carried out validly, the configuration it was made for
      named its top levels already. */
  lemma ValidOutcomeNamesTops(c: Config, ls: seq<Listing>, p: Plan, today: string, out: Config)
    requires Settled.Outcome(c, ls, p, today, out) && Errors(out) == []
    ensures TopsNamed(c.sources)
  {
    hide PlanFor, Settled.Outcome, Errors;
    ValidNamesTops(out);
    OldEntries(c, ls, p, today, out);
    forall i, k | 0 <= i < |c.sources| && 0 <= k < |c.sources[i].subvolumes| &&
                  c.sources[i].subvolumes[k].name == TOP_LEVEL
      ensures c.sources[i].subvolumes[k].snapshotName.Some?
    {
      assert IsOld(c, i, k);
      assert TopLevelsNamed(out.sources[i].subvolumes);
      assert out.sources[i].subvolumes[k].name == TOP_LEVEL;
    }
  }

  /** So it is a step of the runs `Runs` is about. */
  lemma SyncIsNext(c: Config, d: Config, ls: seq<Listing>, today: string)
    requires WellNamed(c) && SyncedInto(c, d, ls, today)
    ensures Next(c, d, ls, today)
    ensures d == c || Kept(c)
  {
    hide PlanFor, UntrustedClock, ToApply, Applied, Errors, Pinned, WellNamed, NamesIn, TopsNamed, Settled.Outcome;
    if d != c {
      var p := ToApply(PlanFor(c, ls), today);
      ToApplyHoldsBack(PlanFor(c, ls), today);
      AppliedIsOutcome(c, ls, p, today);
      ValidOutcomeNamesTops(c, ls, p, today, Applied(c, p, today).value);
    }
  }

  lemma SyncKeeps(c: Config, d: Config, ls: seq<Listing>, today: string)
    requires WellNamed(c) && SyncedInto(c, d, ls, today)
    ensures WellNamed(d) && Continues(c.sources, d.sources) && Unshared(c.sources, d.sources)
  {
    hide PlanFor, SyncedInto, Next, WellNamed, Continues, Unshared, NamesIn, TopsNamed;
    SyncIsNext(c, d, ls, today);
    if d == c {
      StaysTheSame(c.sources);
      NothingUnshared(c.sources);
    } else {
      StepKeeps(c, d, ls, today);
    }
  }

  // ---------------------------------------------------------------------
  // Sources of a volume that is not read.

  /** No entry more, every retirement as it was, and at most each entry's own
      resolved name written out. */
  ghost predicate LeftAlone(s: Source, t: Source) {
    Same(s, t) && |t.subvolumes| == |s.subvolumes| &&
    forall k: nat :: k < |s.subvolumes| ==>
      KeepsEntry(s.subvolumes[k], ResolvedName(s.subvolumes, k), t.subvolumes[k]) &&
      t.subvolumes[k].retired == s.subvolumes[k].retired
  }

  lemma AloneAsItself(s: Source)
    ensures LeftAlone(s, s)
  {
    hide ResolvedName;
  }

  lemma AloneThrough(a: seq<Source>, b: seq<Source>, i: nat, t: Source)
    requires i < |a| && i < |b| && Continues(a, b) && LeftAlone(a[i], b[i]) && LeftAlone(b[i], t)
    ensures LeftAlone(a[i], t)
  {
    hide ResolvedName;
    forall k: nat | k < |a[i].subvolumes|
      ensures KeepsEntry(a[i].subvolumes[k], ResolvedName(a[i].subvolumes, k), t.subvolumes[k])
      ensures t.subvolumes[k].retired == a[i].subvolumes[k].retired
    {
      assert InRange(a, i, k);
      assert NameAt(b, i, k) == NameAt(a, i, k);
    }
  }

  lemma PinnedIsAlone(c: Config, i: nat)
    requires i < |c.sources|
    ensures LeftAlone(c.sources[i], Pinned(c).sources[i])
  {
    hide ResolvedName;
  }

  /** One sync leaves the sources of a volume it did not read alone, and makes
      none there. */
  lemma UnreadLeftAlone(c: Config, d: Config, ls: seq<Listing>, today: string)
    requires WellNamed(c) && SyncedInto(c, d, ls, today)
    ensures |c.sources| <= |d.sources|
    ensures forall i :: 0 <= i < |c.sources| && !Read(ls, c.sources[i].volume) ==> LeftAlone(c.sources[i], d.sources[i])
    ensures forall i :: |c.sources| <= i < |d.sources| ==> Read(ls, d.sources[i].volume)
  {
    hide PlanFor, UntrustedClock, ToApply, Applied, Errors, WellNamed, NamesIn, Settled.Outcome, OnDisk, LeftAlone,
         PinnedEntries, Read;
    if d == c {
      forall i | 0 <= i < |c.sources| ensures LeftAlone(c.sources[i], d.sources[i]) { AloneAsItself(c.sources[i]); }
    } else {
      var p := ToApply(PlanFor(c, ls), today);
      var out := Applied(c, p, today).value;
      ToApplyHoldsBack(PlanFor(c, ls), today);
      AppliedIsOutcome(c, ls, p, today);
      UnreadVolumesUntouched(c, ls, p, today, out);
      OldEntries(c, ls, p, today, out);
      forall i | 0 <= i < |out.sources| ensures LeftAlone(out.sources[i], d.sources[i]) { PinnedIsAlone(out, i); }
    }
  }

  // ---------------------------------------------------------------------
  // Any number of syncs.

  datatype Visit = Visit(dryRun: bool, live: bool, listings: seq<Listing>, today: string, faults: SyncFaults)

  ghost function Visited(d: Disk, v: Visit): Disk {
    Synchronised(d, v.dryRun, v.live, v.listings, v.today, v.faults).disk
  }

  /** Each disk is the one before it, synced. */
  ghost predicate Series(ds: seq<Disk>, visits: seq<Visit>) {
    |ds| == |visits| + 1 && forall n :: 0 <= n < |visits| ==> ds[n + 1] == Visited(ds[n], visits[n])
  }

  lemma {:induction false} SeriesContinues(ds: seq<Disk>, visits: seq<Visit>, n: nat)
    requires Series(ds, visits) && n <= |visits|
    requires ds[0].config.Loads? && WellNamed(ds[0].config.config)
    ensures ds[n].config.Loads? && WellNamed(ds[n].config.config)
    ensures Continues(ds[0].config.config.sources, ds[n].config.config.sources)
    ensures Unshared(ds[0].config.config.sources, ds[n].config.config.sources)
    decreases n
  {
    hide Continues, Unshared, WellNamed, PlanFor, NamesIn, Synchronised, SyncedInto;
    if n == 0 {
      StaysTheSame(ds[0].config.config.sources);
      NothingUnshared(ds[0].config.config.sources);
    } else {
      SeriesContinues(ds, visits, n - 1);
      var v := visits[n - 1];
      var a, b, c := ds[0].config.config, ds[n - 1].config.config, Visited(ds[n - 1], v).config;
      assert ds[n] == Visited(ds[n - 1], v);
      SyncMakes(ds[n - 1], v.dryRun, v.live, v.listings, v.today, v.faults);
      SyncKeeps(b, c.config, v.listings, v.today);
      ContinuesTransitive(a.sources, b.sources, c.config.sources);
      UnsharedTransitive(a.sources, b.sources, c.config.sources);
    }
  }

  /** Over any series of syncs, dry or not, whatever the volumes hold, whatever
      the dates and whichever writes fail: `config.toml` still loads; every
      entry stays where it is, with only its retirement changed and at most
      its own name written out; the name btrbk is given for it never changes;
      and an entry adopted on the way shares its name with no other. */
  lemma NoSeriesRenamedOrLost(ds: seq<Disk>, visits: seq<Visit>)
    requires Series(ds, visits)
    requires ds[0].config.Loads? && WellNamed(ds[0].config.config)
    ensures var last := ds[|visits|].config;
            last.Loads? && WellNamed(last.config) &&
            Continues(ds[0].config.config.sources, last.config.sources) &&
            Unshared(ds[0].config.config.sources, last.config.sources)
  {
    hide Continues, Unshared, WellNamed, Series;
    assert |ds| == |visits| + 1 by { SeriesLength(ds, visits); }
    SeriesContinues(ds, visits, |visits|);
  }

  lemma SeriesLength(ds: seq<Disk>, visits: seq<Visit>)
    requires Series(ds, visits)
    ensures |ds| == |visits| + 1
  {
  }

  /** A volume no run of the first `n` read. */
  ghost predicate NeverRead(visits: seq<Visit>, n: nat, volume: string) {
    forall k :: 0 <= k < n && k < |visits| ==> !Read(visits[k].listings, volume)
  }

  /** Over any series of syncs, a source whose volume was never read gains no
      entry, keeps every retirement as it was, and has at most its own names
      written out; and no source is made on such a volume. */
  lemma {:induction false} NeverReadLeftAlone(ds: seq<Disk>, visits: seq<Visit>, n: nat)
    requires Series(ds, visits) && n <= |visits|
    requires ds[0].config.Loads? && WellNamed(ds[0].config.config)
    ensures ds[n].config.Loads?
    ensures var a, b := ds[0].config.config.sources, ds[n].config.config.sources;
            |a| <= |b| &&
            (forall i :: 0 <= i < |a| && NeverRead(visits, n, a[i].volume) ==> LeftAlone(a[i], b[i])) &&
            (forall i :: |a| <= i < |b| ==> !NeverRead(visits, n, b[i].volume))
    decreases n
  {
    hide Continues, WellNamed, PlanFor, NamesIn, Synchronised, SyncedInto, LeftAlone, Read, Unshared;
    SeriesContinues(ds, visits, n);
    if n == 0 {
      var a := ds[0].config.config.sources;
      forall i | 0 <= i < |a| ensures LeftAlone(a[i], a[i]) { AloneAsItself(a[i]); }
    } else {
      NeverReadLeftAlone(ds, visits, n - 1);
      SeriesContinues(ds, visits, n - 1);
      var v := visits[n - 1];
      var a, b := ds[0].config.config.sources, ds[n - 1].config.config.sources;
      assert ds[n] == Visited(ds[n - 1], v);
      SyncMakes(ds[n - 1], v.dryRun, v.live, v.listings, v.today, v.faults);
      OneMoreVisit(a, ds[n - 1].config.config, ds[n].config.config, visits, n);
    }
  }

  lemma OneMoreVisit(a: seq<Source>, b: Config, c: Config, visits: seq<Visit>, n: nat)
    requires 0 < n <= |visits| && WellNamed(b)
    requires SyncedInto(b, c, visits[n - 1].listings, visits[n - 1].today)
    requires Continues(a, b.sources) && |a| <= |b.sources|
    requires forall i :: 0 <= i < |a| && NeverRead(visits, n - 1, a[i].volume) ==> LeftAlone(a[i], b.sources[i])
    requires forall i :: |a| <= i < |b.sources| ==> !NeverRead(visits, n - 1, b.sources[i].volume)
    ensures |a| <= |c.sources|
    ensures forall i :: 0 <= i < |a| && NeverRead(visits, n, a[i].volume) ==> LeftAlone(a[i], c.sources[i])
    ensures forall i :: |a| <= i < |c.sources| ==> !NeverRead(visits, n, c.sources[i].volume)
  {
    hide WellNamed, PlanFor, NamesIn, SyncedInto, LeftAlone, Read, Unshared, NameAt, KeepsEntry;
    var ls := visits[n - 1].listings;
    UnreadLeftAlone(b, c, ls, visits[n - 1].today);
    SyncKeeps(b, c, ls, visits[n - 1].today);
    forall i | 0 <= i < |a| && NeverRead(visits, n, a[i].volume) ensures LeftAlone(a[i], c.sources[i]) {
      assert Same(a[i], b.sources[i]) && !Read(ls, a[i].volume);
      AloneThrough(a, b.sources, i, c.sources[i]);
    }
    forall i | |a| <= i < |c.sources| ensures !NeverRead(visits, n, c.sources[i].volume) {
      if i < |b.sources| { assert Same(b.sources[i], c.sources[i]); }
    }
  }
}
