// What a plan holds, item by item: each list of `PlanFor` described by the
// entries and subvolumes it comes from, without the order of the loops.
module SyncFacts {
  import opened Base
  import opened Config
  import opened Sync

  ghost predicate Read(listings: seq<Listing>, volume: string) { OnDisk(listings, volume).Ok? }

  ghost function Found(listings: seq<Listing>, volume: string): seq<string> {
    match OnDisk(listings, volume) case Ok(found) => found case Err(_) => []
  }

  ghost predicate Has(c: Config, s: Source, e: Entry) { s in c.sources && e in s.subvolumes }

  ghost predicate RetiresIn(c: Config, ls: seq<Listing>, s: Source, e: Entry) {
    Has(c, s, e) && Read(ls, s.volume) && Retires(c, Found(ls, s.volume), s, e)
  }

  ghost predicate RevivesIn(c: Config, ls: seq<Listing>, s: Source, e: Entry) {
    Has(c, s, e) && Read(ls, s.volume) && Revives(c, Found(ls, s.volume), s, e)
  }

  ghost predicate RefusedIn(c: Config, ls: seq<Listing>, s: Source, e: Entry) {
    Has(c, s, e) && Read(ls, s.volume) && RefusedTop(c, s, e)
  }

  /** `name` is on a volume of the configuration and no entry there names it. */
  ghost predicate UnknownIn(c: Config, ls: seq<Listing>, volume: string, name: string) {
    SourcesOn(c.sources, volume) != [] && Read(ls, volume) && name in Found(ls, volume) &&
    !Configured(SourcesOn(c.sources, volume), name)
  }

  ghost function PlaceIn(c: Config, volume: string, name: string): Result<Adoption, Why>
    requires SourcesOn(c.sources, volume) != []
  {
    Place(c, volume, SourcesOn(c.sources, volume), name)
  }

  ghost predicate AdoptsIn(c: Config, ls: seq<Listing>, volume: string, name: string) {
    UnknownIn(c, ls, volume, name) && !Skipped(c, name) && PlaceIn(c, volume, name).Ok?
  }

  // ---------------------------------------------------------------------

  lemma {:induction false} PairsOfParts(s: Source, a: seq<Entry>, b: seq<Entry>)
    ensures PairsOf(s, a + b) == PairsOf(s, a) + PairsOf(s, b)
  {
    if a == [] {
      assert a + b == b;
    } else {
      PairsOfParts(s, a[1..], b);
      assert (a + b)[1..] == a[1..] + b;
    }
  }

  lemma {:induction false} PairsParts(a: seq<Source>, b: seq<Source>)
    ensures Pairs(a + b) == Pairs(a) + Pairs(b)
  {
    if a == [] {
      assert a + b == b;
    } else {
      PairsParts(a[1..], b);
      assert (a + b)[1..] == a[1..] + b && (a + b)[0] == a[0];
      var x, y, z := PairsOf(a[0], a[0].subvolumes), Pairs(a[1..]), Pairs(b);
      assert x + (y + z) == (x + y) + z;
    }
  }

  lemma {:induction false} PairsOfHold(source: Source, entries: seq<Entry>)
    ensures forall s, e :: (s, e) in PairsOf(source, entries) <==> s == source && e in entries
  {
    if entries != [] {
      PairsOfHold(source, entries[1..]);
      assert entries == [entries[0]] + entries[1..];
    }
  }

  lemma {:induction false} PairsHold(sources: seq<Source>)
    ensures forall s, e :: (s, e) in Pairs(sources) <==> s in sources && e in s.subvolumes
  {
    if sources != [] {
      PairsHold(sources[1..]);
      PairsOfHold(sources[0], sources[0].subvolumes);
      assert sources == [sources[0]] + sources[1..];
    }
  }

  lemma {:induction false} KnownPlanLists(c: Config, volume: string, found: seq<string>, pairs: seq<(Source, Entry)>)
    ensures var p := KnownPlan(c, volume, found, pairs);
            p.adopt == [] && p.skipped == [] && p.failed == []
    ensures forall r :: r in KnownPlan(c, volume, found, pairs).retire <==>
              exists s, e :: (s, e) in pairs && Retires(c, found, s, e) && r == RefOf(s, e)
    ensures forall r :: r in KnownPlan(c, volume, found, pairs).revive <==>
              exists s, e :: (s, e) in pairs && Revives(c, found, s, e) && r == RefOf(s, e)
    ensures forall u :: u in KnownPlan(c, volume, found, pairs).unplaceable <==>
              exists s, e :: (s, e) in pairs && RefusedTop(c, s, e) && u == RefusalOf(c, volume, s, e)
  {
    hide RefusedTop, Present;
    if pairs != [] {
      KnownPlanLists(c, volume, found, pairs[1..]);
      assert pairs == [pairs[0]] + pairs[1..];
      assert pairs[0] == (pairs[0].0, pairs[0].1);
    }
  }

  ghost function RefusalOf(c: Config, volume: string, s: Source, e: Entry): Unplaceable {
    var state := match e.retired case None => RetiredNow case Some(date) => RetiredOn(date);
    Unplaceable(volume, e.name, ReachesMirrors(state, s.tag, MirrorsReached(c, s)))
  }

  lemma {:induction false} UnknownPlanLists(c: Config, volume: string, sources: seq<Source>, names: seq<string>)
    requires sources != []
    ensures var p := UnknownPlan(c, volume, sources, names);
            p.retire == [] && p.revive == [] && p.failed == []
    ensures forall a :: a in UnknownPlan(c, volume, sources, names).adopt <==>
              exists n :: n in names && !Skipped(c, n) && Place(c, volume, sources, n) == Ok(a)
    ensures forall u :: u in UnknownPlan(c, volume, sources, names).unplaceable <==>
              exists n :: n in names && !Skipped(c, n) && Place(c, volume, sources, n).Err? &&
                          u == Unplaceable(volume, n, Place(c, volume, sources, n).error)
    ensures forall k :: k in UnknownPlan(c, volume, sources, names).skipped <==>
              exists n :: n in names && Skipped(c, n) && k == SkipFor(c, volume, n)
  {
    hide Place, Skipped, SkipFor;
    if names != [] {
      UnknownPlanLists(c, volume, sources, names[1..]);
      assert names == [names[0]] + names[1..];
    }
  }

  lemma {:induction false} NotConfiguredHolds(found: seq<string>, sources: seq<Source>)
    ensures forall n :: n in NotConfigured(found, sources) <==> n in found && !Configured(sources, n)
  {
    if found != [] {
      NotConfiguredHolds(found[1..], sources);
      assert found == [found[0]] + found[1..];
    }
  }

  lemma UnknownHolds(found: seq<string>, sources: seq<Source>)
    ensures Ascending(Unknown(found, sources))
    ensures forall n :: n in Unknown(found, sources) <==> n in found && !Configured(sources, n)
  {
    NotConfiguredHolds(found, sources);
    SortedMeans(NotConfigured(found, sources));
  }

  // ---------------------------------------------------------------------

  ghost predicate RetireRefOn(c: Config, ls: seq<Listing>, v: string, r: EntryRef) {
    exists s, e :: RetiresIn(c, ls, s, e) && s.volume == v && r == RefOf(s, e)
  }

  ghost predicate ReviveRefOn(c: Config, ls: seq<Listing>, v: string, r: EntryRef) {
    exists s, e :: RevivesIn(c, ls, s, e) && s.volume == v && r == RefOf(s, e)
  }

  ghost predicate AdoptionOn(c: Config, ls: seq<Listing>, v: string, a: Adoption) {
    exists n :: AdoptsIn(c, ls, v, n) && PlaceIn(c, v, n) == Ok(a)
  }

  ghost predicate RefusalOn(c: Config, ls: seq<Listing>, v: string, u: Unplaceable) {
    (exists s, e :: RefusedIn(c, ls, s, e) && s.volume == v && u == RefusalOf(c, v, s, e)) ||
    (exists n :: UnknownIn(c, ls, v, n) && !Skipped(c, n) && PlaceIn(c, v, n).Err? &&
                 u == Unplaceable(v, n, PlaceIn(c, v, n).error))
  }

  ghost predicate SkipOn(c: Config, ls: seq<Listing>, v: string, k: Skip) {
    exists n :: UnknownIn(c, ls, v, n) && Skipped(c, n) && k == SkipFor(c, v, n)
  }

  lemma PairsOnVolume(c: Config, v: string)
    ensures forall s, e :: (s, e) in Pairs(SourcesOn(c.sources, v)) <==> Has(c, s, e) && s.volume == v
  {
    PairsHold(SourcesOn(c.sources, v));
    SourcesOnHolds(c.sources, v);
  }

  lemma VolumePlanKnown(c: Config, ls: seq<Listing>, v: string)
    ensures forall r :: r in VolumePlan(c, ls, v).retire <==> RetireRefOn(c, ls, v, r)
    ensures forall r :: r in VolumePlan(c, ls, v).revive <==> ReviveRefOn(c, ls, v, r)
  {
    hide Retires, Revives, RefOf, RefusedTop, KnownPlan, UnknownPlan, Pairs, SourcesOn, OnDisk, Unknown;
    var sources := SourcesOn(c.sources, v);
    PairsOnVolume(c, v);
    SourcesOnHolds(c.sources, v);
    if sources != [] && Read(ls, v) {
      var found := Found(ls, v);
      KnownPlanLists(c, v, found, Pairs(sources));
      UnknownPlanLists(c, v, sources, Unknown(found, sources));
    }
  }

  lemma VolumePlanUnknown(c: Config, ls: seq<Listing>, v: string)
    ensures forall a :: a in VolumePlan(c, ls, v).adopt <==> AdoptionOn(c, ls, v, a)
    ensures forall k :: k in VolumePlan(c, ls, v).skipped <==> SkipOn(c, ls, v, k)
  {
    hide Place, Skipped, SkipFor, KnownPlan, UnknownPlan, Pairs, SourcesOn, OnDisk, Unknown, Configured;
    var sources := SourcesOn(c.sources, v);
    if sources != [] && Read(ls, v) {
      var found := Found(ls, v);
      KnownPlanLists(c, v, found, Pairs(sources));
      UnknownPlanLists(c, v, sources, Unknown(found, sources));
      UnknownHolds(found, sources);
      forall a | a in VolumePlan(c, ls, v).adopt ensures AdoptionOn(c, ls, v, a) {
        var n :| n in Unknown(found, sources) && !Skipped(c, n) && Place(c, v, sources, n) == Ok(a);
        assert AdoptsIn(c, ls, v, n);
      }
    }
  }

  lemma VolumePlanRefusals(c: Config, ls: seq<Listing>, v: string)
    ensures forall u :: u in VolumePlan(c, ls, v).unplaceable <==> RefusalOn(c, ls, v, u)
  {
    hide Place, Skipped, RefusedTop, RefusalOf, KnownPlan, UnknownPlan, Pairs, SourcesOn, OnDisk, Unknown, Configured;
    var sources := SourcesOn(c.sources, v);
    PairsOnVolume(c, v);
    SourcesOnHolds(c.sources, v);
    if sources != [] && Read(ls, v) {
      var found := Found(ls, v);
      KnownPlanLists(c, v, found, Pairs(sources));
      UnknownPlanLists(c, v, sources, Unknown(found, sources));
      UnknownHolds(found, sources);
    }
  }

  lemma {:induction false} VolumesPlanLists(c: Config, ls: seq<Listing>, vs: seq<string>)
    ensures forall r :: r in VolumesPlan(c, ls, vs).retire <==> exists v :: v in vs && RetireRefOn(c, ls, v, r)
    ensures forall r :: r in VolumesPlan(c, ls, vs).revive <==> exists v :: v in vs && ReviveRefOn(c, ls, v, r)
    ensures forall a :: a in VolumesPlan(c, ls, vs).adopt <==> exists v :: v in vs && AdoptionOn(c, ls, v, a)
    ensures forall k :: k in VolumesPlan(c, ls, vs).skipped <==> exists v :: v in vs && SkipOn(c, ls, v, k)
    ensures forall u :: u in VolumesPlan(c, ls, vs).unplaceable <==> exists v :: v in vs && RefusalOn(c, ls, v, u)
  {
    hide VolumePlan, RetireRefOn, ReviveRefOn, AdoptionOn, SkipOn, RefusalOn;
    if vs != [] {
      VolumesPlanLists(c, ls, vs[1..]);
      VolumePlanKnown(c, ls, vs[0]);
      VolumePlanUnknown(c, ls, vs[0]);
      VolumePlanRefusals(c, ls, vs[0]);
      assert vs == [vs[0]] + vs[1..];
    }
  }

  /** The retire and revive lists are exactly the entries that call for it. */
  lemma PlanMarks(c: Config, ls: seq<Listing>)
    ensures forall r :: r in PlanFor(c, ls).retire <==> exists s, e :: RetiresIn(c, ls, s, e) && r == RefOf(s, e)
    ensures forall r :: r in PlanFor(c, ls).revive <==> exists s, e :: RevivesIn(c, ls, s, e) && r == RefOf(s, e)
  {
    hide Retires, Revives, RefOf;
    VolumesPlanLists(c, ls, Volumes(c));
    forall s, e | Has(c, s, e) ensures s.volume in Volumes(c) {
      VolumesFromHolds([], c.sources);
    }
  }

  /** The adoptions are exactly the unknown, unexcluded names that have a
      place, each where its place is. */
  lemma PlanAdoptions(c: Config, ls: seq<Listing>)
    ensures forall a :: a in PlanFor(c, ls).adopt <==> exists v :: AdoptionOn(c, ls, v, a)
  {
    VolumesPlanLists(c, ls, Volumes(c));
    forall v, a | AdoptionOn(c, ls, v, a) ensures v in Volumes(c) {
      VolumeHasSources(c, v);
    }
  }

  lemma PlanRefusals(c: Config, ls: seq<Listing>)
    ensures forall u :: u in PlanFor(c, ls).unplaceable <==> exists v :: RefusalOn(c, ls, v, u)
  {
    hide RefusalOf, RefusedTop;
    VolumesPlanLists(c, ls, Volumes(c));
    forall v, u | RefusalOn(c, ls, v, u) ensures v in Volumes(c) {
      VolumeHasSources(c, v);
      SourcesOnHolds(c.sources, v);
    }
  }

  lemma PlanSkips(c: Config, ls: seq<Listing>)
    ensures forall k :: k in PlanFor(c, ls).skipped <==> exists v :: SkipOn(c, ls, v, k)
  {
    VolumesPlanLists(c, ls, Volumes(c));
    forall v, k | SkipOn(c, ls, v, k) ensures v in Volumes(c) {
      VolumeHasSources(c, v);
    }
  }
}
