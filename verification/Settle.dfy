// One round settles: `apply_plan` carries out any plan `plan_sync` makes, and
// planning the result against the same listings asks for nothing more
// (indexer/src/adopt.rs).
module Settle {
  import opened Base
  import opened Config
  import opened Glob
  import opened Names
  import opened Sync
  import opened SyncFacts
  import opened Apply
  import opened Marking
  import opened Adopting

  // ---------------------------------------------------------------------
  // Plans can be carried out.

  /** The ancestor chosen is live, above the name, and the nearest. */
  lemma {:induction false} AncestorMeans(pairs: seq<(Source, Entry)>, name: string)
    ensures match Ancestor(pairs, name)
            case Some(p) =>
              p in pairs && p.1.Live() && NestedUnder(name, p.1.name) &&
              forall s, e :: (s, e) in pairs && e.Live() && NestedUnder(name, e.name) ==> |e.name| <= |p.1.name|
            case None => forall s, e :: (s, e) in pairs && e.Live() ==> !NestedUnder(name, e.name)
  {
    if pairs != [] {
      var last := pairs[|pairs| - 1];
      AncestorMeans(pairs[..|pairs| - 1], name);
      assert pairs == pairs[..|pairs| - 1] + [last];
    }
  }

  lemma {:induction false} AdoptionTagMeans(sources: seq<Source>, volume: string)
    ensures match AdoptionTag(sources, volume)
            case Some(tag) =>
              exists i :: 0 <= i < |sources| && !IsAdoptionTag(sources[i].tag) && sources[i].volume == volume &&
                          tag == sources[i].tag + ADOPTED_SUFFIX
            case None =>
              forall i :: 0 <= i < |sources| && sources[i].volume == volume ==> IsAdoptionTag(sources[i].tag)
  {
    if sources != [] && !(sources[0].volume == volume && !IsAdoptionTag(sources[0].tag)) {
      AdoptionTagMeans(sources[1..], volume);
      match AdoptionTag(sources[1..], volume) {
        case Some(tag) =>
          var i :| 0 <= i < |sources[1..]| && !IsAdoptionTag(sources[1..][i].tag) &&
                   sources[1..][i].volume == volume && tag == sources[1..][i].tag + ADOPTED_SUFFIX;
          assert sources[i + 1] == sources[1..][i];
        case None =>
          forall i | 0 <= i < |sources| && sources[i].volume == volume ensures IsAdoptionTag(sources[i].tag) {
            if i > 0 { assert sources[1..][i - 1] == sources[i]; }
          }
      }
    }
  }

  lemma OldHomeIs(c: Config, a: Adoption, s: Source)
    requires s in c.sources && s.tag == a.sourceTag && s.volume == a.volume
    ensures OldHome(c, a)
  {
    var i :| 0 <= i < |c.sources| && c.sources[i] == s;
  }

  lemma HomeOfPlaced(c: Config, v: string, name: string, a: Adoption)
    requires WellNamed(c) && SourcesOn(c.sources, v) != []
    requires PlaceIn(c, v, name) == Ok(a)
    ensures a.volume == v && a.name == name && (OldHome(c, a) || NewHome(c, a))
  {
    hide SourcesOn, Pairs, UniqueNames, MirrorsReached, FindSource, Ancestor;
    var sources := SourcesOn(c.sources, v);
    SourcesOnHolds(c.sources, v);
    AncestorMeans(Pairs(sources), name);
    PairsHold(sources);
    match Ancestor(Pairs(sources), name) {
      case Some((s, e)) =>
        assert (s, e) in Pairs(sources);
        OldHomeIs(c, a, s);
      case None =>
        AdoptionTagMeans(c.sources, v);
        if AdoptionTag(c.sources, v).None? {
          assert sources[0] in sources;
          OldHomeIs(c, a, sources[0]);
        } else if HasTag(c.sources, a.sourceTag) {
          var j :| 0 <= j < |c.sources| && c.sources[j].tag == a.sourceTag;
          OldHomeIs(c, a, c.sources[j]);
        }
    }
  }

  lemma PlacedName(c: Config, v: string, sources: seq<Source>, name: string)
    requires sources != []
    ensures Place(c, v, sources, name).Ok? ==>
            Place(c, v, sources, name).value.volume == v && Place(c, v, sources, name).value.name == name
  {
    hide Ancestor, Pairs, HomeTag, FindSource, MirrorsReached, HasPrimary, ScopeOf;
  }

  ghost predicate AllDiffer(adopt: seq<Adoption>) {
    forall i, j :: 0 <= i < j < |adopt| ==> Differ(adopt[i], adopt[j])
  }

  lemma DifferTogether(a: seq<Adoption>, b: seq<Adoption>)
    requires AllDiffer(a) && AllDiffer(b)
    requires forall x, y :: x in a && y in b ==> Differ(x, y)
    ensures AllDiffer(a + b)
  {
    var all := a + b;
    forall i, j | 0 <= i < j < |all| ensures Differ(all[i], all[j]) {
      if i < |a| <= j {
        assert all[i] == a[i] && all[j] == b[j - |a|];
        assert a[i] in a && b[j - |a|] in b;
      } else if |a| <= i {
        assert all[i] == b[i - |a|] && all[j] == b[j - |a|];
      }
    }
  }

  lemma {:induction false} NamesDiffer(c: Config, v: string, sources: seq<Source>, names: seq<string>)
    requires sources != [] && Ascending(names)
    ensures forall a :: a in UnknownPlan(c, v, sources, names).adopt ==> a.volume == v && a.name in names
    ensures AllDiffer(UnknownPlan(c, v, sources, names).adopt)
  {
    hide Skipped, Place, SkipFor, Ascending;
    if names != [] {
      AscendingTail(names);
      NamesDiffer(c, v, sources, names[1..]);
      PlacedName(c, v, sources, names[0]);
      assert names == [names[0]] + names[1..];
      DifferTogether(NameStep(c, v, sources, names[0]).adopt, UnknownPlan(c, v, sources, names[1..]).adopt);
    }
  }

  lemma AscendingTail(names: seq<string>)
    requires names != [] && Ascending(names)
    ensures Ascending(names[1..]) && names[0] !in names[1..]
  {
    AscendingDistinct(names);
  }

  lemma VolumeAdoptsThere(c: Config, ls: seq<Listing>, v: string)
    ensures forall a :: a in VolumePlan(c, ls, v).adopt ==> a.volume == v
    ensures AllDiffer(VolumePlan(c, ls, v).adopt)
  {
    hide UnknownPlan, KnownPlan, Unknown, SourcesOn, Pairs, OnDisk, AllDiffer;
    assert AllDiffer([]) by { NoneDiffer(); }
    var sources := SourcesOn(c.sources, v);
    if sources != [] && Read(ls, v) {
      var found := Found(ls, v);
      UnknownHolds(found, sources);
      NamesDiffer(c, v, sources, Unknown(found, sources));
      KnownPlanLists(c, v, found, Pairs(sources));
      assert VolumePlan(c, ls, v).adopt == UnknownPlan(c, v, sources, Unknown(found, sources)).adopt;
    }
  }

  lemma NoneDiffer()
    ensures AllDiffer([])
  {
  }

  lemma {:induction false} VolumesAdoptDiffer(c: Config, ls: seq<Listing>, vs: seq<string>)
    requires Distinct(vs)
    ensures forall a :: a in VolumesPlan(c, ls, vs).adopt ==> a.volume in vs
    ensures AllDiffer(VolumesPlan(c, ls, vs).adopt)
  {
    hide VolumePlan;
    if vs != [] {
      VolumesAdoptDiffer(c, ls, vs[1..]);
      VolumeAdoptsThere(c, ls, vs[0]);
      assert vs == [vs[0]] + vs[1..];
      DifferTogether(VolumePlan(c, ls, vs[0]).adopt, VolumesPlan(c, ls, vs[1..]).adopt);
    }
  }

  /** Every adoption the planner asks for has a home, there or to be made, on
      its volume; its name is new there; and no two ask for the same. */
  lemma AdoptionsFit(c: Config, ls: seq<Listing>)
    requires WellNamed(c)
    ensures AllAdoptable(c, PlanFor(c, ls).adopt)
  {
    hide PlanFor, WellNamed, SourcesOn, Configured, PlaceIn;
    var adopt := PlanFor(c, ls).adopt;
    PlanAdoptions(c, ls);
    forall i | 0 <= i < |adopt| ensures Adoptable(c, adopt[i]) {
      assert adopt[i] in adopt;
      var v :| AdoptionOn(c, ls, v, adopt[i]);
      var n :| AdoptsIn(c, ls, v, n) && PlaceIn(c, v, n) == Ok(adopt[i]);
      HomeOfPlaced(c, v, n, adopt[i]);
    }
    PlanAdoptsDiffer(c, ls);
  }

  lemma PlanAdoptsDiffer(c: Config, ls: seq<Listing>)
    ensures AllDiffer(PlanFor(c, ls).adopt)
  {
    hide VolumesPlan, AllDiffer;
    VolumesFromDistinct([], c.sources);
    VolumesAdoptDiffer(c, ls, Volumes(c));
  }

  // ---------------------------------------------------------------------
  // What carrying out a plan leaves.

  /** `p` asks for all `plan` asks for, but may hold retirements back. */
  ghost predicate HoldsBackOnlyRetirements(p: Plan, plan: Plan) {
    p.adopt == plan.adopt && p.revive == plan.revive && forall r :: r in p.retire ==> r in plan.retire
  }

  /** The configuration with `p`'s retirements and revivals stamped. */
  function Stamped(c: Config, p: Plan, today: string): Config {
    Marked(Marked(c, p.retire, Some(today)), p.revive, None)
  }

  lemma StampedIsTwin(c: Config, p: Plan, today: string)
    ensures Twins(c.sources, Stamped(c, p, today).sources)
    ensures Stamped(c, p, today) == c.(sources := Stamped(c, p, today).sources)
  {
  }

  lemma StampedNames(c: Config, p: Plan, today: string, i: nat)
    requires i < |c.sources|
    ensures Resolve(Stamped(c, p, today).sources[i].subvolumes) == Resolve(c.sources[i].subvolumes)
  {
    var a, b := c.sources[i].subvolumes, Stamped(c, p, today).sources[i].subvolumes;
    assert BaseNames(a) == BaseNames(b);
  }

  lemma SameNamesTaken(c: Config, p: Plan, today: string)
    ensures NamesIn(Stamped(c, p, today).sources) == NamesIn(c.sources)
  {
    hide Stamped, Resolve, NamesIn;
    var s := Stamped(c, p, today).sources;
    StampedIsTwin(c, p, today);
    NamesInHolds(c.sources);
    NamesInHolds(s);
    forall i | 0 <= i < |s| ensures Resolve(s[i].subvolumes) == Resolve(c.sources[i].subvolumes) {
      StampedNames(c, p, today, i);
    }
  }

  lemma RefsExist(c: Config, ls: seq<Listing>)
    ensures forall r :: r in PlanFor(c, ls).retire ==> exists i: nat, k: nat :: Marking.Names(c, r, i, k)
    ensures forall r :: r in PlanFor(c, ls).revive ==> exists i: nat, k: nat :: Marking.Names(c, r, i, k)
  {
    hide PlanFor, Retires, Revives, OnDisk;
    PlanMarks(c, ls);
    forall s, e | Has(c, s, e) ensures exists i: nat, k: nat :: Marking.Names(c, RefOf(s, e), i, k) {
      var i :| 0 <= i < |c.sources| && c.sources[i] == s;
      var k :| 0 <= k < |s.subvolumes| && s.subvolumes[k] == e;
      assert Marking.Names(c, RefOf(s, e), i, k);
    }
  }

  /** With both kinds of marks stamped, what is left of `apply_plan` is its
      loop over the adoptions. */
  function AdoptedOnto(c: Config, base: Config, adopt: seq<Adoption>, today: string): Result<Config, ApplyError> {
    match AdoptAll(c, Progress(base.sources, NamesIn(base.sources)), adopt, today)
    case Err(e) => Err(e)
    case Ok(q) => Ok(base.(sources := q.sources))
  }

  ghost predicate MarksOf(p: Plan, plan: Plan) {
    p.revive == plan.revive && forall r :: r in p.retire ==> r in plan.retire
  }

  lemma AppliedIsAdopting(c: Config, ls: seq<Listing>, p: Plan, today: string)
    requires UniqueIn(c.sources) && MarksOf(p, PlanFor(c, ls))
    ensures Applied(c, p, today) == AdoptedOnto(c, Stamped(c, p, today), p.adopt, today)
  {
    hide PlanFor, Marked, NamesIn, AdoptAll, MarkAll;
    RefsExist(c, ls);
    MarkAllMarks(c, p.retire, Some(today));
    var retired := Marked(c, p.retire, Some(today));
    MarkingKeepsIdentity(c, p.retire, Some(today));
    forall r | r in p.revive ensures exists i: nat, k: nat :: Marking.Names(retired, r, i, k) {
      var i: nat, k: nat :| Marking.Names(c, r, i, k);
      assert Marking.Names(retired, r, i, k);
    }
    MarkAllMarks(retired, p.revive, None);
  }

  /** What the loop over the adoptions starts from. */
  lemma StampedStarts(c: Config, ls: seq<Listing>, p: Plan, today: string)
    requires WellNamed(c) && HoldsBackOnlyRetirements(p, PlanFor(c, ls))
    ensures var base := Stamped(c, p, today);
            Twins(c.sources, base.sources) && Grown(c, base.sources, base.sources, [], today) &&
            NamesIn(base.sources) == NamesIn(c.sources) && base == c.(sources := base.sources)
    ensures AllAdoptable(c, [] + p.adopt) && [] + p.adopt == p.adopt
    ensures Applied(c, p, today) == AdoptedOnto(c, Stamped(c, p, today), p.adopt, today)
  {
    hide PlanFor, Marked, Resolve, NamesIn, Grown, AllAdoptable, Applied, AdoptedOnto;
    AppliedIsAdopting(c, ls, p, today);
    MarkingKeepsIdentity(c, p.retire, Some(today));
    MarkingKeepsIdentity(Marked(c, p.retire, Some(today)), p.revive, None);
    StampedIsTwin(c, p, today);
    SameNamesTaken(c, p, today);
    AdoptionsFit(c, ls);
    NothingGrown(c, Stamped(c, p, today).sources, today);
    assert [] + p.adopt == p.adopt;
  }

  /** The names the carried-out plan needs are there to be had. */
  ghost predicate RoomForNames(c: Config, adopt: seq<Adoption>) { |NamesIn(c.sources)| + |adopt| <= 65535 }

  /** A plan the planner made is carried out whole or not at all, and with
      names to spare it is. */
  lemma PlanIsCarriedOut(c: Config, ls: seq<Listing>, p: Plan, today: string)
    requires WellNamed(c) && HoldsBackOnlyRetirements(p, PlanFor(c, ls))
    ensures RoomForNames(c, p.adopt) ==> Applied(c, p, today).Ok?
    ensures Applied(c, p, today).Ok? ==>
              var out := Applied(c, p, today).value;
              out == c.(sources := out.sources) &&
              Grown(c, Stamped(c, p, today).sources, out.sources, p.adopt, today)
  {
    hide PlanFor, Stamped, NamesIn, AdoptAll, Grown, AllAdoptable, Twins, WellNamed, Applied;
    UniqueTagsOf(c);
    StampedStarts(c, ls, p, today);
    var base := Stamped(c, p, today);
    AdoptAllGrows(c, base.sources, Progress(base.sources, NamesIn(base.sources)), [], p.adopt, today);
  }

  lemma UniqueTagsOf(c: Config)
    requires WellNamed(c)
    ensures UniqueTags(c.sources)
  {
  }

  /** No name is left for the `k`th adoption of `p` once those before it are
      carried out. */
  ghost predicate OutOfNames(c: Config, p: Plan, today: string, k: nat) {
    k < |p.adopt| && Applied(c, p.(adopt := p.adopt[..k]), today).Ok? &&
    NoNameLeft(NameBase(p.adopt[k]), NamesIn(Applied(c, p.(adopt := p.adopt[..k]), today).value.sources))
  }

  lemma FirstAdoptions(c: Config, ls: seq<Listing>, p: Plan, today: string, k: nat)
    requires WellNamed(c) && HoldsBackOnlyRetirements(p, PlanFor(c, ls)) && k <= |p.adopt|
    ensures var base := Stamped(c, p, today);
            var q := AdoptAll(c, Progress(base.sources, NamesIn(base.sources)), p.adopt[..k], today);
            var first := Applied(c, p.(adopt := p.adopt[..k]), today);
            (q.Ok? <==> first.Ok?) && (q.Ok? ==> NamesIn(first.value.sources) == q.value.taken)
  {
    hide PlanFor, Marked, NamesIn, AdoptAll, Grown, Twins, WellNamed, Applied, Adoptable;
    UniqueTagsOf(c);
    StampedStarts(c, ls, p, today);
    var first := p.(adopt := p.adopt[..k]);
    var base := Stamped(c, p, today);
    UniqueInOf(c);
    AppliedIsAdopting(c, ls, first, today);
    assert Stamped(c, first, today) == base;
    assert [] + p.adopt[..k] == p.adopt[..k];
    AdoptAllGrows(c, base.sources, Progress(base.sources, NamesIn(base.sources)), [], p.adopt[..k], today);
  }

  lemma UniqueInOf(c: Config)
    requires WellNamed(c)
    ensures UniqueIn(c.sources)
  {
  }

  /** Exactly when it is not carried out: at one of its adoptions all 65,535
      candidates for a name are taken; and the error names their base. */
  lemma NotCarriedOutExactly(c: Config, ls: seq<Listing>, p: Plan, today: string)
    requires WellNamed(c) && HoldsBackOnlyRetirements(p, PlanFor(c, ls))
    ensures Applied(c, p, today).Err? <==> exists k: nat :: OutOfNames(c, p, today, k)
    ensures Applied(c, p, today).Err? ==>
              exists k: nat :: OutOfNames(c, p, today, k) &&
                               Applied(c, p, today).error == NamesExhausted(NameBase(p.adopt[k]))
  {
    hide PlanFor, Stamped, NamesIn, AdoptAll, Grown, AllAdoptable, Twins, WellNamed, Applied, NoNameLeft, NameBase;
    UniqueTagsOf(c);
    StampedStarts(c, ls, p, today);
    var base := Stamped(c, p, today);
    var start := Progress(base.sources, NamesIn(base.sources));
    if Applied(c, p, today).Err? {
      var k := AdoptAllStops(c, base.sources, start, [], p.adopt, today);
      FirstAdoptions(c, ls, p, today, k);
      assert OutOfNames(c, p, today, k);
    }
    if exists k: nat :: OutOfNames(c, p, today, k) {
      var k: nat :| OutOfNames(c, p, today, k);
      FirstAdoptions(c, ls, p, today, k);
      StopsThere(c, start, p.adopt, today, k);
    }
  }

  lemma NothingGrown(c: Config, base: seq<Source>, today: string)
    requires UniqueIn(base)
    ensures Grown(c, base, base, [], today)
  {
    hide Resolve;
  }
}
