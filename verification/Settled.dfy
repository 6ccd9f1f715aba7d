// What a carried-out plan leaves behind, and why replanning it is quiet.
module Settled {
  import opened Base
  import opened Config
  import opened Glob
  import opened Names
  import opened Sync
  import opened SyncFacts
  import opened Apply
  import opened Adopting
  import opened Settle

  /** `out` is what carrying out `p`, made for `c` and `ls`, leaves. */
  ghost predicate Outcome(c: Config, ls: seq<Listing>, p: Plan, today: string, out: Config) {
    WellNamed(c) && HoldsBackOnlyRetirements(p, PlanFor(c, ls)) &&
    out == c.(sources := out.sources) &&
    Grown(c, Stamped(c, p, today).sources, out.sources, p.adopt, today)
  }

  function StampedEntry(s: Source, e: Entry, p: Plan, today: string): Entry {
    if RefOf(s, e) in p.revive then e.(retired := None)
    else if RefOf(s, e) in p.retire then e.(retired := Some(today))
    else e
  }

  predicate IsOld(c: Config, i: nat, k: nat) { i < |c.sources| && k < |c.sources[i].subvolumes| }

  /** Every earlier source and entry is where it was, with only the stamp on
      it changed. */
  lemma OldEntries(c: Config, ls: seq<Listing>, p: Plan, today: string, out: Config)
    requires Outcome(c, ls, p, today, out)
    ensures |c.sources| <= |out.sources|
    ensures forall i :: 0 <= i < |c.sources| ==>
              Same(c.sources[i], out.sources[i]) && |c.sources[i].subvolumes| <= |out.sources[i].subvolumes|
    ensures forall i: nat, k: nat {:trigger out.sources[i].subvolumes[k]} :: IsOld(c, i, k) ==>
              out.sources[i].subvolumes[k] == StampedEntry(c.sources[i], c.sources[i].subvolumes[k], p, today)
  {
    hide Resolve, PlanFor, WellNamed, AddsOnlyAdopted, AllDone, UniqueIn;
    var base := Stamped(c, p, today);
    forall i | 0 <= i < |c.sources|
      ensures Same(c.sources[i], out.sources[i]) && |c.sources[i].subvolumes| <= |out.sources[i].subvolumes|
      ensures forall k: nat {:trigger out.sources[i].subvolumes[k]} :: k < |c.sources[i].subvolumes| ==>
                out.sources[i].subvolumes[k] == StampedEntry(c.sources[i], c.sources[i].subvolumes[k], p, today)
    {
      assert Same(base.sources[i], out.sources[i]);
      assert base.sources[i].subvolumes <= out.sources[i].subvolumes;
    }
  }

  /** Every other entry is one the plan adopts, in its home. */
  lemma NewEntries(c: Config, ls: seq<Listing>, p: Plan, today: string, out: Config, i: nat, k: nat)
    returns (a: Adoption)
    requires Outcome(c, ls, p, today, out)
    requires i < |out.sources| && k < |out.sources[i].subvolumes| && !IsOld(c, i, k)
    ensures a in PlanFor(c, ls).adopt && IsFor(a, out.sources[i], out.sources[i].subvolumes[k], today)
  {
    hide Resolve, PlanFor, WellNamed, KeepsOld, AllDone, UniqueIn, IsFor, LikeFirst, IsCandidate;
    var base := Stamped(c, p, today).sources;
    assert OldLength(base, i) <= k;
    assert Wanted(p.adopt, out.sources[i], out.sources[i].subvolumes[k], today);
    a :| a in p.adopt && IsFor(a, out.sources[i], out.sources[i].subvolumes[k], today);
  }

  lemma NewSources(c: Config, ls: seq<Listing>, p: Plan, today: string, out: Config, i: nat)
    returns (a: Adoption)
    requires Outcome(c, ls, p, today, out)
    requires |c.sources| <= i < |out.sources|
    ensures a in PlanFor(c, ls).adopt && MadeFor(c, a, out.sources[i])
  {
    hide Resolve, PlanFor, WellNamed, KeepsOld, AllDone, UniqueIn, MadeFor, LikeFirst, IsCandidate;
    assert Made(c, p.adopt, out.sources[i]);
    a :| a in p.adopt && MadeFor(c, a, out.sources[i]);
  }

  /** Every adoption is carried out. */
  lemma AdoptedEntries(c: Config, ls: seq<Listing>, p: Plan, today: string, out: Config, a: Adoption)
    returns (i: nat, k: nat)
    requires Outcome(c, ls, p, today, out) && a in PlanFor(c, ls).adopt
    ensures i < |out.sources| && k < |out.sources[i].subvolumes| && !IsOld(c, i, k)
    ensures IsFor(a, out.sources[i], out.sources[i].subvolumes[k], today)
  {
    hide Resolve, PlanFor, WellNamed, KeepsOld, AddsOnlyAdopted, UniqueIn, IsFor, LikeFirst, IsCandidate;
    var base := Stamped(c, p, today).sources;
    i, k :| At(base, out.sources, a, today, i, k);
  }

  lemma MadeTag(c: Config, a: Adoption, s: Source)
    requires MadeFor(c, a, s)
    ensures IsAdoptionTag(s.tag)
  {
    hide LikeFirst, IsCandidate;
    var i :| 0 <= i < |c.sources| && !IsAdoptionTag(c.sources[i].tag) &&
             c.sources[i].volume == a.volume && a.sourceTag == c.sources[i].tag + ADOPTED_SUFFIX;
    assert s.tag[|c.sources[i].tag|..] == ADOPTED_SUFFIX;
  }

  /** The side conditions hold of the result too. */
  lemma StaysWellNamed(c: Config, ls: seq<Listing>, p: Plan, today: string, out: Config)
    requires Outcome(c, ls, p, today, out)
    ensures WellNamed(out)
  {
    hide Resolve, PlanFor, KeepsOld, AddsOnlyAdopted, AllDone, MadeFor, IsAdoptionTag, UniqueNames, Stamped,
         LikeFirst, IsCandidate;
    OldEntries(c, ls, p, today, out);
    forall i, j | 0 <= i < |out.sources| && 0 <= j < |out.sources| &&
                  !IsAdoptionTag(out.sources[i].tag) && out.sources[j].tag == out.sources[i].tag + ADOPTED_SUFFIX
      ensures out.sources[j].volume == out.sources[i].volume
    {
      if i >= |c.sources| {
        var a := NewSources(c, ls, p, today, out, i);
        MadeTag(c, a, out.sources[i]);
      } else if j >= |c.sources| {
        var a := NewSources(c, ls, p, today, out, j);
        MadeBesideIts(c, a, out.sources[j], i);
      }
    }
  }

  lemma MadeBesideIts(c: Config, a: Adoption, s: Source, i: nat)
    requires UniqueTags(c.sources) && MadeFor(c, a, s)
    requires i < |c.sources| && s.tag == c.sources[i].tag + ADOPTED_SUFFIX
    ensures s.volume == c.sources[i].volume
  {
    hide LikeFirst, IsCandidate;
    var j :| 0 <= j < |c.sources| && !IsAdoptionTag(c.sources[j].tag) &&
             c.sources[j].volume == a.volume && a.sourceTag == c.sources[j].tag + ADOPTED_SUFFIX;
    SuffixInjective(c.sources[i].tag, c.sources[j].tag);
  }

  // ---------------------------------------------------------------------
  // No entry calls for a mark again.

  lemma SameRefSameEntry(c: Config, s: Source, e: Entry, t: Source, f: Entry)
    requires WellNamed(c) && Has(c, s, e) && Has(c, t, f) && RefOf(s, e) == RefOf(t, f)
    ensures s == t && e == f
  {
    hide AdoptionSourcesInPlace;
    var i :| 0 <= i < |c.sources| && c.sources[i] == s;
    var j :| 0 <= j < |c.sources| && c.sources[j] == t;
    assert i == j;
    var k :| 0 <= k < |s.subvolumes| && s.subvolumes[k] == e;
    var l :| 0 <= l < |t.subvolumes| && t.subvolumes[l] == f;
    assert UniqueNames(c.sources[i].subvolumes);
  }

  /** The plan marks an entry exactly when the entry calls for it. */
  lemma MarkedExactly(c: Config, ls: seq<Listing>, s: Source, e: Entry)
    requires WellNamed(c) && Has(c, s, e)
    ensures RefOf(s, e) in PlanFor(c, ls).retire <==> RetiresIn(c, ls, s, e)
    ensures RefOf(s, e) in PlanFor(c, ls).revive <==> RevivesIn(c, ls, s, e)
  {
    hide PlanFor, WellNamed, Retires, Revives, OnDisk, RefOf;
    PlanMarks(c, ls);
    if RefOf(s, e) in PlanFor(c, ls).retire {
      var t, f :| RetiresIn(c, ls, t, f) && RefOf(s, e) == RefOf(t, f);
      SameRefSameEntry(c, s, e, t, f);
    }
    if RefOf(s, e) in PlanFor(c, ls).revive {
      var t, f :| RevivesIn(c, ls, t, f) && RefOf(s, e) == RefOf(t, f);
      SameRefSameEntry(c, s, e, t, f);
    }
  }

  lemma OldEntryQuiet(c: Config, ls: seq<Listing>, p: Plan, today: string, out: Config, s: Source, e: Entry,
                      t: Source, f: Entry)
    requires Outcome(c, ls, p, today, out) && Has(c, s, e) && Same(s, t) && f == StampedEntry(s, e, p, today)
    requires Has(out, t, f)
    ensures !RevivesIn(out, ls, t, f)
    ensures RetiresIn(out, ls, t, f) ==> RefOf(t, f) in PlanFor(c, ls).retire && RefOf(t, f) !in p.retire
  {
    hide PlanFor, WellNamed, Grown, OnDisk;
    MarkedExactly(c, ls, s, e);
    assert MirrorsReached(out, t) == MirrorsReached(c, s) by { SameMirrors(c.targets, s, t); }
  }

  lemma {:induction false} SameMirrors(targets: seq<Target>, s: Source, t: Source)
    requires s.targetLabels == t.targetLabels
    ensures MirrorLabels(targets, s) == MirrorLabels(targets, t)
    ensures TargetsOf(targets, s) == TargetsOf(targets, t)
  {
    if targets != [] { SameMirrors(targets[1..], s, t); }
  }

  lemma TopHasNoAncestor(pairs: seq<(Source, Entry)>)
    ensures Ancestor(pairs, TOP_LEVEL) == None
  {
    AncestorMeans(pairs, TOP_LEVEL);
  }

  lemma {:induction false} FindSourceOnVolume(sources: seq<Source>, volume: string, tag: string)
    requires UniqueTags(sources)
    ensures match FindSource(SourcesOn(sources, volume), tag)
            case Some(s) => s in sources && s.volume == volume && s.tag == tag
            case None => forall s :: s in sources && s.volume == volume ==> s.tag != tag
  {
    if sources != [] {
      assert sources == [sources[0]] + sources[1..];
      FindSourceOnVolume(sources[1..], volume, tag);
    }
  }

  lemma {:induction false} FirstPrimaryOnly(targets: seq<Target>)
    requires exists i :: 0 <= i < |targets| && targets[i].role.Primary?
    ensures exists i :: 0 <= i < |targets| && targets[i].role.Primary? && FirstPrimary(targets) == [targets[i].tag]
  {
    if !targets[0].role.Primary? {
      var i :| 0 <= i < |targets| && targets[i].role.Primary?;
      assert targets[1..][i - 1].role.Primary?;
      FirstPrimaryOnly(targets[1..]);
      var j :| 0 <= j < |targets[1..]| && targets[1..][j].role.Primary? &&
          FirstPrimary(targets[1..]) == [targets[1..][j].tag];
      assert targets[j + 1] == targets[1..][j];
    }
  }

  /** A source that sends to one primary reaches no mirror. */
  lemma MadeReachesNoMirror(c: Config, s: Source)
    requires UniqueTargets(c.targets) && HasPrimary(c) && s.targetLabels == FirstPrimary(c.targets)
    ensures MirrorsReached(c, s) == []
  {
    FirstPrimaryOnly(c.targets);
    var i :| 0 <= i < |c.targets| && c.targets[i].role.Primary? && FirstPrimary(c.targets) == [c.targets[i].tag];
    TargetsOfMembers(c.targets, s);
    forall t | t in TargetsOf(c.targets, s) ensures t.role.Primary? {
      var j :| 0 <= j < |c.targets| && c.targets[j] == t;
      assert t.tag == c.targets[i].tag;
      assert j == i;
    }
    NoMirrorsMeansPrimariesOnly(c.targets, s);
  }

  /** An adopted top level is in a source that reaches no mirror. */
  lemma AdoptedTopHome(c: Config, ls: seq<Listing>, p: Plan, today: string, out: Config, i: nat, k: nat, a: Adoption)
    requires Outcome(c, ls, p, today, out) && a in PlanFor(c, ls).adopt && a.name == TOP_LEVEL
    requires i < |out.sources| && k < |out.sources[i].subvolumes|
    requires IsFor(a, out.sources[i], out.sources[i].subvolumes[k], today)
    ensures MirrorsReached(out, out.sources[i]) == []
  {
    hide PlanFor, Grown, Stamped, Skipped, SourcesOn, AdoptionSourcesInPlace, UniqueNames, ScopeOf, MirrorLabels,
         Pairs, LikeFirst, IsCandidate;
    PlanAdoptions(c, ls);
    var v :| AdoptionOn(c, ls, v, a);
    var n :| AdoptsIn(c, ls, v, n) && PlaceIn(c, v, n) == Ok(a);
    HomeOfPlaced(c, v, n, a);
    TopHasNoAncestor(Pairs(SourcesOn(c.sources, v)));
    assert HasPrimary(c);
    OldEntries(c, ls, p, today, out);
    if i < |c.sources| {
      assert Same(c.sources[i], out.sources[i]);
      FindSourceOnVolume(c.sources, v, a.sourceTag);
      assert c.sources[i] in c.sources;
      var home := FindSource(SourcesOn(c.sources, v), a.sourceTag).value;
      var j :| 0 <= j < |c.sources| && c.sources[j] == home;
      assert home == c.sources[i];
      SameMirrors(c.targets, c.sources[i], out.sources[i]);
    } else {
      var b := NewSources(c, ls, p, today, out, i);
      MadeReachesNoMirror(out, out.sources[i]);
    }
  }

  lemma NewEntryQuiet(c: Config, ls: seq<Listing>, p: Plan, today: string, out: Config, i: nat, k: nat)
    requires Outcome(c, ls, p, today, out)
    requires i < |out.sources| && k < |out.sources[i].subvolumes| && !IsOld(c, i, k)
    ensures !RevivesIn(out, ls, out.sources[i], out.sources[i].subvolumes[k])
    ensures !RetiresIn(out, ls, out.sources[i], out.sources[i].subvolumes[k])
  {
    hide PlanFor, Grown, Stamped, Skipped, SourcesOn, WellNamed, MirrorsReached, Place, LikeFirst, IsCandidate;
    var a := NewEntries(c, ls, p, today, out, i, k);
    PlanAdoptions(c, ls);
    var v :| AdoptionOn(c, ls, v, a);
    var n :| AdoptsIn(c, ls, v, n) && PlaceIn(c, v, n) == Ok(a);
    HomeOfPlaced(c, v, n, a);
    if n == TOP_LEVEL { AdoptedTopHome(c, ls, p, today, out, i, k, a); }
  }

  /** Planned again against the same listings, nothing is revived, and nothing
      is retired but what was held back. */
  lemma NoMarksAgain(c: Config, ls: seq<Listing>, p: Plan, today: string, out: Config)
    requires Outcome(c, ls, p, today, out)
    ensures PlanFor(out, ls).revive == []
    ensures forall r :: r in PlanFor(out, ls).retire ==> r in PlanFor(c, ls).retire && r !in p.retire
  {
    hide PlanFor, Outcome, Retires, Revives, OnDisk, StampedEntry;
    OldEntries(c, ls, p, today, out);
    PlanMarks(out, ls);
    forall t, f | Has(out, t, f)
      ensures !RevivesIn(out, ls, t, f)
      ensures RetiresIn(out, ls, t, f) ==> RefOf(t, f) in PlanFor(c, ls).retire && RefOf(t, f) !in p.retire
    {
      var i :| 0 <= i < |out.sources| && out.sources[i] == t;
      var k :| 0 <= k < |t.subvolumes| && t.subvolumes[k] == f;
      if IsOld(c, i, k) {
        assert out.sources[i].subvolumes[k] == f;
        OldEntryQuiet(c, ls, p, today, out, c.sources[i], c.sources[i].subvolumes[k], t, f);
      } else {
        NewEntryQuiet(c, ls, p, today, out, i, k);
      }
    }
    HeadIsMember(PlanFor(out, ls).revive);
  }

  /** What is held back is called for again. */
  lemma HeldBackStays(c: Config, ls: seq<Listing>, p: Plan, today: string, out: Config, r: EntryRef)
    requires Outcome(c, ls, p, today, out) && r in PlanFor(c, ls).retire && r !in p.retire
    ensures r in PlanFor(out, ls).retire
  {
    hide PlanFor, OnDisk, WellNamed, Grown, MirrorLabels;
    PlanMarks(c, ls);
    PlanMarks(out, ls);
    OldEntries(c, ls, p, today, out);
    var s, e :| RetiresIn(c, ls, s, e) && r == RefOf(s, e);
    MarkedExactly(c, ls, s, e);
    var i :| 0 <= i < |c.sources| && c.sources[i] == s;
    var k :| 0 <= k < |s.subvolumes| && s.subvolumes[k] == e;
    assert IsOld(c, i, k) && Same(s, out.sources[i]);
    var t, f := out.sources[i], out.sources[i].subvolumes[k];
    assert f == StampedEntry(s, e, p, today);
    SameMirrors(c.targets, s, t);
    assert RetiresIn(out, ls, t, f);
  }
}
