// Adopting, one subvolume after another: what the loop of `apply_plan` keeps
// of the sources it grows.
module Adopting {
  import opened Base
  import opened Config
  import opened Names
  import opened Sync
  import opened Apply

  predicate Same(s: Source, t: Source) { t == s.(subvolumes := t.subvolumes) }

  /** The same sources and entry names; entries may differ otherwise. */
  ghost predicate Twins(a: seq<Source>, b: seq<Source>) {
    |a| == |b| &&
    forall i :: 0 <= i < |a| ==>
      Same(a[i], b[i]) && |a[i].subvolumes| == |b[i].subvolumes| &&
      forall k :: 0 <= k < |a[i].subvolumes| ==> a[i].subvolumes[k].name == b[i].subvolumes[k].name
  }

  // ---------------------------------------------------------------------
  // What makes a list of adoptions one the program can carry out.

  ghost predicate HasTag(sources: seq<Source>, tag: string) {
    exists i :: 0 <= i < |sources| && sources[i].tag == tag
  }

  /** The home exists and is on the right volume. */
  ghost predicate OldHome(c: Config, a: Adoption) {
    exists i :: 0 <= i < |c.sources| && c.sources[i].tag == a.sourceTag && c.sources[i].volume == a.volume
  }

  /** The home is yet to be made: the adoption source of an ordinary one. */
  ghost predicate NewHome(c: Config, a: Adoption) {
    !HasTag(c.sources, a.sourceTag) &&
    exists i :: 0 <= i < |c.sources| && !IsAdoptionTag(c.sources[i].tag) &&
                c.sources[i].volume == a.volume && a.sourceTag == c.sources[i].tag + ADOPTED_SUFFIX
  }

  ghost predicate Adoptable(c: Config, a: Adoption) {
    (OldHome(c, a) || NewHome(c, a)) && !Configured(SourcesOn(c.sources, a.volume), a.name)
  }

  predicate Differ(a: Adoption, b: Adoption) { a.volume != b.volume || a.name != b.name }

  ghost predicate AllAdoptable(c: Config, adopt: seq<Adoption>) {
    (forall i :: 0 <= i < |adopt| ==> Adoptable(c, adopt[i])) &&
    (forall i, j :: 0 <= i < j < |adopt| ==> Differ(adopt[i], adopt[j]))
  }

  lemma SuffixInjective(a: string, b: string)
    requires a + ADOPTED_SUFFIX == b + ADOPTED_SUFFIX
    ensures a == b
  {
    assert |a| == |b|;
    assert (a + ADOPTED_SUFFIX)[..|a|] == a;
    assert (b + ADOPTED_SUFFIX)[..|b|] == b;
  }

  /** One home is one volume. */
  lemma SameTagSameVolume(c: Config, a: Adoption, b: Adoption)
    requires UniqueTags(c.sources) && a.sourceTag == b.sourceTag
    requires (OldHome(c, a) || NewHome(c, a)) && (OldHome(c, b) || NewHome(c, b))
    ensures a.volume == b.volume
  {
    if NewHome(c, a) && NewHome(c, b) {
      var i :| 0 <= i < |c.sources| && !IsAdoptionTag(c.sources[i].tag) &&
               c.sources[i].volume == a.volume && a.sourceTag == c.sources[i].tag + ADOPTED_SUFFIX;
      var j :| 0 <= j < |c.sources| && !IsAdoptionTag(c.sources[j].tag) &&
               c.sources[j].volume == b.volume && b.sourceTag == c.sources[j].tag + ADOPTED_SUFFIX;
      SuffixInjective(c.sources[i].tag, c.sources[j].tag);
    }
  }

  // ---------------------------------------------------------------------
  // What the loop keeps.

  ghost predicate IsCandidate(base: string, name: string) {
    exists n :: 1 <= n <= LAST_CANDIDATE && name == Candidate(base, n)
  }

  /** `e` in `s` is the entry adoption `a` calls for. */
  ghost predicate IsFor(a: Adoption, s: Source, e: Entry, today: string) {
    s.tag == a.sourceTag && s.volume == a.volume &&
    e == Entry(a.name, a.manualOnly, e.snapshotName, Some(today), None, false) && e.snapshotName.Some? &&
    IsCandidate(NameBase(a), e.snapshotName.value)
  }

  /** `s` is on its volume as that one's first source is. */
  ghost predicate LikeFirst(sources: seq<Source>, s: Source) {
    exists i :: 0 <= i < |sources| && sources[i].volume == s.volume &&
      (forall j :: 0 <= j < i ==> sources[j].volume != s.volume) &&
      s.device == sources[i].device && s.snapshotDir == sources[i].snapshotDir
  }

  /** A source the loop made, for `a`. */
  ghost predicate MadeFor(c: Config, a: Adoption, s: Source) {
    NewHome(c, a) && s.tag == a.sourceTag && s.volume == a.volume && LikeFirst(c.sources, s) &&
    s.targetSubdirs == [s.tag] && s.targetLabels == FirstPrimary(c.targets)
  }

  function OldLength(base: seq<Source>, i: nat): nat { if i < |base| then |base[i].subvolumes| else 0 }

  ghost predicate KeepsOld(base: seq<Source>, now: seq<Source>) {
    |base| <= |now| &&
    forall i :: 0 <= i < |base| ==>
      Same(base[i], now[i]) && base[i].subvolumes <= now[i].subvolumes &&
      Resolve(base[i].subvolumes) <= Resolve(now[i].subvolumes)
  }

  ghost predicate AddsOnlyAdopted(c: Config, base: seq<Source>, now: seq<Source>, done: seq<Adoption>, today: string) {
    (forall i :: |base| <= i < |now| ==> Made(c, done, now[i])) &&
    (forall i: nat, k: nat {:trigger now[i].subvolumes[k]} ::
       i < |now| && OldLength(base, i) <= k < |now[i].subvolumes| ==>
       Wanted(done, now[i], now[i].subvolumes[k], today))
  }

  ghost predicate Made(c: Config, done: seq<Adoption>, s: Source) {
    exists a :: a in done && MadeFor(c, a, s)
  }

  ghost predicate Wanted(done: seq<Adoption>, s: Source, e: Entry, today: string) {
    exists a :: a in done && IsFor(a, s, e, today)
  }

  ghost predicate At(base: seq<Source>, now: seq<Source>, a: Adoption, today: string, i: nat, k: nat) {
    i < |now| && OldLength(base, i) <= k < |now[i].subvolumes| && IsFor(a, now[i], now[i].subvolumes[k], today)
  }

  ghost predicate AllDone(base: seq<Source>, now: seq<Source>, done: seq<Adoption>, today: string) {
    forall a :: a in done ==> exists i: nat, k: nat :: At(base, now, a, today, i, k)
  }

  ghost predicate UniqueIn(sources: seq<Source>) {
    UniqueTags(sources) && forall i :: 0 <= i < |sources| ==> UniqueNames(sources[i].subvolumes)
  }

  ghost predicate Grown(c: Config, base: seq<Source>, now: seq<Source>, done: seq<Adoption>, today: string) {
    KeepsOld(base, now) && AddsOnlyAdopted(c, base, now, done, today) &&
    AllDone(base, now, done, today) && UniqueIn(now)
  }

  lemma {:induction false} NamesInHolds(sources: seq<Source>)
    ensures forall x :: x in NamesIn(sources) <==>
                        exists i :: 0 <= i < |sources| && x in Resolve(sources[i].subvolumes)
  {
    hide Resolve;
    if sources != [] {
      NamesInHolds(sources[1..]);
      forall x ensures x in NamesIn(sources) <==>
                       exists i :: 0 <= i < |sources| && x in Resolve(sources[i].subvolumes) {
        if x in NamesIn(sources[1..]) {
          var i :| 0 <= i < |sources[1..]| && x in Resolve(sources[1..][i].subvolumes);
          assert sources[i + 1] == sources[1..][i];
        }
        if exists i :: 0 <= i < |sources| && x in Resolve(sources[i].subvolumes) {
          var i :| 0 <= i < |sources| && x in Resolve(sources[i].subvolumes);
          if i > 0 { assert sources[1..][i - 1] == sources[i]; }
        }
      }
    }
  }

  lemma {:induction false} FirstOnHolds(sources: seq<Source>, volume: string)
    ensures match FirstOn(sources, volume)
            case Some(s) => exists i :: 0 <= i < |sources| && sources[i] == s && s.volume == volume &&
                                        forall j :: 0 <= j < i ==> sources[j].volume != volume
            case None => forall i :: 0 <= i < |sources| ==> sources[i].volume != volume
  {
    if sources != [] {
      FirstOnHolds(sources[1..], volume);
      assert forall i :: 0 < i < |sources| ==> sources[1..][i - 1] == sources[i];
      if sources[0].volume != volume && FirstOn(sources[1..], volume).Some? {
        var i :| 0 <= i < |sources[1..]| && sources[1..][i] == FirstOn(sources[1..], volume).value &&
                 forall j :: 0 <= j < i ==> sources[1..][j].volume != volume;
        assert sources[i + 1] == FirstOn(sources, volume).value;
      }
    }
  }

  lemma OldHomeIsRight(c: Config, base: seq<Source>, now: seq<Source>, a: Adoption, i: nat)
    requires UniqueTags(c.sources) && Twins(c.sources, base) && KeepsOld(base, now) && Adoptable(c, a)
    requires i < |base| && now[i].tag == a.sourceTag
    ensures now[i].volume == a.volume
  {
    hide SourcesOn, Configured, Resolve;
    assert Same(base[i], now[i]) && Same(c.sources[i], base[i]);
    assert c.sources[i].tag == a.sourceTag;
    assert HasTag(c.sources, a.sourceTag);
  }

  /** The home of `a` among the grown sources is on its volume. */
  lemma HomeIsRight(c: Config, base: seq<Source>, now: seq<Source>, done: seq<Adoption>, a: Adoption, today: string,
                    i: nat)
    requires UniqueTags(c.sources) && Twins(c.sources, base) && Grown(c, base, now, done, today)
    requires Adoptable(c, a) && (forall d :: d in done ==> Adoptable(c, d))
    requires i < |now| && now[i].tag == a.sourceTag
    ensures now[i].volume == a.volume
  {
    hide SourcesOn, Configured, KeepsOld, AllDone, UniqueIn, UniqueTags, Wanted, OldLength, Twins, LikeFirst,
         IsCandidate;
    if i < |base| {
      OldHomeIsRight(c, base, now, a, i);
    } else {
      assert Made(c, done, now[i]);
      var d :| d in done && MadeFor(c, d, now[i]);
      SameTagSameVolume(c, a, d);
    }
  }

  lemma ConfiguredBy(c: Config, i: nat, k: nat)
    requires i < |c.sources| && k < |c.sources[i].subvolumes|
    ensures Configured(SourcesOn(c.sources, c.sources[i].volume), c.sources[i].subvolumes[k].name)
  {
    var on := SourcesOn(c.sources, c.sources[i].volume);
    SourcesOnHolds(c.sources, c.sources[i].volume);
    assert c.sources[i] in on;
    var j :| 0 <= j < |on| && on[j] == c.sources[i];
    assert HasEntry(on[j].subvolumes, c.sources[i].subvolumes[k].name);
  }

  /** The adopted name is new to its home. */
  lemma NameIsNew(c: Config, base: seq<Source>, now: seq<Source>, done: seq<Adoption>, a: Adoption, today: string,
                  i: nat)
    requires UniqueTags(c.sources) && Twins(c.sources, base) && Grown(c, base, now, done, today)
    requires Adoptable(c, a) && (forall d :: d in done ==> Differ(d, a))
    requires i < |now| && now[i].volume == a.volume
    ensures forall k :: 0 <= k < |now[i].subvolumes| ==> now[i].subvolumes[k].name != a.name
  {
    hide SourcesOn, Configured, LikeFirst, IsCandidate;
    forall k | 0 <= k < |now[i].subvolumes| ensures now[i].subvolumes[k].name != a.name {
      if k < OldLength(base, i) {
        assert now[i].subvolumes[k] == base[i].subvolumes[k];
        ConfiguredBy(c, i, k);
      } else {
        assert Wanted(done, now[i], now[i].subvolumes[k], today);
        var d :| d in done && IsFor(d, now[i], now[i].subvolumes[k], today);
      }
    }
  }

  // ---------------------------------------------------------------------
  // One adoption: first its home, then its entry.

  /** Sources ready for `a`: its home is at `i`, and only its entry is missing. */
  ghost predicate Ready(c: Config, base: seq<Source>, now: seq<Source>, done: seq<Adoption>, a: Adoption,
                        today: string, i: nat) {
    KeepsOld(base, now) && AddsOnlyAdopted(c, base, now, done + [a], today) &&
    AllDone(base, now, done, today) && UniqueIn(now) &&
    i < |now| && now[i].tag == a.sourceTag && now[i].volume == a.volume &&
    forall k :: 0 <= k < |now[i].subvolumes| ==> now[i].subvolumes[k].name != a.name
  }

  lemma MoreDone(c: Config, base: seq<Source>, now: seq<Source>, done: seq<Adoption>, a: Adoption, today: string)
    requires AddsOnlyAdopted(c, base, now, done, today)
    ensures AddsOnlyAdopted(c, base, now, done + [a], today)
  {
    hide IsFor, MadeFor, LikeFirst, IsCandidate;
    forall i | |base| <= i < |now| ensures Made(c, done + [a], now[i]) {
      assert Made(c, done, now[i]);
      var d :| d in done && MadeFor(c, d, now[i]);
      assert d in done + [a];
    }
    forall i: nat, k: nat | i < |now| && OldLength(base, i) <= k < |now[i].subvolumes|
      ensures Wanted(done + [a], now[i], now[i].subvolumes[k], today)
    {
      assert Wanted(done, now[i], now[i].subvolumes[k], today);
      var d :| d in done && IsFor(d, now[i], now[i].subvolumes[k], today);
      assert d in done + [a];
    }
  }

  lemma OldHomeReady(c: Config, base: seq<Source>, now: seq<Source>, done: seq<Adoption>, a: Adoption, today: string)
    requires UniqueTags(c.sources) && Twins(c.sources, base) && Grown(c, base, now, done, today)
    requires Adoptable(c, a) && (forall d :: d in done ==> Adoptable(c, d) && Differ(d, a))
    requires IndexOfTag(now, a.sourceTag).Some?
    ensures WithHome(c, now, a) == Ok(now) && Ready(c, base, now, done, a, today, HomeIndex(now, a))
  {
    hide KeepsOld, AddsOnlyAdopted, AllDone, UniqueIn, Adoptable;
    var i := HomeIndex(now, a);
    HomeIsRight(c, base, now, done, a, today, i);
    NameIsNew(c, base, now, done, a, today, i);
    MoreDone(c, base, now, done, a, today);
  }

  lemma NewHomeReady(c: Config, base: seq<Source>, now: seq<Source>, done: seq<Adoption>, a: Adoption, today: string)
    requires UniqueTags(c.sources) && Twins(c.sources, base) && Grown(c, base, now, done, today)
    requires Adoptable(c, a)
    requires IndexOfTag(now, a.sourceTag).None?
    ensures WithHome(c, now, a).Ok?
    ensures Ready(c, base, WithHome(c, now, a).value, done, a, today, HomeIndex(now, a))
    ensures NamesIn(WithHome(c, now, a).value) == NamesIn(now)
  {
    hide Resolve, SourcesOn, Configured;
    FirstOnHolds(c.sources, a.volume);
    forall i | 0 <= i < |c.sources| ensures now[i].tag == c.sources[i].tag {
      assert Same(c.sources[i], base[i]) && Same(base[i], now[i]);
    }
    assert NewHome(c, a);
    var model := FirstOn(c.sources, a.volume).value;
    var home := NewSource(c, a, model);
    var next := now + [home];
    assert MadeFor(c, a, home);
    MoreDone(c, base, now, done, a, today);
    assert a in done + [a];
    NewSourceGrows(c, base, now, done + [a], today, home);
    NewSourceUnique(now, home);
    NewSourceDone(base, now, done, today, home);
    NewSourceNames(now, home);
  }

  lemma NewSourceGrows(c: Config, base: seq<Source>, now: seq<Source>, done: seq<Adoption>, today: string, home: Source)
    requires KeepsOld(base, now) && AddsOnlyAdopted(c, base, now, done, today)
    requires Made(c, done, home) && home.subvolumes == []
    ensures KeepsOld(base, now + [home]) && AddsOnlyAdopted(c, base, now + [home], done, today)
  {
    hide Resolve, Made, Wanted, LikeFirst, IsCandidate;
  }

  lemma NewSourceUnique(now: seq<Source>, home: Source)
    requires UniqueIn(now) && !HasTag(now, home.tag) && home.subvolumes == []
    ensures UniqueIn(now + [home])
  {
    forall i, j | 0 <= i < j < |now + [home]| ensures (now + [home])[i].tag != (now + [home])[j].tag {
      assert i < |now| && now[i] == (now + [home])[i];
    }
  }

  lemma NewSourceDone(base: seq<Source>, now: seq<Source>, done: seq<Adoption>, today: string, home: Source)
    requires AllDone(base, now, done, today)
    ensures AllDone(base, now + [home], done, today)
  {
    hide IsFor;
    forall a | a in done ensures exists i: nat, k: nat :: At(base, now + [home], a, today, i, k) {
      var i: nat, k: nat :| At(base, now, a, today, i, k);
      assert At(base, now + [home], a, today, i, k);
    }
  }

  lemma NewSourceNames(now: seq<Source>, home: Source)
    requires home.subvolumes == []
    ensures NamesIn(now + [home]) == NamesIn(now)
  {
    hide NamesIn;
    NamesInHolds(now);
    NamesInHolds(now + [home]);
    var next := now + [home];
    forall x ensures x in NamesIn(next) <==> x in NamesIn(now) {
      if x in NamesIn(now) {
        var i :| 0 <= i < |now| && x in Resolve(now[i].subvolumes);
        assert next[i] == now[i];
      }
      if x in NamesIn(next) {
        var i :| 0 <= i < |next| && x in Resolve(next[i].subvolumes);
        assert Resolve(home.subvolumes) == [];
        assert i < |now| && next[i] == now[i];
      }
    }
  }

  // ---------------------------------------------------------------------

  lemma EntryKeepsOld(base: seq<Source>, now: seq<Source>, i: nat, e: Entry)
    requires KeepsOld(base, now) && i < |now|
    requires e.snapshotName.Some? && e.snapshotName.value !in Resolve(now[i].subvolumes)
    ensures KeepsOld(base, Appended(now, i, e))
    ensures Resolve(Appended(now, i, e)[i].subvolumes) == Resolve(now[i].subvolumes) + [e.snapshotName.value]
  {
    hide Resolve;
    AddingFreshNameKeepsNames(now[i].subvolumes, e);
  }

  lemma MadeStays(c: Config, a: Adoption, s: Source, t: Source)
    requires MadeFor(c, a, s) && Same(s, t)
    ensures MadeFor(c, a, t)
  {
  }

  lemma EntryAddsOnlyAdopted(c: Config, base: seq<Source>, now: seq<Source>, done: seq<Adoption>, today: string,
                             i: nat, a: Adoption, e: Entry)
    requires |base| <= |now| && AddsOnlyAdopted(c, base, now, done, today)
    requires i < |now| && a in done && IsFor(a, now[i], e, today)
    requires forall j :: 0 <= j < |base| ==> base[j].subvolumes <= now[j].subvolumes
    ensures AddsOnlyAdopted(c, base, Appended(now, i, e), done, today)
  {
    hide Resolve, LikeFirst, IsCandidate;
    var next := Appended(now, i, e);
    forall j | |base| <= j < |next| ensures Made(c, done, next[j]) {
      assert Made(c, done, now[j]);
      var d :| d in done && MadeFor(c, d, now[j]);
      MadeStays(c, d, now[j], next[j]);
    }
    forall j: nat, k: nat | j < |next| && OldLength(base, j) <= k < |next[j].subvolumes|
      ensures Wanted(done, next[j], next[j].subvolumes[k], today)
    {
      if j == i && k == |now[i].subvolumes| {
        assert IsFor(a, next[j], next[j].subvolumes[k], today);
      } else {
        assert next[j].subvolumes[k] == now[j].subvolumes[k];
        assert Wanted(done, now[j], now[j].subvolumes[k], today);
        var d :| d in done && IsFor(d, now[j], now[j].subvolumes[k], today);
        assert IsFor(d, next[j], next[j].subvolumes[k], today);
      }
    }
  }

  lemma EntryDone(base: seq<Source>, now: seq<Source>, done: seq<Adoption>, today: string, i: nat, a: Adoption,
                  e: Entry)
    requires AllDone(base, now, done, today)
    requires i < |now| && IsFor(a, now[i], e, today) && OldLength(base, i) <= |now[i].subvolumes|
    ensures AllDone(base, Appended(now, i, e), done + [a], today)
  {
    hide LikeFirst, IsCandidate;
    var next := Appended(now, i, e);
    forall d | d in done + [a] ensures exists j: nat, k: nat :: At(base, next, d, today, j, k) {
      if d in done {
        var j: nat, k: nat :| At(base, now, d, today, j, k);
        assert At(base, next, d, today, j, k);
      } else {
        assert At(base, next, a, today, i, |now[i].subvolumes|);
      }
    }
  }

  lemma EntryUnique(now: seq<Source>, i: nat, e: Entry)
    requires UniqueIn(now) && i < |now|
    requires forall k :: 0 <= k < |now[i].subvolumes| ==> now[i].subvolumes[k].name != e.name
    ensures UniqueIn(Appended(now, i, e))
  {
  }

  lemma EntryNames(now: seq<Source>, i: nat, e: Entry, name: string)
    requires i < |now| && Resolve(Appended(now, i, e)[i].subvolumes) == Resolve(now[i].subvolumes) + [name]
    ensures NamesIn(Appended(now, i, e)) == NamesIn(now) + {name}
  {
    hide NamesIn, Resolve;
    var next := Appended(now, i, e);
    NamesInHolds(now);
    NamesInHolds(next);
    forall x ensures x in NamesIn(next) <==> x in NamesIn(now) || x == name {
      if x in NamesIn(next) {
        var j :| 0 <= j < |next| && x in Resolve(next[j].subvolumes);
        if j != i { assert now[j] == next[j]; }
      }
      if x in NamesIn(now) {
        var j :| 0 <= j < |now| && x in Resolve(now[j].subvolumes);
        if j != i { assert now[j] == next[j]; } else { assert x in Resolve(next[i].subvolumes); }
      }
      if x == name { assert x in Resolve(next[i].subvolumes); }
    }
  }

  /** Every candidate for a name is taken. */
  ghost predicate NoNameLeft(base: string, taken: set<string>) {
    forall k :: 1 <= k <= LAST_CANDIDATE ==> Candidate(base, k) in taken
  }

  /** One adoption keeps all of it, and records the name it took; all that can
      stop it is that no name is left. */
  lemma AdoptOneGrows(c: Config, base: seq<Source>, p: Progress, done: seq<Adoption>, a: Adoption, today: string)
    requires UniqueTags(c.sources) && Twins(c.sources, base) && Grown(c, base, p.sources, done, today)
    requires Adoptable(c, a) && (forall d :: d in done ==> Adoptable(c, d) && Differ(d, a))
    requires p.taken == NamesIn(p.sources)
    ensures |p.taken| <= 65534 ==> AdoptOne(c, p, a, today).Ok?
    ensures AdoptOne(c, p, a, today).Err? <==> NoNameLeft(NameBase(a), p.taken)
    ensures AdoptOne(c, p, a, today).Err? ==> AdoptOne(c, p, a, today).error == NamesExhausted(NameBase(a))
    ensures AdoptOne(c, p, a, today).Ok? ==>
              var q := AdoptOne(c, p, a, today).value;
              Grown(c, base, q.sources, done + [a], today) && q.taken == NamesIn(q.sources) &&
              |q.taken| <= |p.taken| + 1
  {
    hide KeepsOld, AddsOnlyAdopted, AllDone, UniqueIn, Resolve, NamesIn, Adoptable, FirstFree, NameBase, Twins;
    var i := HomeIndex(p.sources, a);
    if IndexOfTag(p.sources, a.sourceTag).Some? {
      OldHomeReady(c, base, p.sources, done, a, today);
    } else {
      NewHomeReady(c, base, p.sources, done, a, today);
    }
    var home := WithHome(c, p.sources, a).value;
    FreeUnlessNoneLeft(NameBase(a), p.taken);
    if FirstFree(NameBase(a), p.taken, 1).Some? {
      ReadyThenEntry(c, base, home, done, a, today, i, FirstFree(NameBase(a), p.taken, 1).value);
    }
  }

  lemma FreeUnlessNoneLeft(base: string, taken: set<string>)
    ensures FirstFree(base, taken, 1).None? <==> NoNameLeft(base, taken)
    ensures FirstFree(base, taken, 1).Some? ==>
              FirstFree(base, taken, 1).value !in taken && IsCandidate(base, FirstFree(base, taken, 1).value)
    ensures |taken| <= 65534 ==> FirstFree(base, taken, 1).Some?
  {
    hide FirstFree, Candidate;
    UniqueNameIsFirstFree(base, taken);
  }

  lemma ReadyThenEntry(c: Config, base: seq<Source>, home: seq<Source>, done: seq<Adoption>, a: Adoption, today: string,
                       i: nat, name: string)
    requires Ready(c, base, home, done, a, today, i) && name !in NamesIn(home) && IsCandidate(NameBase(a), name)
    ensures var next := Appended(home, i, NewEntry(a, name, today));
            Grown(c, base, next, done + [a], today) && NamesIn(next) == NamesIn(home) + {name}
  {
    hide Resolve, NamesIn, AddsOnlyAdopted, AllDone, UniqueIn;
    var e := NewEntry(a, name, today);
    NamesInHolds(home);
    assert name !in Resolve(home[i].subvolumes);
    EntryKeepsOld(base, home, i, e);
    assert a in done + [a];
    EntryAddsOnlyAdopted(c, base, home, done + [a], today, i, a, e);
    EntryDone(base, home, done, today, i, a, e);
    EntryUnique(home, i, e);
    EntryNames(home, i, e, name);
  }

  lemma FirstOfAll(c: Config, done: seq<Adoption>, adopt: seq<Adoption>)
    requires AllAdoptable(c, done + adopt)
    ensures adopt != [] ==>
              Adoptable(c, adopt[0]) && (forall d :: d in done ==> Adoptable(c, d) && Differ(d, adopt[0])) &&
              done + [adopt[0]] + adopt[1..] == done + adopt
  {
    hide Adoptable;
    var all := done + adopt;
    if adopt != [] {
      assert all[|done|] == adopt[0];
      forall d | d in done ensures Adoptable(c, d) && Differ(d, adopt[0]) {
        var j :| 0 <= j < |done| && done[j] == d;
        assert all[j] == d;
      }
      assert done + [adopt[0]] + adopt[1..] == all;
    }
  }

  /** The adoptions before the `k`th are carried out, and no name is left for it. */
  ghost predicate StopsAt(c: Config, p: Progress, adopt: seq<Adoption>, today: string, k: nat) {
    k < |adopt| && AdoptAll(c, p, adopt[..k], today).Ok? &&
    NoNameLeft(NameBase(adopt[k]), AdoptAll(c, p, adopt[..k], today).value.taken)
  }

  /** All of them: the loop keeps it all, and with names to spare it succeeds. */
  lemma {:induction false} AdoptAllGrows(c: Config, base: seq<Source>, p: Progress, done: seq<Adoption>,
                                         adopt: seq<Adoption>, today: string)
    requires UniqueTags(c.sources) && Twins(c.sources, base) && Grown(c, base, p.sources, done, today)
    requires AllAdoptable(c, done + adopt)
    requires p.taken == NamesIn(p.sources)
    ensures |p.taken| + |adopt| <= 65535 ==> AdoptAll(c, p, adopt, today).Ok?
    ensures AdoptAll(c, p, adopt, today).Ok? ==>
              var q := AdoptAll(c, p, adopt, today).value;
              Grown(c, base, q.sources, done + adopt, today) && q.taken == NamesIn(q.sources)
    decreases |adopt|
  {
    hide Grown, Twins, NamesIn, Adoptable, AdoptOne;
    if adopt == [] {
      assert done + adopt == done;
    } else {
      var a := adopt[0];
      FirstOfAll(c, done, adopt);
      AdoptOneGrows(c, base, p, done, a, today);
      if AdoptOne(c, p, a, today).Ok? {
        AdoptAllGrows(c, base, AdoptOne(c, p, a, today).value, done + [a], adopt[1..], today);
      }
    }
  }

  lemma {:induction false} AdoptAllSplits(c: Config, p: Progress, a: seq<Adoption>, b: seq<Adoption>, today: string)
    ensures AdoptAll(c, p, a + b, today) ==
            match AdoptAll(c, p, a, today) case Err(e) => Err(e) case Ok(q) => AdoptAll(c, q, b, today)
    decreases |a|
  {
    hide AdoptOne;
    if a == [] {
      assert a + b == b;
    } else {
      assert (a + b)[0] == a[0] && (a + b)[1..] == a[1..] + b;
      if AdoptOne(c, p, a[0], today).Ok? { AdoptAllSplits(c, AdoptOne(c, p, a[0], today).value, a[1..], b, today); }
    }
  }

  lemma FirstAdopts(c: Config, p: Progress, adopt: seq<Adoption>, today: string)
    requires adopt != []
    ensures AdoptAll(c, p, adopt, today) ==
            match AdoptOne(c, p, adopt[0], today) case Err(e) => Err(e) case Ok(q) => AdoptAll(c, q, adopt[1..], today)
  {
  }

  lemma NoneToAdopt(c: Config, p: Progress, today: string)
    ensures AdoptAll(c, p, [], today) == Ok(p)
  {
  }

  /** The loop stops exactly where no name is left. */
  lemma {:induction false} AdoptAllStops(c: Config, base: seq<Source>, p: Progress, done: seq<Adoption>,
                                         adopt: seq<Adoption>, today: string) returns (k: nat)
    requires UniqueTags(c.sources) && Twins(c.sources, base) && Grown(c, base, p.sources, done, today)
    requires AllAdoptable(c, done + adopt)
    requires p.taken == NamesIn(p.sources) && AdoptAll(c, p, adopt, today).Err?
    ensures StopsAt(c, p, adopt, today, k)
    ensures AdoptAll(c, p, adopt, today).error == NamesExhausted(NameBase(adopt[k]))
    decreases |adopt|
  {
    hide Grown, Twins, NamesIn, Adoptable, AdoptOne, AdoptAll, NoNameLeft, NameBase;
    NoneToAdopt(c, p, today);
    FirstOfAll(c, done, adopt);
    AdoptOneGrows(c, base, p, done, adopt[0], today);
    FirstAdopts(c, p, adopt, today);
    if AdoptOne(c, p, adopt[0], today).Err? {
      k := 0;
    } else {
      var q := AdoptOne(c, p, adopt[0], today).value;
      var j := AdoptAllStops(c, base, q, done + [adopt[0]], adopt[1..], today);
      k := j + 1;
      FirstAdopts(c, p, adopt[..k], today);
      assert adopt[..k][1..] == adopt[1..][..j];
    }
  }

  /** At such a place it does stop. */
  lemma StopsThere(c: Config, p: Progress, adopt: seq<Adoption>, today: string, k: nat)
    requires StopsAt(c, p, adopt, today, k)
    ensures AdoptAll(c, p, adopt, today).Err?
  {
    hide AdoptAll, NameBase, WithHome, Candidate, FirstFree;
    assert adopt == adopt[..k] + adopt[k..];
    AdoptAllSplits(c, p, adopt[..k], adopt[k..], today);
    var q := AdoptAll(c, p, adopt[..k], today).value;
    FirstAdopts(c, q, adopt[k..], today);
    FreeUnlessNoneLeft(NameBase(adopt[k]), q.taken);
  }
}
