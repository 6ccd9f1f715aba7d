// Every list of a plan in terms of the configuration and the listings alone
// (`plan_sync`, indexer/src/adopt.rs).
module PlanFacts {
  import opened Base
  import opened Config
  import opened Glob
  import opened Sync
  import opened SyncFacts
  import opened ValidFacts
  import opened AdoptionFacts

  // ---------------------------------------------------------------------
  // What was found on a volume.

  /** Listing `i` is the first of the volume. */
  ghost predicate ListedAt(ls: seq<Listing>, volume: string, i: nat) {
    i < |ls| && ls[i].volume == volume && forall j :: 0 <= j < i ==> ls[j].volume != volume
  }

  lemma {:induction false} OnDiskMeans(ls: seq<Listing>, v: string)
    ensures forall i: nat :: ListedAt(ls, v, i) ==> OnDisk(ls, v) == ls[i].subvolumes
    ensures (forall i: nat :: !ListedAt(ls, v, i)) ==> OnDisk(ls, v) == Err("volume was not listed")
  {
    if ls != [] {
      OnDiskMeans(ls[1..], v);
      ListedInTail(ls, v);
    }
  }

  lemma ListedInTail(ls: seq<Listing>, v: string)
    requires ls != []
    ensures ls[0].volume == v ==> ListedAt(ls, v, 0)
    ensures ls[0].volume != v ==>
              !ListedAt(ls, v, 0) && (forall i: nat :: ListedAt(ls[1..], v, i) ==> ListedAt(ls, v, i + 1)) &&
              forall i: nat :: i > 0 && ListedAt(ls, v, i) ==> ListedAt(ls[1..], v, i - 1)
  {
    assert forall j :: 0 <= j < |ls| - 1 ==> ls[1..][j] == ls[j + 1];
    forall i: nat | i > 0 && ls[0].volume != v && ListedAt(ls, v, i) ensures ListedAt(ls[1..], v, i - 1) {
      assert ls[1..][i - 1] == ls[i];
    }
  }

  /** The volume could be listed. */
  ghost predicate ReadOn(ls: seq<Listing>, volume: string) {
    exists i: nat :: ListedAt(ls, volume, i) && ls[i].subvolumes.Ok?
  }

  /** The volume could be listed, and `name` is on it. */
  ghost predicate Lists(ls: seq<Listing>, volume: string, name: string) {
    exists i: nat :: ListedAt(ls, volume, i) && ls[i].subvolumes.Ok? && name in ls[i].subvolumes.value
  }

  /** Why the volume could not be listed. */
  ghost predicate NotListed(ls: seq<Listing>, volume: string, why: string) {
    (exists i: nat :: ListedAt(ls, volume, i) && ls[i].subvolumes == Err(why)) ||
    ((forall i: nat :: !ListedAt(ls, volume, i)) && why == "volume was not listed")
  }

  lemma ListingMeans(ls: seq<Listing>, v: string)
    ensures Read(ls, v) <==> ReadOn(ls, v)
    ensures forall n :: Read(ls, v) && n in Found(ls, v) <==> Lists(ls, v, n)
    ensures forall why :: OnDisk(ls, v) == Err(why) <==> NotListed(ls, v, why)
  {
    OnDiskMeans(ls, v);
    hide OnDisk, ListedAt;
    if exists i: nat :: ListedAt(ls, v, i) {
      var i: nat :| ListedAt(ls, v, i);
      IsListed(ls, v, i);
    }
  }

  lemma IsListed(ls: seq<Listing>, v: string, i: nat)
    requires ListedAt(ls, v, i)
    ensures i < |ls| && OnDisk(ls, v) == ls[i].subvolumes
    ensures forall j: nat :: ListedAt(ls, v, j) ==> j == i
  {
    OnDiskMeans(ls, v);
  }

  // ---------------------------------------------------------------------
  // Mirrors.

  ghost predicate ReachesMirror(targets: seq<Target>, s: Source, i: nat) {
    Reaches(targets, s, i) && targets[i].role.Mirror?
  }

  /** `at` lists, in order, exactly the mirrors `s` sends to. */
  ghost predicate MirrorsAt(targets: seq<Target>, s: Source, at: seq<nat>) {
    (forall m, n :: 0 <= m < n < |at| ==> at[m] < at[n]) &&
    (forall m :: 0 <= m < |at| ==> ReachesMirror(targets, s, at[m])) &&
    forall i: nat :: ReachesMirror(targets, s, i) ==> i in at
  }

  /** `mirrors` are their labels. */
  ghost predicate MirrorsNamed(targets: seq<Target>, s: Source, mirrors: seq<string>, at: seq<nat>) {
    MirrorsAt(targets, s, at) && |mirrors| == |at| &&
    forall m :: 0 <= m < |at| ==> at[m] < |targets| && mirrors[m] == targets[at[m]].tag
  }

  ghost predicate MirrorsAre(c: Config, s: Source, mirrors: seq<string>) {
    exists at :: MirrorsNamed(c.targets, s, mirrors, at)
  }

  lemma {:induction false} MirrorsParts(a: seq<Target>, b: seq<Target>, s: Source)
    ensures MirrorLabels(a + b, s) == MirrorLabels(a, s) + MirrorLabels(b, s)
  {
    hide SendsTo;
    if a == [] {
      assert a + b == b;
    } else {
      MirrorsParts(a[1..], b, s);
      assert (a + b)[1..] == a[1..] + b && (a + b)[0] == a[0];
      var x, y := MirrorLabels(a[1..], s), MirrorLabels(b, s);
      assert [a[0].tag] + (x + y) == ([a[0].tag] + x) + y;
    }
  }

  lemma MirrorsOfMore(before: seq<Target>, t: Target, s: Source)
    ensures forall i: nat :: ReachesMirror(before + [t], s, i) <==>
              ReachesMirror(before, s, i) || (i == |before| && t.role.Mirror? && SendsTo(s, t))
    ensures forall i: nat :: ReachesMirror(before, s, i) ==> i < |before|
  {
  }

  lemma OneMoreMirrorAt(before: seq<Target>, t: Target, s: Source, at: seq<nat>)
    requires MirrorsAt(before, s, at)
    ensures MirrorsAt(before + [t], s, if t.role.Mirror? && SendsTo(s, t) then at + [|before|] else at)
  {
    MirrorsOfMore(before, t, s);
    hide ReachesMirror, SendsTo;
    var now := if t.role.Mirror? && SendsTo(s, t) then at + [|before|] else at;
    forall i: nat | ReachesMirror(before + [t], s, i) ensures i in now {
      if i == |before| { assert now[|at|] == i; } else { assert i in at; }
    }
  }

  lemma OneMoreMirror(before: seq<Target>, t: Target, s: Source, mirrors: seq<string>, at: seq<nat>)
    requires MirrorsNamed(before, s, mirrors, at)
    ensures t.role.Mirror? && SendsTo(s, t) ==> MirrorsNamed(before + [t], s, mirrors + [t.tag], at + [|before|])
    ensures !(t.role.Mirror? && SendsTo(s, t)) ==> MirrorsNamed(before + [t], s, mirrors, at)
  {
    OneMoreMirrorAt(before, t, s, at);
    hide MirrorsAt, SendsTo;
    var all := before + [t];
    assert forall i :: 0 <= i < |before| ==> all[i] == before[i];
    assert all[|before|] == t;
  }

  lemma {:induction false} MirrorLabelsAre(targets: seq<Target>, s: Source) returns (at: seq<nat>)
    ensures MirrorsNamed(targets, s, MirrorLabels(targets, s), at)
  {
    if targets == [] {
      at := [];
    } else {
      var before, t := targets[..|targets| - 1], targets[|targets| - 1];
      at := MirrorLabelsAre(before, s);
      assert targets == before + [t];
      MirrorsParts(before, [t], s);
      assert [t][1..] == [] && MirrorLabels(before, s) + [] == MirrorLabels(before, s);
      OneMoreMirror(before, t, s, MirrorLabels(before, s), at);
      at := if t.role.Mirror? && SendsTo(s, t) then at + [|before|] else at;
    }
  }

  /** The planner's list of mirrors is theirs, in order; empty when none is
      reached. */
  lemma MirrorsMean(c: Config, s: Source)
    ensures MirrorsAre(c, s, MirrorsReached(c, s))
    ensures MirrorsReached(c, s) == [] <==> forall i: nat :: !ReachesMirror(c.targets, s, i)
  {
    var at := MirrorLabelsAre(c.targets, s);
    hide ReachesMirror, MirrorLabels;
    if at != [] { assert ReachesMirror(c.targets, s, at[0]); }
  }

  // ---------------------------------------------------------------------
  // Entries the configuration has.

  /** A top level in a source that sends to a mirror. */
  ghost predicate TopAtMirror(c: Config, s: Source, e: Entry) {
    e.name == "." && exists i: nat :: ReachesMirror(c.targets, s, i)
  }

  /** A live entry is retired when its subvolume is gone, and a top level when
      a mirror is reached. */
  ghost predicate MustRetire(c: Config, ls: seq<Listing>, s: Source, e: Entry) {
    s in c.sources && e in s.subvolumes && ReadOn(ls, s.volume) && e.retired == None &&
    (TopAtMirror(c, s, e) || (e.name != "." && !Lists(ls, s.volume, e.name)))
  }

  /** A retired entry is revived when its subvolume is there, a top level
      always, unless a mirror is reached. */
  ghost predicate MustRevive(c: Config, ls: seq<Listing>, s: Source, e: Entry) {
    s in c.sources && e in s.subvolumes && ReadOn(ls, s.volume) && e.retired != None &&
    !TopAtMirror(c, s, e) && (e.name == "." || Lists(ls, s.volume, e.name))
  }

  lemma RefusedTopMeans(c: Config, s: Source, e: Entry)
    ensures RefusedTop(c, s, e) <==> TopAtMirror(c, s, e)
  {
    hide MirrorsReached, ReachesMirror;
    MirrorsMean(c, s);
  }

  lemma OneEntryMeans(c: Config, ls: seq<Listing>, s: Source, e: Entry)
    ensures RetiresIn(c, ls, s, e) <==> MustRetire(c, ls, s, e)
    ensures RevivesIn(c, ls, s, e) <==> MustRevive(c, ls, s, e)
  {
    hide RefusedTop, TopAtMirror, OnDisk, ReadOn, Lists, Found, Read;
    RefusedTopMeans(c, s, e);
    ListingMeans(ls, s.volume);
    if e.name == "." { assert e.name == TOP_LEVEL; }
  }

  lemma MarksMean(c: Config, ls: seq<Listing>)
    ensures forall r :: r in PlanFor(c, ls).retire <==>
              exists s, e :: MustRetire(c, ls, s, e) && r.sourceTag == s.tag && r.name == e.name
    ensures forall r :: r in PlanFor(c, ls).revive <==>
              exists s, e :: MustRevive(c, ls, s, e) && r.sourceTag == s.tag && r.name == e.name
  {
    hide PlanFor, RetiresIn, RevivesIn, MustRetire, MustRevive;
    PlanMarks(c, ls);
    forall s, e ensures RetiresIn(c, ls, s, e) <==> MustRetire(c, ls, s, e)
        ensures RevivesIn(c, ls, s, e) <==> MustRevive(c, ls, s, e) {
      OneEntryMeans(c, ls, s, e);
    }
    forall r: EntryRef, s: Source, e: Entry
      ensures r == RefOf(s, e) <==> r.sourceTag == s.tag && r.name == e.name {}
  }

  // ---------------------------------------------------------------------
  // Subvolumes no entry names.

  /** `name` is on a volume of the configuration, and no entry of any source
      there names it, live or retired. */
  ghost predicate NewOn(c: Config, ls: seq<Listing>, volume: string, name: string) {
    Lists(ls, volume, name) && (exists s :: s in c.sources && s.volume == volume) &&
    forall s, e :: s in c.sources && s.volume == volume && e in s.subvolumes ==> e.name != name
  }

  /** What may keep subvolumes out, in the order in which it is asked. */
  function AllPatterns(c: Config): seq<string> { ["@tmp", "@var-tmp"] + c.subvolumeExcludes + c.doctorExcludes }

  /** `pattern` is the first that keeps `name` out. */
  ghost predicate FirstExcluding(patterns: seq<string>, name: string, pattern: string) {
    exists i :: 0 <= i < |patterns| && patterns[i] == pattern && Excludes(pattern, name) &&
                forall j :: 0 <= j < i ==> !Excludes(patterns[j], name)
  }

  ghost predicate InTree(name: string) { HasPart(name, ".snapshots") || HasPart(name, ".btrbk-snapshots") }

  ghost predicate KeptOut(c: Config, name: string) {
    InTree(name) || exists p :: p in AllPatterns(c) && Excludes(p, name)
  }

  /** Why it is kept out: the snapshot tree first, else the first pattern. */
  ghost predicate KeptOutBy(c: Config, name: string, reason: SkipReason) {
    match reason
    case SnapshotTree => InTree(name)
    case Excluded(pattern) => !InTree(name) && FirstExcluding(AllPatterns(c), name, pattern)
  }

  lemma {:induction false} FirstOfAll(patterns: seq<string>, name: string)
    ensures match ExcludedBy(name, patterns)
            case Some(p) => forall q :: FirstExcluding(patterns, name, q) <==> q == p
            case None => forall q :: q in patterns ==> !Excludes(q, name)
  {
    hide Excludes;
    if patterns != [] {
      FirstOfAll(patterns[1..], name);
      assert forall j :: 0 <= j < |patterns| - 1 ==> patterns[1..][j] == patterns[j + 1];
      if Excludes(patterns[0], name) {
        assert FirstExcluding(patterns, name, patterns[0]);
      } else {
        forall q ensures FirstExcluding(patterns, name, q) <==> FirstExcluding(patterns[1..], name, q) {
          FirstLater(patterns, name, q);
        }
      }
    }
  }

  lemma FirstLater(patterns: seq<string>, name: string, q: string)
    requires patterns != [] && !Excludes(patterns[0], name)
    ensures FirstExcluding(patterns, name, q) <==> FirstExcluding(patterns[1..], name, q)
  {
    hide Excludes;
    var rest := patterns[1..];
    assert forall j :: 0 <= j < |rest| ==> rest[j] == patterns[j + 1];
    if FirstExcluding(patterns, name, q) {
      var i :| 0 <= i < |patterns| && patterns[i] == q && Excludes(q, name) &&
               forall j :: 0 <= j < i ==> !Excludes(patterns[j], name);
      assert rest[i - 1] == q;
    }
    if FirstExcluding(rest, name, q) {
      var i :| 0 <= i < |rest| && rest[i] == q && Excludes(q, name) &&
               forall j :: 0 <= j < i ==> !Excludes(rest[j], name);
      assert patterns[i + 1] == q;
      assert forall j :: 0 < j < i + 1 ==> patterns[j] == rest[j - 1];
    }
  }

  /** Leaving out repeats does not change what is found first. */
  lemma {:induction false} RepeatsDoNotMatter(patterns: seq<string>, more: seq<string>, name: string)
    ensures ExcludedBy(name, WithoutRepeats(patterns, more)) == ExcludedBy(name, patterns + more)
    decreases |more|
  {
    hide Excludes;
    if more == [] {
      assert patterns + more == patterns;
    } else {
      assert patterns + more == patterns + [more[0]] + more[1..];
      if more[0] in patterns {
        RepeatsDoNotMatter(patterns, more[1..], name);
        KnownPattern(patterns, more, name);
      } else {
        RepeatsDoNotMatter(patterns + [more[0]], more[1..], name);
      }
    }
  }

  lemma {:induction false} KnownPattern(patterns: seq<string>, more: seq<string>, name: string)
    requires more != [] && more[0] in patterns
    ensures ExcludedBy(name, patterns + more) == ExcludedBy(name, patterns + more[1..])
  {
    hide Excludes;
    ExcludedByParts(patterns, more, name);
    ExcludedByParts(patterns, more[1..], name);
    if ExcludedBy(name, patterns).None? { assert !Excludes(more[0], name); }
  }

  lemma {:induction false} ExcludedByParts(a: seq<string>, b: seq<string>, name: string)
    ensures ExcludedBy(name, a + b) == if ExcludedBy(name, a).Some? then ExcludedBy(name, a) else ExcludedBy(name, b)
  {
    hide Excludes;
    if a == [] {
      assert a + b == b;
    } else {
      ExcludedByParts(a[1..], b, name);
      assert (a + b)[1..] == a[1..] + b && (a + b)[0] == a[0];
    }
  }

  lemma FirstOfPatterns(c: Config, name: string)
    ensures ExcludedBy(name, ExcludePatterns(c)) == ExcludedBy(name, AllPatterns(c))
  {
    hide ExcludedBy, WithoutRepeats;
    RepeatsDoNotMatter([], AllPatterns(c), name);
    assert [] + AllPatterns(c) == AllPatterns(c);
    assert AllPatterns(c) == DEFAULT_EXCLUDES + c.subvolumeExcludes + c.doctorExcludes;
  }

  lemma SkippedMeans(c: Config, volume: string, name: string)
    ensures Skipped(c, name) <==> KeptOut(c, name)
    ensures Skipped(c, name) ==>
              forall k :: k == SkipFor(c, volume, name) <==>
                k.volume == volume && k.name == name && KeptOutBy(c, name, k.reason)
  {
    SnapshotTreeMeans(name);
    FirstOfPatterns(c, name);
    hide Excludes, InSnapshotTree, HasPart, AllPatterns, ExcludePatterns;
    FirstOfAll(AllPatterns(c), name);
    hide FirstExcluding;
  }

  lemma NewMeans(c: Config, ls: seq<Listing>, v: string, n: string)
    ensures UnknownIn(c, ls, v, n) <==> NewOn(c, ls, v, n)
  {
    hide Read, Found, Lists, OnDisk, ReadOn, ListedAt;
    ListingMeans(ls, v);
    SourcesOnHolds(c.sources, v);
    var on := SourcesOn(c.sources, v);
    if on != [] { assert on[0] in on; }
    ConfiguredMeans(on, n);
  }

  lemma ConfiguredMeans(sources: seq<Source>, name: string)
    ensures Configured(sources, name) <==> exists s, e :: s in sources && e in s.subvolumes && e.name == name
  {
    if Configured(sources, name) {
      var i :| 0 <= i < |sources| && HasEntry(sources[i].subvolumes, name);
      var k :| 0 <= k < |sources[i].subvolumes| && sources[i].subvolumes[k].name == name;
      assert sources[i] in sources && sources[i].subvolumes[k] in sources[i].subvolumes;
    }
  }

  /** The skips are exactly the new names kept out, each with its reason. */
  lemma SkipsMean(c: Config, ls: seq<Listing>)
    ensures forall k :: k in PlanFor(c, ls).skipped <==>
              NewOn(c, ls, k.volume, k.name) && KeptOut(c, k.name) && KeptOutBy(c, k.name, k.reason)
  {
    hide PlanFor, UnknownIn, NewOn, Skipped, KeptOut, KeptOutBy, SkipFor;
    PlanSkips(c, ls);
    forall v, n ensures UnknownIn(c, ls, v, n) <==> NewOn(c, ls, v, n) { NewMeans(c, ls, v, n); }
    forall k ensures k in PlanFor(c, ls).skipped <==>
                     NewOn(c, ls, k.volume, k.name) && KeptOut(c, k.name) && KeptOutBy(c, k.name, k.reason) {
      SkippedMeans(c, k.volume, k.name);
      if k in PlanFor(c, ls).skipped {
        var v :| SkipOn(c, ls, v, k);
        var n :| UnknownIn(c, ls, v, n) && Skipped(c, n) && k == SkipFor(c, v, n);
        SkippedMeans(c, v, n);
      }
      if NewOn(c, ls, k.volume, k.name) && KeptOut(c, k.name) && KeptOutBy(c, k.name, k.reason) {
        assert SkipOn(c, ls, k.volume, k);
      }
    }
  }

  // ---------------------------------------------------------------------
  // What cannot be placed.

  ghost predicate Increasing(s: seq<nat>) { forall m, n :: 0 <= m < n < |s| ==> s[m] < s[n] }

  /** Two increasing lists of the same numbers are one. */
  lemma {:induction false} IncreasingUnique(a: seq<nat>, b: seq<nat>)
    requires Increasing(a) && Increasing(b) && forall x: nat :: x in a <==> x in b
    ensures a == b
  {
    if a == [] {
      HeadIsMember(b);
    } else {
      assert a[0] in b;
      var x, y := a[|a| - 1], b[|b| - 1];
      assert x in b && y in a by { assert x in a && y in b; }
      assert x == y;
      var a', b' := a[..|a| - 1], b[..|b| - 1];
      forall z: nat ensures z in a' <==> z in b' {
        ButLast(a, z);
        ButLast(b, z);
      }
      IncreasingUnique(a', b');
      assert a == a' + [x] && b == b' + [y];
    }
  }

  lemma ButLast(a: seq<nat>, z: nat)
    requires a != [] && Increasing(a)
    ensures z in a[..|a| - 1] <==> z in a && z != a[|a| - 1]
  {
    assert a == a[..|a| - 1] + [a[|a| - 1]];
  }

  lemma SameMirrorsAt(targets: seq<Target>, s: Source, x: seq<nat>, y: seq<nat>)
    requires MirrorsAt(targets, s, x) && MirrorsAt(targets, s, y)
    ensures x == y
  {
    hide ReachesMirror;
    forall i: nat | i in x ensures i in y { assert ReachesMirror(targets, s, i); }
    forall i: nat | i in y ensures i in x { assert ReachesMirror(targets, s, i); }
    IncreasingUnique(x, y);
  }

  lemma MirrorsAreOne(c: Config, s: Source, a: seq<string>, b: seq<string>)
    requires MirrorsAre(c, s, a) && MirrorsAre(c, s, b)
    ensures a == b
  {
    hide MirrorsAt;
    var x :| MirrorsNamed(c.targets, s, a, x);
    var y :| MirrorsNamed(c.targets, s, b, y);
    SameMirrorsAt(c.targets, s, x, y);
  }

  lemma MirrorsExactly(c: Config, s: Source)
    ensures forall mirrors :: mirrors == MirrorsReached(c, s) <==> MirrorsAre(c, s, mirrors)
  {
    hide MirrorsReached, MirrorsAre;
    MirrorsMean(c, s);
    forall mirrors | MirrorsAre(c, s, mirrors) ensures mirrors == MirrorsReached(c, s) {
      MirrorsAreOne(c, s, mirrors, MirrorsReached(c, s));
    }
  }

  /** What is said of a top level the configuration has: since when it is out,
      and which mirrors its source sends to. */
  ghost predicate TopRefusal(c: Config, ls: seq<Listing>, s: Source, e: Entry, u: Unplaceable) {
    s in c.sources && e in s.subvolumes && ReadOn(ls, s.volume) && TopAtMirror(c, s, e) &&
    u.volume == s.volume && u.name == "." && u.why.ReachesMirrors? && u.why.sourceTag == s.tag &&
    MirrorsAre(c, s, u.why.mirrors) &&
    match u.why.state
    case NotAdopted => false
    case RetiredNow => e.retired == None
    case RetiredOn(date) => e.retired == Some(date)
  }

  ghost predicate SomePrimary(c: Config) { exists t :: t in c.targets && t.role == Primary }

  /** A new name has nowhere to go: nothing above it, and no primary or a top
      level whose home sends to a mirror. */
  ghost predicate Homeless(c: Config, volume: string, name: string, why: Why) {
    (forall i: nat, k: nat :: !AboveAt(c.sources, volume, name, i, k)) &&
    match why
    case NoPrimary => !SomePrimary(c)
    case ReachesMirrors(state, tag, mirrors) =>
      SomePrimary(c) && name == "." && state == NotAdopted && HomeLabel(c.sources, volume, tag) && mirrors != [] &&
      exists i: nat :: HomeAt(c.sources, volume, tag, i) && MirrorsAre(c, c.sources[i], mirrors)
  }

  lemma TopRefusalMeans(c: Config, ls: seq<Listing>, s: Source, e: Entry, u: Unplaceable)
    ensures RefusedIn(c, ls, s, e) && u == RefusalOf(c, s.volume, s, e) <==> TopRefusal(c, ls, s, e, u)
  {
    hide MirrorsReached, MirrorsAre, TopAtMirror, RefusedTop, OnDisk, ReadOn, Read;
    MirrorsExactly(c, s);
    RefusedTopMeans(c, s, e);
    ListingMeans(ls, s.volume);
    OnlyTops(c, s, e);
  }

  lemma OnlyTops(c: Config, s: Source, e: Entry)
    ensures TopAtMirror(c, s, e) ==> e.name == "."
  {
  }

  lemma HomeLabelOne(sources: seq<Source>, v: string, a: string, b: string)
    requires HomeLabel(sources, v, a) && HomeLabel(sources, v, b)
    ensures a == b
  {
    hide Ordinary;
    if exists i: nat :: FirstOrdinary(sources, v, i) {
      var i: nat :| FirstOrdinary(sources, v, i);
    } else {
      var i: nat :| FirstAt(sources, v, i) && a == sources[i].tag;
      var j: nat :| FirstAt(sources, v, j) && b == sources[j].tag;
      assert i == j;
    }
  }

  lemma PrimaryMeans(c: Config)
    ensures HasPrimary(c) <==> SomePrimary(c)
  {
    if HasPrimary(c) {
      var i :| 0 <= i < |c.targets| && c.targets[i].role.Primary?;
      assert c.targets[i] in c.targets;
    }
  }

  lemma PlaceMeans(c: Config, v: string, n: string, why: Why)
    requires SourcesOn(c.sources, v) != []
    ensures PlaceIn(c, v, n) == Err(why) <==> Homeless(c, v, n, why)
  {
    NearestOfAll(c.sources, v, n);
    PrimaryMeans(c);
    HomeTagMeans(c, v);
    var tag := HomeTag(c, v, SourcesOn(c.sources, v));
    FindSourceFirst(c.sources, v, tag);
    var found := FindSource(SourcesOn(c.sources, v), tag);
    hide SourcesOn, Ancestor, Pairs, FindSource, HomeTag, ScopeOf, HomeLabel, MirrorsReached, MirrorsAre, NearestAt,
         AboveAt, HasPrimary, SomePrimary;
    NearestIsAbove(c.sources, v, n);
    forall other | HomeLabel(c.sources, v, other) ensures other == tag { HomeLabelOne(c.sources, v, other, tag); }
    if found.Some? { MirrorsExactly(c, found.value); }
    OneHome(c.sources, v, tag);
  }

  lemma NearestIsAbove(sources: seq<Source>, v: string, n: string)
    ensures forall i: nat, k: nat :: NearestAt(sources, v, n, i, k) ==> AboveAt(sources, v, n, i, k)
  {
    hide AboveAt;
  }

  ghost predicate CannotPlace(c: Config, ls: seq<Listing>, u: Unplaceable) {
    (exists s, e :: TopRefusal(c, ls, s, e, u)) ||
    (NewOn(c, ls, u.volume, u.name) && !KeptOut(c, u.name) && Homeless(c, u.volume, u.name, u.why))
  }

  lemma RefusedSomewhere(c: Config, ls: seq<Listing>, u: Unplaceable)
    ensures (exists v :: RefusalOn(c, ls, v, u)) <==> CannotPlace(c, ls, u)
  {
    hide RefusalOn, TopRefusal, NewOn, KeptOut, Homeless;
    if exists v :: RefusalOn(c, ls, v, u) {
      var v :| RefusalOn(c, ls, v, u);
      RefusalOnMeans(c, ls, v, u);
    }
    RefusalOnMeans(c, ls, u.volume, u);
    forall s, e | TopRefusal(c, ls, s, e, u) ensures RefusalOn(c, ls, s.volume, u) {
      RefusalOnMeans(c, ls, s.volume, u);
    }
  }

  /** What could not be placed, exactly: top levels the configuration has where
      a mirror is reached, and new names with nowhere to go. */
  lemma RefusalsMean(c: Config, ls: seq<Listing>)
    ensures forall u :: u in PlanFor(c, ls).unplaceable <==> CannotPlace(c, ls, u)
  {
    hide PlanFor, RefusalOn, CannotPlace;
    PlanRefusals(c, ls);
    forall u ensures (exists v :: RefusalOn(c, ls, v, u)) <==> CannotPlace(c, ls, u) { RefusedSomewhere(c, ls, u); }
  }

  lemma RefusalOnMeans(c: Config, ls: seq<Listing>, v: string, u: Unplaceable)
    ensures RefusalOn(c, ls, v, u) <==>
            (exists s, e :: TopRefusal(c, ls, s, e, u) && s.volume == v) ||
            (u.volume == v && NewOn(c, ls, v, u.name) && !KeptOut(c, u.name) && Homeless(c, v, u.name, u.why))
  {
    forall s, e ensures RefusedIn(c, ls, s, e) && u == RefusalOf(c, s.volume, s, e) <==> TopRefusal(c, ls, s, e, u) {
      TopRefusalMeans(c, ls, s, e, u);
    }
    NewMeans(c, ls, v, u.name);
    SkippedMeans(c, v, u.name);
    if SourcesOn(c.sources, v) != [] { PlaceMeans(c, v, u.name, u.why); }
    HasSources(c, ls, v, u.name);
    hide RefusalOf, RefusedIn, Skipped, SkipFor, PlaceIn, TopRefusal, NewOn, KeptOut, KeptOutBy, Homeless, SourcesOn,
         UnknownIn;
  }

  lemma HasSources(c: Config, ls: seq<Listing>, v: string, n: string)
    ensures UnknownIn(c, ls, v, n) ==> SourcesOn(c.sources, v) != []
  {
  }

  /** A new name is adopted exactly when nothing keeps it out and it has
      somewhere to go. */
  lemma AdoptedExactly(c: Config, ls: seq<Listing>, v: string, n: string)
    ensures (exists a :: a in PlanFor(c, ls).adopt && a.volume == v && a.name == n) <==>
            NewOn(c, ls, v, n) && !KeptOut(c, n) && forall why :: !Homeless(c, v, n, why)
  {
    hide PlanFor;
    PlanAdoptions(c, ls);
    AdoptsMeans(c, ls, v, n);
    hide NewOn, KeptOut, Homeless, Skipped, OnDisk, Read, Found, Configured;
    forall a | a in PlanFor(c, ls).adopt && a.volume == v && a.name == n ensures AdoptsIn(c, ls, v, n) {
      var w :| AdoptionOn(c, ls, w, a);
      var m :| AdoptsIn(c, ls, w, m) && PlaceIn(c, w, m) == Ok(a);
      HasSources(c, ls, w, m);
      PlacedMeans(c, w, m, a);
    }
    if AdoptsIn(c, ls, v, n) {
      HasSources(c, ls, v, n);
      var a := PlaceIn(c, v, n).value;
      PlacedMeans(c, v, n, a);
      assert AdoptionOn(c, ls, v, a);
    }
  }

  lemma AdoptsMeans(c: Config, ls: seq<Listing>, v: string, n: string)
    ensures AdoptsIn(c, ls, v, n) <==> NewOn(c, ls, v, n) && !KeptOut(c, n) && forall why :: !Homeless(c, v, n, why)
  {
    NewMeans(c, ls, v, n);
    SkippedMeans(c, v, n);
    HasSources(c, ls, v, n);
    if SourcesOn(c.sources, v) != [] {
      forall why ensures PlaceIn(c, v, n) == Err(why) <==> Homeless(c, v, n, why) { PlaceMeans(c, v, n, why); }
    }
    hide Skipped, SkipFor, NewOn, KeptOut, KeptOutBy, Homeless, SourcesOn, UnknownIn, PlaceIn;
  }

  /** The volumes that failed are those of the configuration that could not be
      listed, each with the reason given. */
  lemma FailedMean(c: Config, ls: seq<Listing>)
    ensures forall v, why :: (v, why) in PlanFor(c, ls).failed <==>
              (exists s :: s in c.sources && s.volume == v) && NotListed(ls, v, why)
  {
    VolumesFailed(c, ls, Volumes(c));
    forall v: string
      ensures v in Volumes(c) && SourcesOn(c.sources, v) != [] <==> exists s :: s in c.sources && s.volume == v
    {
      VolumeOfSome(c, v);
    }
    forall v, why ensures OnDisk(ls, v) == Err(why) <==> NotListed(ls, v, why) { ListingMeans(ls, v); }
    hide OnDisk, NotListed, VolumesPlan, Volumes, SourcesOn;
  }

  lemma VolumeOfSome(c: Config, v: string)
    ensures v in Volumes(c) && SourcesOn(c.sources, v) != [] <==> exists s :: s in c.sources && s.volume == v
  {
    VolumeHasSources(c, v);
    SourcesOnHolds(c.sources, v);
    var on := SourcesOn(c.sources, v);
    if on != [] { assert on[0] in on; }
  }

  lemma {:induction false} VolumesFailed(c: Config, ls: seq<Listing>, vs: seq<string>)
    ensures forall v, why :: (v, why) in VolumesPlan(c, ls, vs).failed <==>
              v in vs && SourcesOn(c.sources, v) != [] && OnDisk(ls, v) == Err(why)
  {
    hide KnownPlan, UnknownPlan, OnDisk, SourcesOn, Pairs, Unknown;
    if vs != [] {
      VolumesFailed(c, ls, vs[1..]);
      assert vs == [vs[0]] + vs[1..];
      OneVolumeFailed(c, ls, vs[0]);
    }
  }

  lemma OneVolumeFailed(c: Config, ls: seq<Listing>, v: string)
    ensures VolumePlan(c, ls, v).failed ==
            if SourcesOn(c.sources, v) != [] && OnDisk(ls, v).Err? then [(v, OnDisk(ls, v).error)] else []
  {
    hide KnownPlan, UnknownPlan, OnDisk, SourcesOn, Pairs, Unknown;
    var sources := SourcesOn(c.sources, v);
    if sources != [] && OnDisk(ls, v).Ok? {
      var found := OnDisk(ls, v).value;
      KnownPlanLists(c, v, found, Pairs(sources));
      UnknownPlanLists(c, v, sources, Unknown(found, sources));
    }
  }

  // ---------------------------------------------------------------------
  // In what order.

  /** What names one volume's subvolumes names them in order. */
  ghost predicate InOrder(s: seq<(string, string)>) {
    forall i, j :: 0 <= i < j < |s| && s[i].0 == s[j].0 ==> Less(s[i].1, s[j].1)
  }

  ghost predicate Only(s: seq<(string, string)>, volume: string) { forall i :: 0 <= i < |s| ==> s[i].0 == volume }

  ghost predicate Without(s: seq<(string, string)>, volume: string) { forall i :: 0 <= i < |s| ==> s[i].0 != volume }

  lemma OrderTogether(a: seq<(string, string)>, b: seq<(string, string)>, volume: string)
    requires InOrder(a) && InOrder(b) && Only(a, volume) && Without(b, volume)
    ensures InOrder(a + b)
  {
  }

  function NamesOf(adopt: seq<Adoption>): seq<(string, string)> {
    seq(|adopt|, i requires 0 <= i < |adopt| => (adopt[i].volume, adopt[i].name))
  }

  ghost function AdoptedNames(c: Config, v: string, sources: seq<Source>, names: seq<string>): seq<(string, string)>
    requires sources != []
  {
    NamesOf(UnknownPlan(c, v, sources, names).adopt)
  }

  lemma {:induction false} UnknownInOrder(c: Config, v: string, sources: seq<Source>, names: seq<string>)
    requires sources != [] && Ascending(names)
    ensures var s := AdoptedNames(c, v, sources, names);
            InOrder(s) && Only(s, v) && forall i :: 0 <= i < |s| ==> s[i].1 in names
    decreases |names|
  {
    if names != [] {
      assert Ascending(names[1..]) && forall i :: 0 < i < |names| ==> names[i] == names[1..][i - 1];
      FirstOfAscending(names);
      hide AdoptedNames, InOrder, Only, Ascending;
      UnknownInOrder(c, v, sources, names[1..]);
      var first := AdoptedNamesNext(c, v, sources, names);
      NameBefore(first, AdoptedNames(c, v, sources, names[1..]), v, names);
    }
  }

  lemma AdoptedNamesNext(c: Config, v: string, sources: seq<Source>, names: seq<string>)
    returns (first: seq<(string, string)>)
    requires sources != [] && names != []
    ensures first == [] || first == [(v, names[0])]
    ensures AdoptedNames(c, v, sources, names) == first + AdoptedNames(c, v, sources, names[1..])
  {
    NameStepAdopts(c, v, sources, names[0]);
    UnknownPlanNext(c, v, sources, names);
    hide NameStep, UnknownPlan;
    var a, rest := NameStep(c, v, sources, names[0]).adopt, UnknownPlan(c, v, sources, names[1..]).adopt;
    first := NamesOf(a);
    NamesTogether(a, rest);
  }

  lemma NamesTogether(a: seq<Adoption>, b: seq<Adoption>)
    ensures NamesOf(a + b) == NamesOf(a) + NamesOf(b)
  {
  }

  lemma UnknownPlanNext(c: Config, v: string, sources: seq<Source>, names: seq<string>)
    requires sources != [] && names != []
    ensures UnknownPlan(c, v, sources, names).adopt ==
            NameStep(c, v, sources, names[0]).adopt + UnknownPlan(c, v, sources, names[1..]).adopt
  {
    hide NameStep;
  }

  lemma FirstOfAscending(names: seq<string>)
    requires names != [] && Ascending(names)
    ensures forall n :: n in names[1..] ==> Less(names[0], n) && n in names
  {
    forall n | n in names[1..] ensures Less(names[0], n) && n in names {
      var j :| 0 <= j < |names[1..]| && names[1..][j] == n;
      assert names[j + 1] == n;
    }
  }

  lemma NameBefore(first: seq<(string, string)>, rest: seq<(string, string)>, v: string, names: seq<string>)
    requires names != [] && (first == [] || first == [(v, names[0])]) && InOrder(rest) && Only(rest, v)
    requires forall n :: n in names[1..] ==> Less(names[0], n) && n in names
    requires forall i :: 0 <= i < |rest| ==> rest[i].1 in names[1..]
    ensures InOrder(first + rest) && Only(first + rest, v)
    ensures forall i :: 0 <= i < |first + rest| ==> (first + rest)[i].1 in names
  {
    if first == [] { assert first + rest == rest; }
  }

  lemma NameStepAdopts(c: Config, v: string, sources: seq<Source>, name: string)
    requires sources != []
    ensures var a := NameStep(c, v, sources, name).adopt;
            a == [] || (|a| == 1 && a[0].volume == v && a[0].name == name)
  {
    hide Skipped, SkipFor, Ancestor, HasPrimary, HomeTag, FindSource, ScopeOf, MirrorsReached;
  }

  lemma VolumeInOrder(c: Config, ls: seq<Listing>, v: string)
    ensures var s := NamesOf(VolumePlan(c, ls, v).adopt); InOrder(s) && Only(s, v)
  {
    hide KnownPlan, UnknownPlan, OnDisk, SourcesOn, Pairs, Unknown;
    var sources := SourcesOn(c.sources, v);
    if sources != [] && OnDisk(ls, v).Ok? {
      var found := OnDisk(ls, v).value;
      KnownPlanLists(c, v, found, Pairs(sources));
      UnknownHolds(found, sources);
      UnknownInOrder(c, v, sources, Unknown(found, sources));
      assert [] + UnknownPlan(c, v, sources, Unknown(found, sources)).adopt ==
             UnknownPlan(c, v, sources, Unknown(found, sources)).adopt;
    }
  }

  lemma {:induction false} VolumesInOrder(c: Config, ls: seq<Listing>, vs: seq<string>)
    requires Distinct(vs)
    ensures var s := NamesOf(VolumesPlan(c, ls, vs).adopt);
            InOrder(s) && forall i :: 0 <= i < |s| ==> s[i].0 in vs
  {
    hide VolumePlan;
    if vs != [] {
      VolumesInOrder(c, ls, vs[1..]);
      VolumeInOrder(c, ls, vs[0]);
      assert forall i :: 0 < i < |vs| ==> vs[i] == vs[1..][i - 1];
      assert vs[0] !in vs[1..];
      var first, rest := VolumePlan(c, ls, vs[0]).adopt, VolumesPlan(c, ls, vs[1..]).adopt;
      assert NamesOf(first + rest) == NamesOf(first) + NamesOf(rest);
      OrderTogether(NamesOf(first), NamesOf(rest), vs[0]);
    }
  }

  /** One volume's adoptions come in the order of their names, so which of two
      gets the plain snapshot name does not depend on how they were found. */
  lemma AdoptionsInOrder(c: Config, ls: seq<Listing>)
    ensures InOrder(NamesOf(PlanFor(c, ls).adopt))
  {
    VolumesFromDistinct([], c.sources);
    VolumesInOrder(c, ls, Volumes(c));
  }
}
