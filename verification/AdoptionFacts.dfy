// What adopted subvolumes and the sources made for them are, in terms of the
// configuration alone (indexer/src/adopt.rs).
module AdoptionFacts {
  import opened Base
  import opened Config
  import opened Glob
  import opened Names
  import opened NameFacts
  import opened Sync
  import opened SyncFacts
  import opened Apply
  import opened Adopting
  import opened Settle
  import opened Settled
  import opened Fixpoint

  // ---------------------------------------------------------------------
  // The nearest ancestor.

  /** Entry `k` of source `i` is live, on the volume, and above `name`. */
  ghost predicate AboveAt(sources: seq<Source>, volume: string, name: string, i: nat, k: nat) {
    i < |sources| && k < |sources[i].subvolumes| && sources[i].volume == volume &&
    sources[i].subvolumes[k].retired.None? && LiesBelow(name, sources[i].subvolumes[k].name)
  }

  /** `child` is `parent`, a slash, and more or nothing. */
  ghost predicate LiesBelow(child: string, parent: string) { exists rest: string :: child == parent + "/" + rest }

  lemma NestedIsBelow(child: string, parent: string)
    ensures NestedUnder(child, parent) <==> LiesBelow(child, parent)
  {
    if NestedUnder(child, parent) {
      assert child == parent + "/" + child[|parent| + 1..];
    }
    if LiesBelow(child, parent) {
      var rest :| child == parent + "/" + rest;
      assert parent <= parent + ("/" + rest) && child == parent + ("/" + rest);
    }
  }

  /** It has the longest name of all above, and is the last declared of those
      equally long. */
  ghost predicate NearestAt(sources: seq<Source>, volume: string, name: string, i: nat, k: nat) {
    AboveAt(sources, volume, name, i, k) &&
    forall j: nat, l: nat :: AboveAt(sources, volume, name, j, l) ==>
      |sources[j].subvolumes[l].name| < |sources[i].subvolumes[k].name| ||
      (|sources[j].subvolumes[l].name| == |sources[i].subvolumes[k].name| && (j < i || (j == i && l <= k)))
  }

  /** The last of the longest in two lists. */
  function Later(a: Option<(Source, Entry)>, b: Option<(Source, Entry)>): Option<(Source, Entry)> {
    if b.Some? && (a.None? || |a.value.1.name| <= |b.value.1.name|) then b else a
  }

  lemma {:induction false} AncestorParts(a: seq<(Source, Entry)>, b: seq<(Source, Entry)>, name: string)
    ensures Ancestor(a + b, name) == Later(Ancestor(a, name), Ancestor(b, name))
    decreases |b|
  {
    if b == [] {
      assert a + b == a;
    } else {
      var last := b[|b| - 1];
      AncestorParts(a, b[..|b| - 1], name);
      assert (a + b)[..|a + b| - 1] == a + b[..|b| - 1];
    }
  }

  lemma {:induction false} SourcesOnParts(a: seq<Source>, b: seq<Source>, v: string)
    ensures SourcesOn(a + b, v) == SourcesOn(a, v) + SourcesOn(b, v)
  {
    if a == [] {
      assert a + b == b;
    } else {
      SourcesOnParts(a[1..], b, v);
      assert (a + b)[1..] == a[1..] + b && (a + b)[0] == a[0];
      var x, y := SourcesOn(a[1..], v), SourcesOn(b, v);
      assert [a[0]] + (x + y) == ([a[0]] + x) + y;
    }
  }

  /** Entry `k` is the nearest of the first `n` of `s`. */
  ghost predicate NearestIn(s: Source, n: nat, name: string, k: nat) {
    k < n <= |s.subvolumes| && Lends(s.subvolumes[k], name) &&
    forall l: nat :: l < n && Lends(s.subvolumes[l], name) ==>
      |s.subvolumes[l].name| < |s.subvolumes[k].name| ||
      (|s.subvolumes[l].name| == |s.subvolumes[k].name| && l <= k)
  }

  ghost predicate Lends(e: Entry, name: string) { e.retired.None? && LiesBelow(name, e.name) }

  lemma {:induction false} NearestOfSource(s: Source, n: nat, name: string)
    requires n <= |s.subvolumes|
    ensures match Ancestor(PairsOf(s, s.subvolumes[..n]), name)
            case Some(p) => exists k: nat :: NearestIn(s, n, name, k) && p == (s, s.subvolumes[k])
            case None => forall k: nat :: k < n ==> !Lends(s.subvolumes[k], name)
  {
    hide LiesBelow;
    if n > 0 {
      NearestOfSource(s, n - 1, name);
      var e := s.subvolumes[n - 1];
      NestedIsBelow(name, e.name);
      assert s.subvolumes[..n] == s.subvolumes[..n - 1] + [e];
      PairsOfParts(s, s.subvolumes[..n - 1], [e]);
      assert [e][1..] == [] && PairsOf(s, [e]) == [(s, e)];
      AncestorParts(PairsOf(s, s.subvolumes[..n - 1]), [(s, e)], name);
      assert [(s, e)][..0] == [];
      OneMoreInSource(s, n, name);
    }
  }

  lemma OneMoreInSource(s: Source, n: nat, name: string)
    requires 0 < n <= |s.subvolumes|
    ensures forall k: nat :: NearestIn(s, n - 1, name, k) ==>
              if Lends(s.subvolumes[n - 1], name) && |s.subvolumes[k].name| <= |s.subvolumes[n - 1].name|
              then NearestIn(s, n, name, n - 1) else NearestIn(s, n, name, k)
    ensures (forall k: nat :: k < n - 1 ==> !Lends(s.subvolumes[k], name)) && Lends(s.subvolumes[n - 1], name) ==>
              NearestIn(s, n, name, n - 1)
  {
    hide Lends;
  }

  /** `r` is the nearest of `s`'s entries, if any lends itself. */
  ghost predicate ChoiceIn(s: Source, name: string, r: Option<(Source, Entry)>) {
    if r.Some? then exists k: nat :: NearestIn(s, |s.subvolumes|, name, k) && r.value == (s, s.subvolumes[k])
    else forall k: nat :: k < |s.subvolumes| ==> !Lends(s.subvolumes[k], name)
  }

  /** `r` is the nearest of all entries on the volume, if any is above. */
  ghost predicate ChoiceIs(sources: seq<Source>, v: string, name: string, r: Option<(Source, Entry)>) {
    if r.Some? then exists i: nat, k: nat :: NearestAt(sources, v, name, i, k) &&
                                             r.value == (sources[i], sources[i].subvolumes[k])
    else forall i: nat, k: nat :: !AboveAt(sources, v, name, i, k)
  }

  lemma ChoiceOfSource(s: Source, name: string)
    ensures ChoiceIn(s, name, Ancestor(PairsOf(s, s.subvolumes), name))
  {
    hide LiesBelow, NearestIn, Lends, Ancestor, PairsOf;
    NearestOfSource(s, |s.subvolumes|, name);
    assert s.subvolumes[..|s.subvolumes|] == s.subvolumes;
  }

  lemma AboveInAll(before: seq<Source>, s: Source, v: string, name: string)
    ensures forall i: nat, k: nat :: AboveAt(before + [s], v, name, i, k) <==>
              AboveAt(before, v, name, i, k) ||
              (i == |before| && k < |s.subvolumes| && s.volume == v && Lends(s.subvolumes[k], name))
  {
    hide LiesBelow;
  }

  /** The longer of two, the later one on a tie. */
  lemma BothChosen(before: seq<Source>, s: Source, v: string, name: string, i: nat, k: nat, l: nat)
    requires s.volume == v && NearestAt(before, v, name, i, k) && NearestIn(s, |s.subvolumes|, name, l)
    ensures if |before[i].subvolumes[k].name| <= |s.subvolumes[l].name|
            then NearestAt(before + [s], v, name, |before|, l) else NearestAt(before + [s], v, name, i, k)
  {
    hide LiesBelow;
    AboveInAll(before, s, v, name);
  }

  lemma OldChosen(before: seq<Source>, s: Source, v: string, name: string, i: nat, k: nat)
    requires NearestAt(before, v, name, i, k)
    requires s.volume != v || forall l: nat :: l < |s.subvolumes| ==> !Lends(s.subvolumes[l], name)
    ensures i < |before| && k < |before[i].subvolumes| && NearestAt(before + [s], v, name, i, k)
  {
    hide LiesBelow;
    AboveInAll(before, s, v, name);
  }

  lemma NewChosen(before: seq<Source>, s: Source, v: string, name: string, l: nat)
    requires s.volume == v && NearestIn(s, |s.subvolumes|, name, l)
    requires forall i: nat, k: nat :: !AboveAt(before, v, name, i, k)
    ensures NearestAt(before + [s], v, name, |before|, l)
  {
    hide LiesBelow;
    AboveInAll(before, s, v, name);
  }

  lemma NoneChosen(before: seq<Source>, s: Source, v: string, name: string)
    requires s.volume != v || forall l: nat :: l < |s.subvolumes| ==> !Lends(s.subvolumes[l], name)
    requires forall i: nat, k: nat :: !AboveAt(before, v, name, i, k)
    ensures forall i: nat, k: nat :: !AboveAt(before + [s], v, name, i, k)
  {
    hide LiesBelow;
    AboveInAll(before, s, v, name);
  }

  lemma ChoiceWith(before: seq<Source>, s: Source, v: string, name: string, x: Option<(Source, Entry)>,
                   y: Option<(Source, Entry)>)
    requires s.volume == v && ChoiceIs(before, v, name, x) && ChoiceIn(s, name, y)
    ensures ChoiceIs(before + [s], v, name, Later(x, y))
  {
    if x.Some? {
      var i: nat, k: nat :| NearestAt(before, v, name, i, k) && x.value == (before[i], before[i].subvolumes[k]);
      if y.Some? {
        var l: nat :| NearestIn(s, |s.subvolumes|, name, l) && y.value == (s, s.subvolumes[l]);
        hide NearestAt, NearestIn;
        BothChosen(before, s, v, name, i, k, l);
      } else {
        OldChosen(before, s, v, name, i, k);
      }
    } else if y.Some? {
      var l: nat :| NearestIn(s, |s.subvolumes|, name, l) && y.value == (s, s.subvolumes[l]);
      NewChosen(before, s, v, name, l);
    } else {
      NoneChosen(before, s, v, name);
    }
  }

  lemma ChoiceWithout(before: seq<Source>, s: Source, v: string, name: string, x: Option<(Source, Entry)>)
    requires s.volume != v && ChoiceIs(before, v, name, x)
    ensures ChoiceIs(before + [s], v, name, x)
  {
    if x.Some? {
      var i: nat, k: nat :| NearestAt(before, v, name, i, k) && x.value == (before[i], before[i].subvolumes[k]);
      OldChosen(before, s, v, name, i, k);
    } else {
      NoneChosen(before, s, v, name);
    }
  }

  lemma AncestorWith(before: seq<Source>, s: Source, v: string, name: string)
    ensures Ancestor(Pairs(SourcesOn(before + [s], v)), name) ==
            if s.volume == v
            then Later(Ancestor(Pairs(SourcesOn(before, v)), name), Ancestor(PairsOf(s, s.subvolumes), name))
            else Ancestor(Pairs(SourcesOn(before, v)), name)
  {
    hide Ancestor, Later, PairsOf;
    SourcesOnParts(before, [s], v);
    assert [s][1..] == [];
    if s.volume == v {
      assert SourcesOn([s], v) == [s];
      PairsParts(SourcesOn(before, v), [s]);
      assert Pairs([s]) == PairsOf(s, s.subvolumes);
      AncestorParts(Pairs(SourcesOn(before, v)), PairsOf(s, s.subvolumes), name);
    } else {
      assert SourcesOn([s], v) == [] && SourcesOn(before, v) + [] == SourcesOn(before, v);
    }
  }

  /** The planner's choice is the nearest of all. */
  lemma {:induction false} NearestOfAll(sources: seq<Source>, v: string, name: string)
    ensures ChoiceIs(sources, v, name, Ancestor(Pairs(SourcesOn(sources, v)), name))
    decreases |sources|
  {
    if sources != [] {
      hide ChoiceIs, ChoiceIn, Ancestor, Pairs, SourcesOn, PairsOf, Later;
      var before, s := sources[..|sources| - 1], sources[|sources| - 1];
      NearestOfAll(before, v, name);
      assert sources == before + [s];
      AncestorWith(before, s, v, name);
      ChoiceOfSource(s, name);
      var x, y := Ancestor(Pairs(SourcesOn(before, v)), name), Ancestor(PairsOf(s, s.subvolumes), name);
      if s.volume == v {
        ChoiceWith(before, s, v, name, x, y);
      } else {
        ChoiceWithout(before, s, v, name, x);
      }
    }
  }

  // ---------------------------------------------------------------------
  // The home of what has no ancestor, and where that sends.

  /** Target `i` is one `s` sends to: it is named by `s`, or `s` names none. */
  ghost predicate Reaches(targets: seq<Target>, s: Source, i: nat) {
    i < |targets| && (s.targetLabels == [] || targets[i].tag in s.targetLabels)
  }

  /** `at` lists, in order, exactly the targets `s` sends to. */
  ghost predicate ReachedAt(targets: seq<Target>, s: Source, at: seq<nat>) {
    (forall m, n :: 0 <= m < n < |at| ==> at[m] < at[n]) &&
    (forall m :: 0 <= m < |at| ==> Reaches(targets, s, at[m])) &&
    forall i: nat :: Reaches(targets, s, i) ==> i in at
  }

  /** `sent` is those targets. */
  ghost predicate SentTo(targets: seq<Target>, s: Source, sent: seq<Target>, at: seq<nat>) {
    ReachedAt(targets, s, at) && |sent| == |at| &&
    forall m :: 0 <= m < |at| ==> at[m] < |targets| && sent[m] == targets[at[m]]
  }

  lemma {:induction false} TargetsReached(targets: seq<Target>, s: Source) returns (at: seq<nat>)
    ensures SentTo(targets, s, TargetsOf(targets, s), at)
  {
    if targets == [] {
      at := [];
    } else {
      var before, t := targets[..|targets| - 1], targets[|targets| - 1];
      at := TargetsReached(before, s);
      assert targets == before + [t];
      TargetsOfParts(before, [t], s);
      assert [t][1..] == [] && TargetsOf(before, s) + [] == TargetsOf(before, s);
      hide SentTo;
      OneMoreSent(before, t, s, TargetsOf(before, s), at);
      at := if SendsTo(s, t) then at + [|before|] else at;
    }
  }

  lemma OneMoreSent(before: seq<Target>, t: Target, s: Source, sent: seq<Target>, at: seq<nat>)
    requires SentTo(before, s, sent, at)
    ensures SendsTo(s, t) ==> SentTo(before + [t], s, sent + [t], at + [|before|])
    ensures !SendsTo(s, t) ==> SentTo(before + [t], s, sent, at)
  {
    OneMoreReached(before, t, s, at);
    hide ReachedAt, SendsTo;
    var all := before + [t];
    assert forall m :: 0 <= m < |before| ==> all[m] == before[m];
    assert all[|before|] == t;
  }

  lemma {:induction false} TargetsOfParts(a: seq<Target>, b: seq<Target>, s: Source)
    ensures TargetsOf(a + b, s) == TargetsOf(a, s) + TargetsOf(b, s)
  {
    if a == [] {
      assert a + b == b;
    } else {
      TargetsOfParts(a[1..], b, s);
      assert (a + b)[1..] == a[1..] + b;
    }
  }

  lemma OneMoreReached(before: seq<Target>, t: Target, s: Source, at: seq<nat>)
    requires ReachedAt(before, s, at)
    ensures ReachedAt(before + [t], s, if SendsTo(s, t) then at + [|before|] else at)
  {
    var now := if SendsTo(s, t) then at + [|before|] else at;
    forall i: nat | Reaches(before + [t], s, i) ensures i in now {
      if i < |before| {
        assert Reaches(before, s, i);
      } else {
        assert now[|at|] == i;
      }
    }
  }

  /** The labels of the targets `s` sends to, in the order of the file. */
  ghost predicate LabelsReached(targets: seq<Target>, s: Source, tags: seq<string>) {
    exists at :: ReachedAt(targets, s, at) && |tags| == |at| &&
      forall m :: 0 <= m < |at| ==> at[m] < |targets| && tags[m] == targets[at[m]].tag
  }

  lemma {:induction false} TagsOfMeans(targets: seq<Target>)
    ensures |TagsOf(targets)| == |targets| && forall i :: 0 <= i < |targets| ==> TagsOf(targets)[i] == targets[i].tag
  {
    if targets != [] { TagsOfMeans(targets[1..]); }
  }

  /** What a report says of where `s` sends. */
  ghost predicate ScopeIs(targets: seq<Target>, s: Source, scope: Scope) {
    match scope
    case AsParent(_) => false
    case NoTarget => forall i: nat :: !Reaches(targets, s, i)
    case PrimaryOnly =>
      exists i: nat :: Reaches(targets, s, i) && targets[i].role.Primary? &&
                       forall j: nat :: Reaches(targets, s, j) ==> j == i
    case Primaries(tags) =>
      LabelsReached(targets, s, tags) && |tags| > 1 &&
      forall i: nat :: Reaches(targets, s, i) ==> targets[i].role.Primary?
    case Tags(tags) =>
      LabelsReached(targets, s, tags) && exists i: nat :: Reaches(targets, s, i) && targets[i].role.Mirror?
  }

  lemma ScopeMeans(c: Config, s: Source)
    ensures ScopeIs(c.targets, s, ScopeOf(c, s))
  {
    var at := TargetsReached(c.targets, s);
    var reached := TargetsOf(c.targets, s);
    TagsOfMeans(reached);
    hide TargetsOf, TagsOf;
    hide ReachedAt;
    ReachedRoles(c.targets, s, at, reached);
    assert LabelsReached(c.targets, s, TagsOf(reached));
  }

  lemma ReachedRoles(targets: seq<Target>, s: Source, at: seq<nat>, reached: seq<Target>)
    requires SentTo(targets, s, reached, at)
    ensures (exists m :: 0 <= m < |reached| && !reached[m].role.Primary?) <==>
            exists i: nat :: Reaches(targets, s, i) && targets[i].role.Mirror?
    ensures reached == [] ==> forall i: nat :: !Reaches(targets, s, i)
    ensures |reached| == 1 && reached[0].role.Primary? ==> ScopeIs(targets, s, PrimaryOnly)
  {
    if exists i: nat :: Reaches(targets, s, i) && targets[i].role.Mirror? {
      var i: nat :| Reaches(targets, s, i) && targets[i].role.Mirror?;
      var m :| 0 <= m < |at| && at[m] == i;
      assert reached[m] == targets[i];
    }
    if exists m :: 0 <= m < |reached| && !reached[m].role.Primary? {
      var m :| 0 <= m < |reached| && !reached[m].role.Primary?;
      assert Reaches(targets, s, at[m]);
    }
    if |reached| == 1 { assert Reaches(targets, s, at[0]); }
  }

  /** A label that is not an adoption source's. */
  predicate Ordinary(tag: string) { !(|tag| >= 8 && tag[|tag| - 8..] == "-adopted") }

  ghost predicate FirstOrdinary(sources: seq<Source>, volume: string, i: nat) {
    i < |sources| && sources[i].volume == volume && Ordinary(sources[i].tag) &&
    forall j :: 0 <= j < i ==> sources[j].volume != volume || !Ordinary(sources[j].tag)
  }

  ghost predicate FirstAt(sources: seq<Source>, volume: string, i: nat) {
    i < |sources| && sources[i].volume == volume && forall j :: 0 <= j < i ==> sources[j].volume != volume
  }

  /** The label of the home: the volume's first ordinary source's with
      `-adopted`; where every source there is an adoption source, the first's. */
  ghost predicate HomeLabel(sources: seq<Source>, volume: string, tag: string) {
    (forall i: nat :: FirstOrdinary(sources, volume, i) ==> tag == sources[i].tag + "-adopted") &&
    ((forall i: nat :: !FirstOrdinary(sources, volume, i)) ==>
       exists i: nat :: FirstAt(sources, volume, i) && tag == sources[i].tag)
  }

  lemma {:induction false} AdoptionTagFirst(sources: seq<Source>, v: string)
    ensures match AdoptionTag(sources, v)
            case Some(tag) => exists i: nat :: FirstOrdinary(sources, v, i) && tag == sources[i].tag + "-adopted"
            case None => forall i: nat :: !FirstOrdinary(sources, v, i)
  {
    if sources != [] {
      AdoptionTagFirst(sources[1..], v);
      OrdinaryIs(sources[0].tag);
      FirstOfTail(sources, v);
    }
  }

  lemma OrdinaryIs(tag: string)
    ensures Ordinary(tag) <==> !IsAdoptionTag(tag)
  {
  }

  lemma FirstOfTail(sources: seq<Source>, v: string)
    requires sources != []
    ensures sources[0].volume == v && Ordinary(sources[0].tag) ==> FirstOrdinary(sources, v, 0)
    ensures !(sources[0].volume == v && Ordinary(sources[0].tag)) ==>
              (forall i: nat :: FirstOrdinary(sources[1..], v, i) ==> FirstOrdinary(sources, v, i + 1)) &&
              !FirstOrdinary(sources, v, 0) &&
              (forall i: nat :: i > 0 && FirstOrdinary(sources, v, i) ==> FirstOrdinary(sources[1..], v, i - 1))
  {
    hide Ordinary;
    assert forall j :: 0 <= j < |sources| - 1 ==> sources[1..][j] == sources[j + 1];
    forall i: nat | i > 0 && FirstOrdinary(sources, v, i) && !(sources[0].volume == v && Ordinary(sources[0].tag))
      ensures FirstOrdinary(sources[1..], v, i - 1)
    {
      assert sources[1..][i - 1] == sources[i];
    }
  }

  lemma {:induction false} SourcesOnFirst(sources: seq<Source>, v: string)
    requires SourcesOn(sources, v) != []
    ensures exists i: nat :: FirstAt(sources, v, i) && SourcesOn(sources, v)[0] == sources[i]
  {
    if sources[0].volume == v {
      assert FirstAt(sources, v, 0);
    } else {
      SourcesOnFirst(sources[1..], v);
      var i: nat :| FirstAt(sources[1..], v, i) && SourcesOn(sources[1..], v)[0] == sources[1..][i];
      assert forall j :: 0 < j < |sources| ==> sources[1..][j - 1] == sources[j];
      assert FirstAt(sources, v, i + 1);
    }
  }

  lemma HomeTagMeans(c: Config, v: string)
    requires SourcesOn(c.sources, v) != []
    ensures HomeLabel(c.sources, v, HomeTag(c, v, SourcesOn(c.sources, v)))
  {
    AdoptionTagFirst(c.sources, v);
    SourcesOnFirst(c.sources, v);
    hide SourcesOn, AdoptionTag, Ordinary;
    OneFirst(c.sources, v);
  }

  lemma OneFirst(sources: seq<Source>, v: string)
    ensures forall i: nat, j: nat :: FirstOrdinary(sources, v, i) && FirstOrdinary(sources, v, j) ==> i == j
  {
  }

  /** The home is there already, on the volume. */
  ghost predicate HomeAt(sources: seq<Source>, volume: string, tag: string, i: nat) {
    i < |sources| && sources[i].volume == volume && sources[i].tag == tag &&
    forall j :: 0 <= j < i ==> sources[j].volume != volume || sources[j].tag != tag
  }

  lemma {:induction false} FindSourceFirst(sources: seq<Source>, v: string, tag: string)
    ensures match FindSource(SourcesOn(sources, v), tag)
            case Some(home) => exists i: nat :: HomeAt(sources, v, tag, i) && home == sources[i]
            case None => forall i: nat :: !HomeAt(sources, v, tag, i)
  {
    if sources != [] {
      FindSourceFirst(sources[1..], v, tag);
      HomeOfTail(sources, v, tag);
      var on := SourcesOn(sources, v);
      if sources[0].volume == v { assert on[1..] == SourcesOn(sources[1..], v); }
    }
  }

  lemma HomeOfTail(sources: seq<Source>, v: string, tag: string)
    requires sources != []
    ensures sources[0].volume == v && sources[0].tag == tag ==> HomeAt(sources, v, tag, 0)
    ensures !(sources[0].volume == v && sources[0].tag == tag) ==>
              (forall i: nat :: HomeAt(sources[1..], v, tag, i) ==> HomeAt(sources, v, tag, i + 1)) &&
              !HomeAt(sources, v, tag, 0) &&
              (forall i: nat :: i > 0 && HomeAt(sources, v, tag, i) ==> HomeAt(sources[1..], v, tag, i - 1))
  {
    assert forall j :: 0 <= j < |sources| - 1 ==> sources[1..][j] == sources[j + 1];
    forall i: nat | i > 0 && HomeAt(sources, v, tag, i) && !(sources[0].volume == v && sources[0].tag == tag)
      ensures HomeAt(sources[1..], v, tag, i - 1)
    {
      assert sources[1..][i - 1] == sources[i];
    }
  }

  // ---------------------------------------------------------------------
  // What an adoption says.

  /** As under its nearest ancestor: in that one's source, manual exactly if
      that one is, and sent where that one is sent. */
  ghost predicate LikeItsParent(c: Config, a: Adoption) {
    exists i: nat, k: nat :: NearestAt(c.sources, a.volume, a.name, i, k) && a.sourceTag == c.sources[i].tag &&
      a.nestedUnder == Some(c.sources[i].subvolumes[k].name) &&
      a.manualOnly == c.sources[i].subvolumes[k].manualOnly && a.scope == AsParent(c.sources[i].subvolumes[k].name)
  }

  /** With nothing above it: in the volume's adoption source, not manual, and
      where that source sends; one yet to be made sends to a primary only. */
  ghost predicate OnItsOwn(c: Config, a: Adoption) {
    a.nestedUnder == None && !a.manualOnly && HomeLabel(c.sources, a.volume, a.sourceTag) &&
    (forall i: nat :: HomeAt(c.sources, a.volume, a.sourceTag, i) ==> ScopeIs(c.targets, c.sources[i], a.scope)) &&
    ((forall i: nat :: !HomeAt(c.sources, a.volume, a.sourceTag, i)) ==> a.scope == PrimaryOnly)
  }

  lemma PlacedUnder(c: Config, v: string, n: string, a: Adoption, i: nat, k: nat)
    requires SourcesOn(c.sources, v) != [] && PlaceIn(c, v, n) == Ok(a) && NearestAt(c.sources, v, n, i, k)
    requires Ancestor(Pairs(SourcesOn(c.sources, v)), n) == Some((c.sources[i], c.sources[i].subvolumes[k]))
    ensures a.volume == v && a.name == n && LikeItsParent(c, a)
  {
    hide SourcesOn, Ancestor, Pairs, NearestAt;
  }

  lemma PlacedAlone(c: Config, v: string, n: string, a: Adoption)
    requires SourcesOn(c.sources, v) != [] && PlaceIn(c, v, n) == Ok(a)
    requires Ancestor(Pairs(SourcesOn(c.sources, v)), n) == None
    ensures a.volume == v && a.name == n && OnItsOwn(c, a)
  {
    HomeTagMeans(c, v);
    FindSourceFirst(c.sources, v, a.sourceTag);
    forall s ensures ScopeIs(c.targets, s, ScopeOf(c, s)) { ScopeMeans(c, s); }
    OneHome(c.sources, v, a.sourceTag);
    hide SourcesOn, Ancestor, Pairs, FindSource, HomeTag, ScopeOf, MirrorsReached, ScopeIs, HomeLabel, HomeAt;
  }

  lemma PlacedMeans(c: Config, v: string, n: string, a: Adoption)
    requires SourcesOn(c.sources, v) != [] && PlaceIn(c, v, n) == Ok(a)
    ensures a.volume == v && a.name == n
    ensures if exists i: nat, k: nat :: AboveAt(c.sources, v, n, i, k) then LikeItsParent(c, a) else OnItsOwn(c, a)
  {
    hide SourcesOn, Ancestor, Pairs, PlaceIn, LikeItsParent, OnItsOwn, LiesBelow;
    NearestOfAll(c.sources, v, n);
    var r := Ancestor(Pairs(SourcesOn(c.sources, v)), n);
    if r.Some? {
      var i: nat, k: nat :| NearestAt(c.sources, v, n, i, k) && r.value == (c.sources[i], c.sources[i].subvolumes[k]);
      PlacedUnder(c, v, n, a, i, k);
    } else {
      PlacedAlone(c, v, n, a);
    }
  }

  lemma OneHome(sources: seq<Source>, v: string, tag: string)
    ensures forall i: nat, j: nat :: HomeAt(sources, v, tag, i) && HomeAt(sources, v, tag, j) ==> i == j
  {
  }

  /** Every adoption of a plan: a name found on its volume that no entry there
      has, placed as its nearest live ancestor is, or on its own where there is
      none. */
  lemma AdoptionsMean(c: Config, ls: seq<Listing>, a: Adoption)
    requires a in PlanFor(c, ls).adopt
    ensures a.name in Found(ls, a.volume)
    ensures forall i: nat, k: nat ::
              i < |c.sources| && k < |c.sources[i].subvolumes| && c.sources[i].volume == a.volume ==>
              c.sources[i].subvolumes[k].name != a.name
    ensures if exists i: nat, k: nat :: AboveAt(c.sources, a.volume, a.name, i, k) then LikeItsParent(c, a)
            else OnItsOwn(c, a)
  {
    hide PlanFor, Place, SourcesOn, Configured, OnDisk, Skipped, AboveAt, LikeItsParent, OnItsOwn;
    PlanAdoptions(c, ls);
    var v :| AdoptionOn(c, ls, v, a);
    var n :| AdoptsIn(c, ls, v, n) && PlaceIn(c, v, n) == Ok(a);
    UnknownHasSources(c, ls, v, n);
    PlacedMeans(c, v, n, a);
    forall i: nat, k: nat | i < |c.sources| && k < |c.sources[i].subvolumes| && c.sources[i].volume == v
      ensures c.sources[i].subvolumes[k].name != n
    {
      ConfiguredBy(c, i, k);
    }
  }

  // ---------------------------------------------------------------------
  // The sources made, and the names given.

  lemma {:induction false} FirstPrimaryMeans(targets: seq<Target>)
    ensures if exists i :: 0 <= i < |targets| && targets[i].role.Primary?
            then exists i :: 0 <= i < |targets| && targets[i].role.Primary? &&
                             FirstPrimary(targets) == [targets[i].tag] &&
                             forall j :: 0 <= j < i ==> targets[j].role.Mirror?
            else FirstPrimary(targets) == []
  {
    if targets != [] {
      FirstPrimaryMeans(targets[1..]);
      assert forall i :: 0 < i < |targets| ==> targets[1..][i - 1] == targets[i];
      if !targets[0].role.Primary? && exists i :: 0 <= i < |targets| && targets[i].role.Primary? {
        var w :| 0 <= w < |targets| && targets[w].role.Primary?;
        assert targets[1..][w - 1].role.Primary?;
        var i :| 0 <= i < |targets[1..]| && targets[1..][i].role.Primary? &&
                 FirstPrimary(targets[1..]) == [targets[1..][i].tag] &&
                 forall j :: 0 <= j < i ==> targets[1..][j].role.Mirror?;
        assert targets[i + 1] == targets[1..][i];
      }
    }
  }

  /** A source `apply_plan` makes: on its volume with the device and snapshot
      directory of the first source there, in a subdirectory of its own, and
      sent to the first primary target only. */
  ghost predicate MadeLike(c: Config, s: Source) {
    (exists i: nat :: FirstAt(c.sources, s.volume, i) && s.device == c.sources[i].device &&
                      s.snapshotDir == c.sources[i].snapshotDir) &&
    s.targetSubdirs == [s.tag] &&
    if exists i :: 0 <= i < |c.targets| && c.targets[i].role.Primary?
    then exists i :: 0 <= i < |c.targets| && c.targets[i].role.Primary? && s.targetLabels == [c.targets[i].tag] &&
                     forall j :: 0 <= j < i ==> c.targets[j].role.Mirror?
    else s.targetLabels == []
  }

  lemma MadeSources(c: Config, ls: seq<Listing>, p: Plan, today: string, i: nat)
    requires WellNamed(c) && HoldsBackOnlyRetirements(p, PlanFor(c, ls)) && Applied(c, p, today).Ok?
    requires |c.sources| <= i < |Applied(c, p, today).value.sources|
    ensures MadeLike(c, Applied(c, p, today).value.sources[i])
    ensures exists a :: a in p.adopt && Applied(c, p, today).value.sources[i].tag == a.sourceTag
  {
    hide PlanFor, Applied, WellNamed, Settled.Outcome;
    AppliedIsOutcome(c, ls, p, today);
    var out := Applied(c, p, today).value;
    var a := NewSources(c, ls, p, today, out, i);
    FirstPrimaryMeans(c.targets);
    var s := out.sources[i];
    var j :| 0 <= j < |c.sources| && c.sources[j].volume == s.volume &&
             (forall l :: 0 <= l < j ==> c.sources[l].volume != s.volume) &&
             s.device == c.sources[j].device && s.snapshotDir == c.sources[j].snapshotDir;
    assert FirstAt(c.sources, s.volume, j);
  }

  /** The name an adopted subvolume is given starts from this. */
  ghost predicate BaseOf(a: Adoption, base: string) {
    if a.name == "." then
      exists rest: string, stem: string ::
        LastPart(a.volume, rest) && base == stem + "-toplevel" &&
        if rest == [] then stem == "volume" else Plain(rest, stem)
    else if forall i :: 0 <= i < |a.name| ==> a.name[i] == '@' then base == "root"
    else Flattened(a.name, base)
  }

  lemma NameBaseMeans(a: Adoption)
    ensures BaseOf(a, NameBase(a))
  {
    hide Flattened, LastPart, Plain, TopLevelName, AlgorithmicName;
    if a.name == TOP_LEVEL {
      var rest, stem := TopLevelNameMeans(a.volume);
    } else {
      DerivedName(a.name);
    }
  }

  /** Every adoption is carried out in its home, dated today, under a name
      that starts from its own, and every new entry is one of them. */
  ghost predicate EntryOf(a: Adoption, s: Source, e: Entry, today: string) {
    s.tag == a.sourceTag && s.volume == a.volume && e.name == a.name && e.manualOnly == a.manualOnly &&
    e.adopted == Some(today) && e.retired == None && !e.afterIndex && e.snapshotName.Some? &&
    exists base :: BaseOf(a, base) && NumberedFrom(base, e.snapshotName.value)
  }

  lemma IsForMeans(a: Adoption, s: Source, e: Entry, today: string)
    requires IsFor(a, s, e, today)
    ensures EntryOf(a, s, e, today)
  {
    hide BaseOf, NumberedFrom, NameBase, Candidate;
    NameBaseMeans(a);
    var n :| 1 <= n <= LAST_CANDIDATE && e.snapshotName.value == Candidate(NameBase(a), n);
    CandidateIsNumbered(NameBase(a), n);
  }

  predicate NotThere(c: Config, i: nat, k: nat) { i >= |c.sources| || k >= |c.sources[i].subvolumes| }

  lemma AdoptedEntriesMean(c: Config, ls: seq<Listing>, p: Plan, today: string)
    requires WellNamed(c) && HoldsBackOnlyRetirements(p, PlanFor(c, ls)) && Applied(c, p, today).Ok?
    ensures var out := Applied(c, p, today).value.sources;
            (forall a :: a in p.adopt ==> exists i: nat, k: nat ::
               i < |out| && k < |out[i].subvolumes| && EntryOf(a, out[i], out[i].subvolumes[k], today)) &&
            forall i: nat, k: nat :: i < |out| && k < |out[i].subvolumes| && NotThere(c, i, k) ==>
              exists a :: a in p.adopt && EntryOf(a, out[i], out[i].subvolumes[k], today)
  {
    hide PlanFor, Applied, WellNamed, Settled.Outcome, IsFor, EntryOf;
    AppliedIsOutcome(c, ls, p, today);
    var out := Applied(c, p, today).value;
    forall a | a in p.adopt ensures exists i: nat, k: nat ::
      i < |out.sources| && k < |out.sources[i].subvolumes| &&
      EntryOf(a, out.sources[i], out.sources[i].subvolumes[k], today)
    {
      var i, k := AdoptedEntries(c, ls, p, today, out, a);
      IsForMeans(a, out.sources[i], out.sources[i].subvolumes[k], today);
    }
    forall i: nat, k: nat | i < |out.sources| && k < |out.sources[i].subvolumes| && NotThere(c, i, k)
      ensures exists a :: a in p.adopt && EntryOf(a, out.sources[i], out.sources[i].subvolumes[k], today)
    {
      var a := NewEntries(c, ls, p, today, out, i, k);
      IsForMeans(a, out.sources[i], out.sources[i].subvolumes[k], today);
    }
  }
}
