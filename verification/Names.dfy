// Snapshot names: derived, resolved against collisions, pinned, allocated
// (indexer/src/btrbk_conf.rs, indexer/src/adopt.rs, indexer/src/config.rs).
module Names {
  import opened Base
  import opened Config
  import opened Glob

  function WithoutAt(s: string): string {
    if s == [] then []
    else if s[0] == '@' then WithoutAt(s[1..])
    else [s[0]] + WithoutAt(s[1..])
  }

  function SlashToDash(s: string): string {
    if s == [] then []
    else [if s[0] == '/' then '-' else s[0]] + SlashToDash(s[1..])
  }

  /** `@` removed, `/` flattened to `-`, and `root` for what is left empty. */
  function AlgorithmicName(name: string): string {
    var stripped := SlashToDash(WithoutAt(name));
    if stripped == [] then "root" else stripped
  }

  /** The explicit name where there is one, else the algorithmic one. */
  function BaseName(e: Entry): string {
    match e.snapshotName
    case Some(n) => n
    case None => AlgorithmicName(e.name)
  }

  function BaseNames(entries: seq<Entry>): (names: seq<string>)
    ensures |names| == |entries|
  {
    seq(|entries|, i requires 0 <= i < |entries| => BaseName(entries[i]))
  }

  function Count(x: string, s: seq<string>): nat { multiset(s)[x] }

  /** The name btrbk is given for entry `i`: on a collision an unnamed entry
      becomes `root-` and its name without `@`. */
  function ResolvedName(entries: seq<Entry>, i: nat): string
    requires i < |entries|
  {
    var base := BaseName(entries[i]);
    if entries[i].snapshotName.None? && Count(base, BaseNames(entries)) > 1
    then "root-" + WithoutAt(entries[i].name)
    else base
  }

  function Resolve(entries: seq<Entry>): (names: seq<string>)
    ensures |names| == |entries|
  {
    seq(|entries|, i requires 0 <= i < |entries| => ResolvedName(entries, i))
  }

  method CountNames(names: seq<string>) returns (counts: map<string, nat>)
    ensures forall x :: x in names ==> x in counts && counts[x] == Count(x, names)
  {
    counts := map[];
    for i := 0 to |names|
      invariant forall x :: x in counts <==> x in names[..i]
      invariant forall x :: x in counts ==> counts[x] == Count(x, names[..i])
    {
      assert names[..i + 1] == names[..i] + [names[i]];
      counts := counts[names[i] := (if names[i] in counts then counts[names[i]] else 0) + 1];
    }
    assert names[..|names|] == names;
  }

  /** The program's two passes: derive and count the base names, then rewrite
      the colliding ones in place. */
  method ResolveSnapshotNames(entries: seq<Entry>) returns (names: seq<string>)
    ensures names == Resolve(entries)
  {
    names := [];
    for i := 0 to |entries|
      invariant names == BaseNames(entries)[..i]
    {
      names := names + [BaseName(entries[i])];
    }
    var counts := CountNames(names);
    names := SeparateCollisions(entries, names, counts);
  }

  method SeparateCollisions(entries: seq<Entry>, base: seq<string>, counts: map<string, nat>)
    returns (names: seq<string>)
    requires base == BaseNames(entries)
    requires forall x :: x in base ==> x in counts && counts[x] == Count(x, base)
    ensures names == Resolve(entries)
  {
    hide Count, AlgorithmicName, WithoutAt;
    names := base;
    for i := 0 to |base|
      invariant |names| == |base|
      invariant forall k :: 0 <= k < i ==> names[k] == ResolvedName(entries, k)
      invariant forall k :: i <= k < |base| ==> names[k] == base[k]
    {
      assert base[i] in base && base[i] == BaseName(entries[i]);
      if counts[base[i]] > 1 && entries[i].snapshotName.None? {
        var disambiguated := AlgorithmicName(entries[i].name);
        // The two are always equal here: the name was derived the same way.
        var separated := if disambiguated == base[i] then "root-" + WithoutAt(entries[i].name) else disambiguated;
        names := names[i := separated];
      }
    }
  }

  // ---------------------------------------------------------------------
  // Adding an entry beside others.

  lemma CountOfOneMore(x: string, s: seq<string>, y: string)
    ensures Count(x, s + [y]) == Count(x, s) + (if x == y then 1 else 0)
  {
  }

  lemma BaseNamesOfOneMore(entries: seq<Entry>, e: Entry)
    ensures BaseNames(entries + [e]) == BaseNames(entries) + [BaseName(e)]
  {
  }

  /** An entry added with an explicit name nobody resolves to keeps every
      name beside it, and gets its own. */
  lemma AddingFreshNameKeepsNames(entries: seq<Entry>, e: Entry)
    requires e.snapshotName.Some? && e.snapshotName.value !in Resolve(entries)
    ensures Resolve(entries + [e]) == Resolve(entries) + [e.snapshotName.value]
  {
    BaseNamesOfOneMore(entries, e);
    forall i | 0 <= i < |entries| ensures ResolvedName(entries + [e], i) == ResolvedName(entries, i) {
      var base := BaseName(entries[i]);
      CountOfOneMore(base, BaseNames(entries), BaseName(e));
      assert Resolve(entries)[i] in Resolve(entries);
      assert BaseNames(entries)[i] in BaseNames(entries);
    }
  }

  /** A name is changed by a neighbour exactly when it was alone with its
      derived name and the neighbour takes that name. */
  lemma NeighbourRenames(entries: seq<Entry>, e: Entry, i: nat)
    requires i < |entries|
    ensures ResolvedName(entries + [e], i) != ResolvedName(entries, i) <==>
            entries[i].snapshotName.None? && BaseName(e) == BaseName(entries[i]) &&
            Count(BaseName(entries[i]), BaseNames(entries)) == 1 &&
            "root-" + WithoutAt(entries[i].name) != BaseName(entries[i])
  {
    BaseNamesOfOneMore(entries, e);
    CountOfOneMore(BaseName(entries[i]), BaseNames(entries), BaseName(e));
    assert BaseNames(entries)[i] in BaseNames(entries);
  }

  // ---------------------------------------------------------------------
  // Pinning: a save writes every derived name out.

  function PinnedEntry(e: Entry, name: string): Entry {
    if e.snapshotName.None? && e.name != TOP_LEVEL then e.(snapshotName := Some(name)) else e
  }

  function PinnedEntries(entries: seq<Entry>): (r: seq<Entry>)
    ensures |r| == |entries|
  {
    seq(|entries|, i requires 0 <= i < |entries| => PinnedEntry(entries[i], ResolvedName(entries, i)))
  }

  function Pinned(c: Config): Config {
    c.(sources := seq(|c.sources|, i requires 0 <= i < |c.sources| =>
        c.sources[i].(subvolumes := PinnedEntries(c.sources[i].subvolumes))))
  }

  method PinNames(entries: seq<Entry>) returns (pinned: seq<Entry>)
    ensures pinned == PinnedEntries(entries)
  {
    hide ResolvedName;
    var names := ResolveSnapshotNames(entries);
    pinned := entries;
    for j := 0 to |entries|
      invariant |pinned| == |entries|
      invariant forall k :: 0 <= k < j ==> pinned[k] == PinnedEntry(entries[k], ResolvedName(entries, k))
      invariant forall k :: j <= k < |entries| ==> pinned[k] == entries[k]
    {
      if entries[j].snapshotName.None? && entries[j].name != TOP_LEVEL {
        pinned := pinned[j := entries[j].(snapshotName := Some(names[j]))];
      }
    }
  }

  /** `with_pinned_snapshot_names`: the clone edited source by source, entry
      by entry. */
  method WithPinnedSnapshotNames(c: Config) returns (out: Config)
    ensures out == Pinned(c)
  {
    hide PinnedEntries;
    out := c;
    for i := 0 to |c.sources|
      invariant |out.sources| == |c.sources| && out == c.(sources := out.sources)
      invariant forall k :: 0 <= k < i ==> out.sources[k] == Pinned(c).sources[k]
      invariant forall k :: i <= k < |c.sources| ==> out.sources[k] == c.sources[k]
    {
      var pinned := PinNames(c.sources[i].subvolumes);
      assert pinned == PinnedEntries(c.sources[i].subvolumes);
      out := out.(sources := out.sources[i := out.sources[i].(subvolumes := pinned)]);
    }
    assert out.sources == Pinned(c).sources;
  }

  predicate TopLevelsNamed(entries: seq<Entry>) {
    forall i :: 0 <= i < |entries| && entries[i].name == TOP_LEVEL ==> entries[i].snapshotName.Some?
  }

  /** Where every top level names itself, pinning changes no name. */
  lemma PinningKeepsNames(entries: seq<Entry>)
    requires TopLevelsNamed(entries)
    ensures Resolve(PinnedEntries(entries)) == Resolve(entries)
  {
    forall i | 0 <= i < |entries| ensures Resolve(PinnedEntries(entries))[i] == Resolve(entries)[i] {
      assert PinnedEntries(entries)[i].snapshotName.Some?;
    }
  }

  /** Entry `i` is a top level with no name of its own, and the only other
      entries that would be called `.` are unnamed ones spelled differently
      (`@.`). */
  ghost predicate LosesItsNeighbours(entries: seq<Entry>, i: nat)
    requires i < |entries|
  {
    entries[i].name == TOP_LEVEL && entries[i].snapshotName.None? &&
    (exists j :: 0 <= j < |entries| && j != i && BaseName(entries[j]) == TOP_LEVEL) &&
    (forall j :: 0 <= j < |entries| && j != i && BaseName(entries[j]) == TOP_LEVEL ==>
                   entries[j].snapshotName.None? && entries[j].name != TOP_LEVEL)
  }

  lemma CountIsMembership(x: string, s: seq<string>)
    ensures Count(x, s) > 0 <==> exists i :: 0 <= i < |s| && s[i] == x
  {
    if exists i :: 0 <= i < |s| && s[i] == x {
      var i :| 0 <= i < |s| && s[i] == x;
      assert s[i] in multiset(s);
    } else {
      assert x !in s;
    }
  }

  lemma CountTwo(x: string, s: seq<string>, i: nat)
    requires i < |s| && s[i] == x
    ensures Count(x, s) > 1 <==> exists j :: 0 <= j < |s| && j != i && s[j] == x
  {
    var rest := s[..i] + s[i + 1..];
    assert s == s[..i] + [s[i]] + s[i + 1..];
    assert multiset(s) == multiset(rest) + multiset{x};
    CountIsMembership(x, rest);
    if exists j :: 0 <= j < |s| && j != i && s[j] == x {
      var j :| 0 <= j < |s| && j != i && s[j] == x;
      assert rest[if j < i then j else j - 1] == x;
    }
    forall k | 0 <= k < |rest| && rest[k] == x ensures exists j :: 0 <= j < |s| && j != i && s[j] == x {
      assert s[if k < i then k else k + 1] == x;
    }
  }

  lemma TopLevelBase(e: Entry)
    requires e.name == TOP_LEVEL && e.snapshotName.None?
    ensures BaseName(e) == TOP_LEVEL && WithoutAt(e.name) == TOP_LEVEL
  {
    assert TOP_LEVEL[1..] == [];
  }

  lemma PinnedBase(entries: seq<Entry>, i: nat, j: nat)
    requires i < |entries| && j < |entries| && i != j
    requires BaseName(entries[i]) == TOP_LEVEL
    ensures BaseName(PinnedEntries(entries)[j]) == TOP_LEVEL <==>
            BaseName(entries[j]) == TOP_LEVEL &&
            (entries[j].snapshotName.Some? || entries[j].name == TOP_LEVEL)
  {
    hide AlgorithmicName, Count;
    var b := BaseNames(entries);
    assert b[i] == TOP_LEVEL;
    CountTwo(TOP_LEVEL, b, i);
    if entries[j].snapshotName.None? {
      assert b[j] == BaseName(entries[j]);
      assert "root-" + WithoutAt(entries[j].name) != TOP_LEVEL;
    }
  }

  /** Pinning renames entry `i` in exactly one case: an unnamed top level,
      whose only rivals for the name `.` are pinned away from it. */
  lemma PinningRenames(entries: seq<Entry>, i: nat)
    requires i < |entries|
    ensures ResolvedName(PinnedEntries(entries), i) != ResolvedName(entries, i) <==>
            LosesItsNeighbours(entries, i)
  {
    hide AlgorithmicName, Count, WithoutAt;
    var pinned := PinnedEntries(entries);
    if entries[i].name == TOP_LEVEL && entries[i].snapshotName.None? {
      TopLevelBase(entries[i]);
      var b, p := BaseNames(entries), BaseNames(pinned);
      assert pinned[i] == entries[i] && b[i] == TOP_LEVEL && p[i] == TOP_LEVEL;
      CountTwo(TOP_LEVEL, b, i);
      CountTwo(TOP_LEVEL, p, i);
      forall j | 0 <= j < |entries| && j != i
        ensures p[j] == TOP_LEVEL <==>
                b[j] == TOP_LEVEL && (entries[j].snapshotName.Some? || entries[j].name == TOP_LEVEL)
      {
        PinnedBase(entries, i, j);
      }
      assert forall j :: 0 <= j < |entries| ==> b[j] == BaseName(entries[j]);
      assert "root-" + TOP_LEVEL != TOP_LEVEL;
    }
  }

  /** Such a configuration: `.` and `@.`, neither named. */
  lemma PinningCanRename()
    ensures var e := Entry(TOP_LEVEL, false, None, None, None, false);
            LosesItsNeighbours([e, e.(name := "@.")], 0)
  {
    var e := Entry(TOP_LEVEL, false, None, None, None, false);
    TopLevelBase(e);
    var f := e.(name := "@.");
    assert f.name[1..] == TOP_LEVEL && TOP_LEVEL[1..] == [];
    assert WithoutAt(f.name) == WithoutAt(TOP_LEVEL) == TOP_LEVEL;
    assert BaseName([e, f][1]) == TOP_LEVEL;
  }

  // ---------------------------------------------------------------------
  // Allocation of a name for an adopted entry.

  /** `base`, `base-2`, `base-3`, ... */
  function Candidate(base: string, n: nat): string
    requires n >= 1
  {
    if n == 1 then base else base + "-" + Decimal(n)
  }

  const LAST_CANDIDATE: nat := 65535

  function FirstFree(base: string, taken: set<string>, n: nat): Option<string>
    requires n >= 1
    decreases LAST_CANDIDATE + 1 - n
  {
    if n > LAST_CANDIDATE then None
    else if Candidate(base, n) !in taken then Some(Candidate(base, n))
    else FirstFree(base, taken, n + 1)
  }

  /** `None` stands for the program's `expect`, which would stop it. */
  method UniqueName(base: string, taken: set<string>) returns (name: Option<string>)
    ensures name == FirstFree(base, taken, 1)
  {
    if base !in taken { return Some(base); }
    var n := 2;
    while n <= LAST_CANDIDATE
      invariant 2 <= n <= LAST_CANDIDATE + 1
      invariant FirstFree(base, taken, 1) == FirstFree(base, taken, n)
    {
      var candidate := base + "-" + Decimal(n);
      if candidate !in taken { return Some(candidate); }
      n := n + 1;
    }
    return None;
  }

  lemma {:induction false} FirstFreeFrom(base: string, taken: set<string>, n: nat)
    requires n >= 1
    ensures match FirstFree(base, taken, n)
            case Some(name) =>
              name !in taken &&
              exists k :: n <= k <= LAST_CANDIDATE && name == Candidate(base, k) &&
                          forall j :: n <= j < k ==> Candidate(base, j) in taken
            case None => forall k :: n <= k <= LAST_CANDIDATE ==> Candidate(base, k) in taken
    decreases LAST_CANDIDATE + 1 - n
  {
    hide Candidate;
    if n <= LAST_CANDIDATE && Candidate(base, n) in taken { FirstFreeFrom(base, taken, n + 1); }
  }

  lemma CandidatesDiffer(base: string, m: nat, n: nat)
    requires 1 <= m && 1 <= n && m != n
    ensures Candidate(base, m) != Candidate(base, n)
  {
    if Candidate(base, m) == Candidate(base, n) && m > 1 && n > 1 {
      assert (base + "-" + Decimal(m))[|base| + 1..] == Decimal(m);
      assert (base + "-" + Decimal(n))[|base| + 1..] == Decimal(n);
      DecimalInjective(m, n);
    }
  }

  lemma {:induction false} CandidatesFill(base: string, taken: set<string>, n: nat)
    requires forall k :: 1 <= k <= n ==> Candidate(base, k) in taken
    ensures |taken| >= n
  {
    if n > 0 {
      var last := Candidate(base, n);
      forall k | 1 <= k <= n - 1 ensures Candidate(base, k) in taken - {last} { CandidatesDiffer(base, k, n); }
      CandidatesFill(base, taken - {last}, n - 1);
    }
  }

  /** The name found is free and is the first free candidate; none is found
      only when all 65,535 candidates are taken, which takes as many names. */
  lemma UniqueNameIsFirstFree(base: string, taken: set<string>)
    ensures match FirstFree(base, taken, 1)
            case Some(name) =>
              name !in taken &&
              exists k :: 1 <= k <= LAST_CANDIDATE && name == Candidate(base, k) &&
                          forall j :: 1 <= j < k ==> Candidate(base, j) in taken
            case None => forall k :: 1 <= k <= LAST_CANDIDATE ==> Candidate(base, k) in taken
    ensures |taken| <= 65534 ==> FirstFree(base, taken, 1).Some?
  {
    FirstFreeFrom(base, taken, 1);
    if FirstFree(base, taken, 1).None? { CandidatesFill(base, taken, LAST_CANDIDATE); }
  }
}
