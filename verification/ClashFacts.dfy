// Which clashes `validate` reports, and what it says of each
// (indexer/src/config.rs).
module ClashFacts {
  import opened Config
  import opened Names
  import opened Validate
  import opened ValidFacts

  // ---------------------------------------------------------------------
  // In the list of series.

  /** Series `m` and a later `n` clash, and `m` is the first of their key. */
  ghost predicate ClashAt(series: seq<Series>, m: nat, n: nat) {
    m < n < |series| && series[m].key == series[n].key && forall p :: 0 <= p < m ==> series[p].key != series[m].key
  }

  function Told(first: string, later: Series): ConfigError {
    SameSeries(first, later.name, later.key.volume, later.key.snapshotName)
  }

  /** What is said of the series after the first `n`, with `seen` gathered from
      those. */
  ghost predicate Remembers(series: seq<Series>, n: nat, seen: map<SeriesKey, string>) {
    n <= |series| &&
    (forall p :: 0 <= p < n ==> series[p].key in seen) &&
    forall key :: key in seen ==>
      exists m: nat :: m < n && series[m].key == key && series[m].name == seen[key] &&
                       forall p :: 0 <= p < m ==> series[p].key != key
  }

  ghost predicate SaidAt(series: seq<Series>, n: nat, e: ConfigError) {
    exists m: nat :: ClashAt(series, m, n) && e == Told(series[m].name, series[n])
  }

  ghost predicate SaidLater(series: seq<Series>, n: nat, e: ConfigError) {
    exists q: nat :: n <= q && SaidAt(series, q, e)
  }

  lemma RememberOneMore(series: seq<Series>, n: nat, seen: map<SeriesKey, string>)
    requires Remembers(series, n, seen) && n < |series|
    ensures Remembers(series, n + 1, if series[n].key in seen then seen else seen[series[n].key := series[n].name])
  {
    var x := series[n];
    var next := if x.key in seen then seen else seen[x.key := x.name];
    forall key | key in next
      ensures exists m: nat :: m < n + 1 && series[m].key == key && series[m].name == next[key] &&
                               forall p :: 0 <= p < m ==> series[p].key != key
    {
      if key in seen {
        var m: nat :| m < n && series[m].key == key && series[m].name == seen[key] &&
                      forall p :: 0 <= p < m ==> series[p].key != key;
        assert series[m].name == next[key];
      } else {
        assert series[n].name == next[key] && forall p :: 0 <= p < n ==> series[p].key != key;
      }
    }
  }

  lemma OneFirst(series: seq<Series>, n: nat)
    ensures forall m: nat, o: nat :: ClashAt(series, m, n) && ClashAt(series, o, n) ==> m == o
  {
  }

  lemma ClashNow(series: seq<Series>, n: nat, seen: map<SeriesKey, string>)
    requires Remembers(series, n, seen) && n < |series|
    ensures series[n].key !in seen ==> forall e :: !SaidAt(series, n, e)
    ensures series[n].key in seen ==>
              forall e :: SaidAt(series, n, e) <==> e == Told(seen[series[n].key], series[n])
  {
    OneFirst(series, n);
    var key := series[n].key;
    if key in seen {
      var m: nat :| m < n && series[m].key == key && series[m].name == seen[key] &&
                    forall p :: 0 <= p < m ==> series[p].key != key;
      assert ClashAt(series, m, n);
    }
  }

  lemma {:induction false} ErrorsSay(series: seq<Series>, n: nat, seen: map<SeriesKey, string>)
    requires n <= |series| && Remembers(series, n, seen)
    ensures forall e :: e in SeriesErrors(seen, series[n..]) <==> SaidLater(series, n, e)
    decreases |series| - n
  {
    LaterSplits(series, n);
    if n < |series| {
      RememberOneMore(series, n, seen);
      ClashNow(series, n, seen);
      hide Remembers, ClashAt, SaidAt, SaidLater, Told;
      assert series[n..][0] == series[n] && series[n..][1..] == series[n + 1..];
      ErrorsSay(series, n + 1, if series[n].key in seen then seen else seen[series[n].key := series[n].name]);
      ErrorsNext(series, n, seen);
    }
  }

  lemma ErrorsNext(series: seq<Series>, n: nat, seen: map<SeriesKey, string>)
    requires n < |series|
    ensures SeriesErrors(seen, series[n..]) ==
            if series[n].key in seen then [Told(seen[series[n].key], series[n])] + SeriesErrors(seen, series[n + 1..])
            else SeriesErrors(seen[series[n].key := series[n].name], series[n + 1..])
  {
    assert series[n..][0] == series[n] && series[n..][1..] == series[n + 1..];
  }

  lemma LaterSplits(series: seq<Series>, n: nat)
    ensures n >= |series| ==> forall e :: !SaidLater(series, n, e)
    ensures forall e :: SaidLater(series, n, e) <==> SaidLater(series, n + 1, e) || SaidAt(series, n, e)
  {
    hide Told;
  }

  // ---------------------------------------------------------------------
  // In positions.

  ghost predicate Precedes(i: nat, k: nat, j: nat, l: nat) { i < j || (i == j && k < l) }

  /** Two live entries that would write one series, the first of all such and
      a later one. */
  ghost predicate FirstAlike(sources: seq<Source>, i: nat, k: nat, j: nat, l: nat) {
    LiveAt(sources, i, k) && LiveAt(sources, j, l) && Precedes(i, k, j, l) && Alike(sources, i, k, j, l) &&
    forall x: nat, y: nat :: LiveAt(sources, x, y) && Precedes(x, y, i, k) ==> !Alike(sources, x, y, i, k)
  }

  /** `at` lists, in order, the live entries from entry `k` of source `i` on. */
  ghost predicate InOrder(sources: seq<Source>, i: nat, k: nat, at: seq<(nat, nat)>) {
    (forall m :: 0 <= m < |at| ==> LiveAt(sources, at[m].0, at[m].1) && !Precedes(at[m].0, at[m].1, i, k)) &&
    (forall m, n :: 0 <= m < n < |at| ==> Precedes(at[m].0, at[m].1, at[n].0, at[n].1)) &&
    forall x: nat, y: nat :: LiveAt(sources, x, y) && !Precedes(x, y, i, k) ==> (x, y) in at
  }

  function SeriesAt(sources: seq<Source>, i: nat, k: nat): Series
    requires LiveAt(sources, i, k)
  {
    Series(KeyAt(sources, i, k), sources[i].subvolumes[k].name)
  }

  /** `series` is what those entries write. */
  ghost predicate Writes(sources: seq<Source>, series: seq<Series>, at: seq<(nat, nat)>) {
    |series| == |at| &&
    forall m :: 0 <= m < |at| ==>
      LiveAt(sources, at[m].0, at[m].1) && series[m] == SeriesAt(sources, at[m].0, at[m].1)
  }

  function SeriesOnward(sources: seq<Source>, i: nat, k: nat): seq<Series>
    requires i < |sources| && k <= |sources[i].subvolumes|
  {
    SeriesFrom(sources[i], sources[i].subvolumes[k..], Resolve(sources[i].subvolumes)[k..]) +
    AllSeries(sources[i + 1..])
  }

  lemma OneEntryMore(sources: seq<Source>, i: nat, k: nat, at: seq<(nat, nat)>)
    requires i < |sources| && k < |sources[i].subvolumes| && InOrder(sources, i, k + 1, at)
    ensures LiveAt(sources, i, k) ==> InOrder(sources, i, k, [(i, k)] + at)
    ensures !LiveAt(sources, i, k) ==> InOrder(sources, i, k, at)
  {
    hide LiveAt;
    var all := [(i, k)] + at;
    assert all[0] == (i, k) && forall m :: 0 < m < |all| ==> all[m] == at[m - 1];
    forall x: nat, y: nat | LiveAt(sources, x, y) && !Precedes(x, y, i, k)
      ensures (x, y) in all && ((x == i && y == k) || (x, y) in at)
    {
      if !(x == i && y == k) { assert !Precedes(x, y, i, k + 1); }
    }
  }

  lemma NextSource(sources: seq<Source>, i: nat, at: seq<(nat, nat)>)
    requires i < |sources| && InOrder(sources, i + 1, 0, at)
    ensures InOrder(sources, i, |sources[i].subvolumes|, at)
  {
    forall x: nat, y: nat | LiveAt(sources, x, y) && !Precedes(x, y, i, |sources[i].subvolumes|)
      ensures !Precedes(x, y, i + 1, 0) {}
  }

  lemma WritesMore(sources: seq<Source>, i: nat, k: nat, series: seq<Series>, at: seq<(nat, nat)>)
    requires LiveAt(sources, i, k) && Writes(sources, series, at)
    ensures Writes(sources, [SeriesAt(sources, i, k)] + series, [(i, k)] + at)
  {
    hide LiveAt, SeriesAt;
  }

  lemma OnwardStep(sources: seq<Source>, i: nat, k: nat)
    requires i < |sources| && k < |sources[i].subvolumes|
    ensures SeriesOnward(sources, i, k) ==
            (if LiveAt(sources, i, k) then [SeriesAt(sources, i, k)] else []) + SeriesOnward(sources, i, k + 1)
  {
    hide ResolvedName, AllSeries;
    var s := sources[i];
    var names := Resolve(s.subvolumes);
    assert s.subvolumes[k..][1..] == s.subvolumes[k + 1..] && names[k..][1..] == names[k + 1..];
    var first := if LiveAt(sources, i, k) then [SeriesAt(sources, i, k)] else [];
    var rest := SeriesFrom(s, s.subvolumes[k + 1..], names[k + 1..]);
    assert SeriesFrom(s, s.subvolumes[k..], names[k..]) == first + rest;
    assert first + rest + AllSeries(sources[i + 1..]) == first + (rest + AllSeries(sources[i + 1..]));
  }

  lemma OnwardEnd(sources: seq<Source>, i: nat)
    requires i < |sources|
    ensures SeriesOnward(sources, i, |sources[i].subvolumes|) ==
            if i + 1 < |sources| then SeriesOnward(sources, i + 1, 0) else []
  {
    hide ResolvedName;
    var n := |sources[i].subvolumes|;
    assert sources[i].subvolumes[n..] == [];
    if i + 1 < |sources| {
      var rest, t := sources[i + 1..], sources[i + 1];
      assert rest[0] == t && rest[1..] == sources[i + 2..];
      assert t.subvolumes[0..] == t.subvolumes && Resolve(t.subvolumes)[0..] == Resolve(t.subvolumes);
    }
  }

  lemma {:induction false} Onward(sources: seq<Source>, i: nat, k: nat) returns (at: seq<(nat, nat)>)
    requires i < |sources| && k <= |sources[i].subvolumes|
    ensures InOrder(sources, i, k, at) && Writes(sources, SeriesOnward(sources, i, k), at)
    decreases |sources| - i, |sources[i].subvolumes| - k
  {
    hide InOrder, Writes, SeriesOnward, LiveAt, SeriesAt;
    if k < |sources[i].subvolumes| {
      at := Onward(sources, i, k + 1);
      OneEntryMore(sources, i, k, at);
      OnwardStep(sources, i, k);
      if LiveAt(sources, i, k) {
        WritesMore(sources, i, k, SeriesOnward(sources, i, k + 1), at);
        at := [(i, k)] + at;
      } else {
        assert [] + SeriesOnward(sources, i, k + 1) == SeriesOnward(sources, i, k + 1);
      }
    } else {
      OnwardEnd(sources, i);
      if i + 1 < |sources| {
        at := Onward(sources, i + 1, 0);
      } else {
        at := [];
        NothingOnward(sources);
      }
      NextSource(sources, i, at);
    }
  }

  lemma NothingOnward(sources: seq<Source>)
    ensures InOrder(sources, |sources|, 0, []) && Writes(sources, [], [])
  {
  }

  /** Every series, with where it is from. */
  lemma AllInOrder(sources: seq<Source>) returns (at: seq<(nat, nat)>)
    ensures InOrder(sources, 0, 0, at) && Writes(sources, AllSeries(sources), at)
  {
    hide InOrder, Writes, ResolvedName;
    if sources == [] {
      at := [];
      NothingOnward(sources);
    } else {
      at := Onward(sources, 0, 0);
      var s := sources[0];
      assert s.subvolumes[0..] == s.subvolumes && Resolve(s.subvolumes)[0..] == Resolve(s.subvolumes);
    }
  }

  lemma SameKeyAlike(sources: seq<Source>, i: nat, k: nat, j: nat, l: nat)
    requires LiveAt(sources, i, k) && LiveAt(sources, j, l)
    ensures KeyAt(sources, i, k) == KeyAt(sources, j, l) <==> Alike(sources, i, k, j, l)
  {
    hide ResolvedName;
  }

  lemma KeysMatch(sources: seq<Source>, series: seq<Series>, at: seq<(nat, nat)>, m: nat, n: nat)
    requires Writes(sources, series, at) && m < |at| && n < |at|
    ensures |series| == |at| && LiveAt(sources, at[m].0, at[m].1) && LiveAt(sources, at[n].0, at[n].1)
    ensures series[m].key == series[n].key <==> Alike(sources, at[m].0, at[m].1, at[n].0, at[n].1)
  {
    SameKeyAlike(sources, at[m].0, at[m].1, at[n].0, at[n].1);
    hide KeyAt, LiveAt, Alike;
  }

  lemma ClashIsFirst(sources: seq<Source>, series: seq<Series>, at: seq<(nat, nat)>, m: nat, n: nat)
    requires InOrder(sources, 0, 0, at) && Writes(sources, series, at) && ClashAt(series, m, n)
    ensures m < n < |at| && FirstAlike(sources, at[m].0, at[m].1, at[n].0, at[n].1)
  {
    KeysMatch(sources, series, at, m, n);
    var i, k := at[m].0, at[m].1;
    forall x: nat, y: nat | LiveAt(sources, x, y) && Precedes(x, y, i, k) ensures !Alike(sources, x, y, i, k) {
      var p :| 0 <= p < |at| && at[p] == (x, y);
      KeysMatch(sources, series, at, p, m);
      PlacesInOrder(sources, at, p, m);
    }
    hide LiveAt, Alike, Writes;
  }

  lemma PlacesInOrder(sources: seq<Source>, at: seq<(nat, nat)>, p: nat, m: nat)
    requires InOrder(sources, 0, 0, at) && p < |at| && m < |at|
    ensures Precedes(at[p].0, at[p].1, at[m].0, at[m].1) <==> p < m
  {
    hide LiveAt;
    if m < p { assert Precedes(at[m].0, at[m].1, at[p].0, at[p].1); }
  }

  lemma FirstIsClash(sources: seq<Source>, series: seq<Series>, at: seq<(nat, nat)>, i: nat, k: nat, j: nat, l: nat)
    returns (m: nat, n: nat)
    requires InOrder(sources, 0, 0, at) && Writes(sources, series, at) && FirstAlike(sources, i, k, j, l)
    ensures m < |at| && n < |at| && at[m] == (i, k) && at[n] == (j, l) && ClashAt(series, m, n)
  {
    hide Alike;
    m :| 0 <= m < |at| && at[m] == (i, k);
    n :| 0 <= n < |at| && at[n] == (j, l);
    PlacesInOrder(sources, at, m, n);
    KeysMatch(sources, series, at, m, n);
    forall p | 0 <= p < m ensures series[p].key != series[m].key {
      KeysMatch(sources, series, at, p, m);
      PlacesInOrder(sources, at, p, m);
    }
  }

  /** What `validate` says of clashes: for every live entry that writes a series
      an earlier one writes, that entry's name and the name of the first such,
      the volume and the snapshot name; nothing else. */
  ghost predicate SaysOf(sources: seq<Source>, i: nat, k: nat, j: nat, l: nat, e: ConfigError) {
    FirstAlike(sources, i, k, j, l) &&
    e == SameSeries(sources[i].subvolumes[k].name, sources[j].subvolumes[l].name, sources[j].volume,
                    ResolvedName(sources[j].subvolumes, l))
  }

  lemma ToldOf(sources: seq<Source>, series: seq<Series>, at: seq<(nat, nat)>, m: nat, n: nat)
    requires Writes(sources, series, at) && m < |at| && n < |at|
    ensures |series| == |at| && LiveAt(sources, at[m].0, at[m].1) && LiveAt(sources, at[n].0, at[n].1)
    ensures var s := sources[at[n].0];
            Told(series[m].name, series[n]) ==
            SameSeries(sources[at[m].0].subvolumes[at[m].1].name, s.subvolumes[at[n].1].name, s.volume,
                       ResolvedName(s.subvolumes, at[n].1))
  {
    hide ResolvedName;
  }

  lemma ClashesMean(c: Config)
    ensures forall e :: e in SeriesErrors(map[], AllSeries(c.sources)) <==>
              exists i: nat, k: nat, j: nat, l: nat :: SaysOf(c.sources, i, k, j, l, e)
  {
    var series := AllSeries(c.sources);
    var at := AllInOrder(c.sources);
    assert series[0..] == series && Remembers(series, 0, map[]);
    ErrorsSay(series, 0, map[]);
    hide AllSeries, SeriesErrors, InOrder, Writes, FirstAlike, ClashAt, Told, LiveAt, ResolvedName, Remembers;
    forall e ensures SaidLater(series, 0, e) <==>
                     exists i: nat, k: nat, j: nat, l: nat :: SaysOf(c.sources, i, k, j, l, e) {
      SaidMeans(c.sources, series, at, e);
    }
  }

  lemma SaidMeans(sources: seq<Source>, series: seq<Series>, at: seq<(nat, nat)>, e: ConfigError)
    requires InOrder(sources, 0, 0, at) && Writes(sources, series, at)
    ensures SaidLater(series, 0, e) <==> exists i: nat, k: nat, j: nat, l: nat :: SaysOf(sources, i, k, j, l, e)
  {
    ClashesAreIn(series);
    hide InOrder, Writes, FirstAlike, ClashAt, Told, LiveAt, ResolvedName;
    if SaidLater(series, 0, e) {
      var n: nat :| 0 <= n && SaidAt(series, n, e);
      var m: nat :| ClashAt(series, m, n) && e == Told(series[m].name, series[n]);
      ClashIsFirst(sources, series, at, m, n);
      ToldOf(sources, series, at, m, n);
      assert SaysOf(sources, at[m].0, at[m].1, at[n].0, at[n].1, e);
    }
    if exists i: nat, k: nat, j: nat, l: nat :: SaysOf(sources, i, k, j, l, e) {
      var i: nat, k: nat, j: nat, l: nat :| SaysOf(sources, i, k, j, l, e);
      var m, n := FirstIsClash(sources, series, at, i, k, j, l);
      ToldOf(sources, series, at, m, n);
      assert SaidAt(series, n, e);
    }
  }

  lemma ClashesAreIn(series: seq<Series>)
    ensures forall m: nat, n: nat :: ClashAt(series, m, n) ==> m < n < |series|
  {
  }
}
